/**
 `InfoCommand.Create`: declares the `info` command (no options) and binds an
 action that runs the handler and maps its outcome to the exit code. The
 handler reads the host environment and draws a panel; the model takes the
 outcome of its `ExecuteAsync` as a parameter.
 */
module InfoCommand {
  import opened Exceptions
  import opened CommandLine
  import Messages

  /** `Create(handler)`: a null handler is refused; otherwise the `info`
      command, with no options. */
  function Create<H>(handler: Option<H>): (r: Result<CommandSpec>)
    ensures r.Raised? <==> handler.None?
    ensures r.Raised? ==> r.error == ArgumentNull("handler")
    ensures r.Ok? ==> r.value.name == "info" && r.value.options == []
  {
    match handler
    case None => Raised(ArgumentNull("handler"))
    case Some(_) => Ok(CommandSpec("info", "Display system information", []))
  }

  /** The action: the handler's code on a normal return; 1 with a
      cancellation line, or 1 with an error line for any other exception. */
  function Invoke(outcome: Outcome): (r: Report)
    ensures outcome.Ok? ==> r == Report(outcome.value, None)
    ensures outcome == Raised(OperationCanceled) ==> r == Report(1, Some(Messages.InfoCancelled))
    ensures outcome.Raised? && !outcome.error.OperationCanceled? ==>
              r == Report(1, Some(Messages.ExecutionError(Message(outcome.error))))
  {
    match outcome
    case Ok(code) => Report(code, None)
    case Raised(OperationCanceled) => Report(1, Some(Messages.InfoCancelled))
    case Raised(e) => Report(1, Some(Messages.ExecutionError(Message(e))))
  }

  /** The exit code is the handler's code or 1, and 1 exactly when the
      handler threw or itself returned 1; a line is printed exactly when it
      threw. */
  lemma ExitCodeIsHandlerCodeOrOne(outcome: Outcome)
    ensures Invoke(outcome).exitCode == 1 || outcome == Ok(Invoke(outcome).exitCode)
    ensures Invoke(outcome).exitCode == 1 <==> outcome.Raised? || outcome == Ok(1)
    ensures Invoke(outcome).line.Some? <==> outcome.Raised?
  {
  }
}
