/**
 `ProgressCommand.Create`: declares the `progress` command with its
 `--duration` option and binds an action that wraps the parsed duration in
 `ProgressCommandOptions`, stores it through the handler's `SetOptions`
 (which validates it), runs the handler, and maps the outcome to the exit code
 the action sets (`Environment.ExitCode`) and a printed line.

 The handler is any `CommandHandler<ProgressCommandOptions>`; its
 `ExecuteAsync` is a parameter, a function of the options it reads.
 */
module ProgressCommand {
  import opened Exceptions
  import opened Int32
  import opened CommandLine
  import opened CommandHandler
  import opened ProgressCommandOptions
  import Messages

  /** `DefaultValueFactory = _ => 3`. */
  const DefaultDuration: Int32 := 3

  const DurationOption: OptionSpec :=
    OptionSpec("--duration", "Duration in seconds for the progress demonstration", Some(IntDefault(3)))

  /** `Create(handler)`: a null handler is refused; otherwise the `progress`
      command with the single `--duration` option defaulting to 3. */
  function Create<H>(handler: Option<H>): (r: Result<CommandSpec>)
    ensures r.Raised? <==> handler.None?
    ensures r.Raised? ==> r.error == ArgumentNull("handler")
    ensures r.Ok? ==> r.value.name == "progress"
    ensures r.Ok? ==> |r.value.options| == 1 && r.value.options[0].name == "--duration"
    ensures r.Ok? ==> r.value.options[0].defaultValue == Some(IntDefault(DefaultDuration as int))
  {
    match handler
    case None => Raised(ArgumentNull("handler"))
    case Some(_) => Ok(CommandSpec("progress", "Show a progress bar demo", [DurationOption]))
  }

  /** `parseResult.GetValue(durationOption)`: the given value, or 3. */
  function ParsedDuration(given: Option<Int32>): (d: Int32)
    ensures given.Some? ==> d == given.value
    ensures given.None? ==> d == 3
  {
    given.GetOr(DefaultDuration)
  }

  /** The action's catch clauses, in order: out-of-range, cancellation, other
      argument errors, anything else. Every one sets exit code 1. */
  function Catch(e: Exception): (r: Report)
    ensures r.exitCode == 1
    ensures IsArgumentException(e) ==> r.line == Some(Messages.InvalidArgument(Message(e)))
    ensures e.OperationCanceled? ==> r.line == Some(Messages.ProgressCancelled)
    ensures e.Failure? ==> r.line == Some(Messages.ExecutionError(Message(e)))
  {
    if e.ArgumentOutOfRange? then Report(1, Some(Messages.InvalidArgument(Message(e))))
    else if e.OperationCanceled? then Report(1, Some(Messages.ProgressCancelled))
    else if IsArgumentException(e) then Report(1, Some(Messages.InvalidArgument(Message(e))))
    else Report(1, Some(Messages.ExecutionError(Message(e))))
  }

  /** One invocation of the action: the handler's state afterwards, the
      options it executed with (`None` if `ExecuteAsync` never ran), and the
      report. */
  datatype Invocation = Invocation(
    state: HandlerState<ProgressOptions>,
    executedWith: Option<ProgressOptions>,
    report: Report)

  /** The action body and its catch clauses. */
  function Invoke(h: HandlerState<ProgressOptions>, given: Option<Int32>,
                  execute: ProgressOptions -> Outcome): (r: Invocation)
    ensures var d := ParsedDuration(given);
            && (r.executedWith.Some? <==> d > 0)
            && (d > 0 ==> r.executedWith == Some(ProgressOptions(d)))
            && (d > 0 ==> r.state == h.(options := Some(ProgressOptions(d))))
            && (d <= 0 ==> r.state == h)
            && (d <= 0 ==> r.report == Report(1, Some(Messages.InvalidArgument(
                  InvalidDurationMessage + " (Parameter 'DurationSeconds')" + NewLine
                  + "Actual value was " + IntToString(d) + "."))))
    ensures var o := ProgressOptions(ParsedDuration(given));
            && (o.durationSeconds > 0 && execute(o).Ok? ==> r.report == Report(execute(o).value, None))
            && (o.durationSeconds > 0 && execute(o).Raised? ==> r.report == Catch(execute(o).error))
  {
    var options := ProgressOptions(ParsedDuration(given));
    var t := SetOptions(h, Some(options), Validate);
    if t.status.Raised? then
      Invocation(t.state, None, Catch(t.status.error))
    else
      var stored := t.state.options.value;
      match execute(stored)
      case Ok(code) => Invocation(t.state, Some(stored), Report(code, None))
      case Raised(e) => Invocation(t.state, Some(stored), Catch(e))
  }

  /** The exit code is the handler's own code when it returned, and 1 in
      every other case. */
  lemma ExitCodeIsHandlerCodeOrOne(h: HandlerState<ProgressOptions>, given: Option<Int32>,
                                   execute: ProgressOptions -> Outcome)
    ensures var r := Invoke(h, given, execute);
            r.report.exitCode == 1 ||
            (r.executedWith.Some? && execute(r.executedWith.value) == Ok(r.report.exitCode))
  {
  }

  /** Every invocation leaves the handler holding only validated options,
      provided it held only validated options before. */
  lemma InvokeKeepsInvariant(h: HandlerState<ProgressOptions>, given: Option<Int32>,
                             execute: ProgressOptions -> Outcome)
    requires OptionsValidated(h, Validate)
    ensures OptionsValidated(Invoke(h, given, execute).state, Validate)
  {
  }

  /** `progress --duration 0`: the handler does not run, the exit code is 1
      and the line names the duration parameter and the rejected value. */
  lemma ZeroDurationRejected(h: HandlerState<ProgressOptions>, execute: ProgressOptions -> Outcome)
    ensures Invoke(h, Some(0), execute).executedWith.None?
    ensures Invoke(h, Some(0), execute).report ==
              Report(1, Some(Messages.InvalidArgument(
                "Duration must be greater than 0." + " (Parameter 'DurationSeconds')" + "\n"
                + "Actual value was " + "0" + ".")))
  {
  }

  /** With `--duration` omitted the handler runs with 3 seconds. */
  lemma OmittedDurationRunsWithThree(h: HandlerState<ProgressOptions>, execute: ProgressOptions -> Outcome)
    ensures Invoke(h, None, execute).executedWith == Some(ProgressOptions(3))
  {
  }
}
