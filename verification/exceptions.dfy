/**
 The .NET exceptions that the command framework throws and catches, as data.

 Every operation that can throw in the application returns a `Result`: `Ok`
 carries the normal return value, `Raised` the exception that escaped.
 */
module Exceptions {
  import opened Int32

  /** A value or a C# reference that may be null. */
  datatype Option<+T> = None | Some(value: T) {
    function GetOr(default: T): T {
      match this
      case Some(v) => v
      case None => default
    }
  }

  /** The exception kinds the framework distinguishes in its catch clauses.
      `ArgumentNull` and `ArgumentOutOfRange` derive from `ArgumentException`
      in .NET; `Argument` is any other `ArgumentException`; `Failure` is any
      exception outside these families (a `CommandException` included). */
  datatype Exception =
    | ArgumentNull(paramName: string)
    | ArgumentOutOfRange(paramName: string, actualValue: Option<int>, message: string)
    | Argument(paramName: string, message: string)
    | OperationCanceled
    | Failure(message: string)

  /** `catch (ArgumentException)` catches exactly these. */
  predicate IsArgumentException(e: Exception) {
    e.ArgumentNull? || e.ArgumentOutOfRange? || e.Argument?
  }

  /** `Environment.NewLine` on the Unix hosts the application targets. */
  const NewLine: string := "\n"

  /** What `ArgumentException.Message` appends when the parameter name is
      known: ` (Parameter '<name>')`. */
  function ParamSuffix(paramName: string): string {
    if paramName == "" then "" else " (Parameter '" + paramName + "')"
  }

  /** The message a catch clause reads from `ex.Message`. An argument error
      appends its parameter name to the constructor's text, and an
      out-of-range error then adds a line with the rejected value. The two
      library defaults are those of `ArgumentNullException` and
      `OperationCanceledException`. */
  function Message(e: Exception): (m: string)
    ensures e.Failure? ==> m == e.message
    ensures e.OperationCanceled? ==> m == "The operation was canceled."
    ensures e.ArgumentNull? ==> "Value cannot be null." <= m
    ensures e.Argument? || e.ArgumentOutOfRange? ==> e.message <= m
    ensures e.Argument? || e.ArgumentOutOfRange? ==>
              (m == e.message <==> e.paramName == "" && (e.ArgumentOutOfRange? ==> e.actualValue.None?))
    ensures e.ArgumentOutOfRange? && e.actualValue.Some? ==> m[|m| - 1] == '.'
  {
    match e
    case ArgumentNull(p) => "Value cannot be null." + ParamSuffix(p)
    case ArgumentOutOfRange(p, v, msg) =>
      var named := msg + ParamSuffix(p);
      if v.Some? then named + NewLine + "Actual value was " + IntToString(v.value) + "." else named
    case Argument(p, msg) => msg + ParamSuffix(p)
    case OperationCanceled => "The operation was canceled."
    case Failure(msg) => msg
  }

  /** The outcome of a call: a normal return or an escaping exception. */
  datatype Result<+T> = Ok(value: T) | Raised(error: Exception)

  /** Outcome of a `void` method. */
  type Status = Result<()>

  /** Outcome of `Task<int> ExecuteAsync()`: an exit code or an exception. */
  type Outcome = Result<int>

  const Done: Status := Ok(())
}
