/**
 `ProgressCommandHandler`: the handler that draws the progress demonstration.

 This variant keeps its own duration field (initially 3 seconds) guarded by
 `SetDuration`, rather than reading a `ProgressCommandOptions` through the
 generic `CommandHandler` base class. The progress display is an external
 rendering call: the model takes what it did as a parameter, `rendering`,
 which is `Done` when the display ran the step loop to the end and
 `Raised(e)` when it threw `e` (cancellation included).
 */
module ProgressCommandHandler {
  import opened Exceptions
  import opened Int32
  import opened ProgressSchedule
  import Messages

  /** `private int _durationSeconds = 3;` */
  const DefaultDuration: Int32 := 3

  /** `nameof(durationSeconds)` in `SetDuration`. */
  const DurationParamName: string := "durationSeconds"

  const InvalidDurationMessage: string := "Duration must be greater than 0."

  datatype ProgressHandlerState = ProgressHandlerState(durationSeconds: Int32)

  /** The duration field as the primary constructor leaves it. */
  function Initial(): (h: ProgressHandlerState)
    ensures h.durationSeconds == 3
  {
    ProgressHandlerState(DefaultDuration)
  }

  /** The handler's invariant: the duration it will run is positive. */
  predicate Valid(h: ProgressHandlerState) {
    h.durationSeconds > 0
  }

  datatype DurationChange = DurationChange(state: ProgressHandlerState, status: Status)

  /** `SetDuration(d)`: a non-positive `d` throws an out-of-range error and
      leaves the duration alone; otherwise the duration becomes `d`. */
  function SetDuration(h: ProgressHandlerState, d: Int32): (r: DurationChange)
    ensures r.status.Ok? <==> d > 0
    ensures r.status.Ok? ==> r.state.durationSeconds == d
    ensures r.status.Raised? ==> r.state == h
    ensures r.status.Raised? ==> r.status.error == ArgumentOutOfRange(DurationParamName, None, InvalidDurationMessage)
  {
    if d <= 0 then
      DurationChange(h, Raised(ArgumentOutOfRange(DurationParamName, None, InvalidDurationMessage)))
    else
      DurationChange(ProgressHandlerState(d), Done)
  }

  /** The invariant holds initially and every `SetDuration` keeps it. */
  lemma SetDurationKeepsValid(h: ProgressHandlerState, d: Int32)
    requires Valid(h)
    ensures Valid(Initial())
    ensures Valid(SetDuration(h, d).state)
  {
  }

  /** The line printed after the display completes, without its markup. */
  const CompletedLine: string := "✓ All tasks completed!"

  /** What `ExecuteAsync` yields: its outcome, the bump counts of the three
      tasks when the display ran to the end, and the line it printed. */
  datatype ProgressRun = ProgressRun(outcome: Outcome, bumps: Option<Bumps>, line: Option<string>)

  /** `ExecuteAsync`: 0 and the completion line after a completed run; a
      cancellation is rethrown with nothing printed; any other exception is
      reported as `Error: <message>` and becomes 1. */
  function ExecuteAsync(h: ProgressHandlerState, rendering: Status): (r: ProgressRun)
    ensures rendering.Ok? ==> r.outcome == Ok(0)
    ensures rendering.Ok? ==> r.bumps == Some(ScheduleBumps(StepCount(h.durationSeconds)))
    ensures rendering.Ok? ==> r.line == Some(CompletedLine)
    ensures rendering == Raised(OperationCanceled) ==> r.outcome == Raised(OperationCanceled)
    ensures rendering == Raised(OperationCanceled) ==> r.line.None?
    ensures rendering.Raised? && !rendering.error.OperationCanceled? ==> r.outcome == Ok(1)
    ensures rendering.Raised? && !rendering.error.OperationCanceled? ==>
              r.line == Some(Messages.ExecutionError(Message(rendering.error)))
    ensures rendering.Raised? ==> r.bumps.None?
  {
    match rendering
    case Ok(_) => ProgressRun(Ok(0), Some(ScheduleBumps(StepCount(h.durationSeconds))), Some(CompletedLine))
    case Raised(OperationCanceled) => ProgressRun(Raised(OperationCanceled), None, None)
    case Raised(e) => ProgressRun(Ok(1), None, Some(Messages.ExecutionError(Message(e))))
  }

  /** The `ICommandHandler.ExecuteAsync` contract: the handler either returns
      0 or 1, or throws `OperationCanceledException`; it never lets another
      exception escape, and it prints a line exactly when it returns. */
  lemma ExecuteAsyncExitContract(h: ProgressHandlerState, rendering: Status)
    ensures ExecuteAsync(h, rendering).outcome in {Ok(0), Ok(1), Raised(OperationCanceled)}
    ensures ExecuteAsync(h, rendering).outcome.Ok? <==> rendering != Raised(OperationCanceled)
    ensures ExecuteAsync(h, rendering).line.Some? <==> ExecuteAsync(h, rendering).outcome.Ok?
  {
  }

  /** On a valid handler whose duration does not overflow `duration * 10`,
      a completed run bumps task 1 `duration * 10` times, and tasks 2 and 3
      fewer times, task 3 no more than task 2. */
  lemma CompletedRunBumps(h: ProgressHandlerState)
    requires Valid(h) && h.durationSeconds <= MaxValue / 10
    ensures var b := ExecuteAsync(h, Done).bumps.value;
            b.task1 == h.durationSeconds * 10 && b.task3 <= b.task2 < b.task1
  {
  }
}
