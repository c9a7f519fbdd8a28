/**
 `ProgressCommandOptions`: the options of the `progress` command, a single
 init-only `DurationSeconds`, and its `Validate` override.
 */
module ProgressCommandOptions {
  import opened Exceptions
  import opened Int32
  import CommandOptions

  datatype ProgressOptions = ProgressOptions(durationSeconds: Int32)

  /** `nameof(DurationSeconds)`, the parameter name the failure carries. */
  const DurationParamName: string := "DurationSeconds"

  /** `Messages.Error.ProgressCommand_InvalidDuration`. */
  const InvalidDurationMessage: string := "Duration must be greater than 0."

  /** A duration the override accepts. */
  predicate IsValid(o: ProgressOptions) {
    o.durationSeconds > 0
  }

  /** The `Validate` override: an out-of-range error naming the duration
      parameter and carrying the rejected value, exactly when the duration is
      not positive. */
  function Validate(o: ProgressOptions): (r: Status)
    ensures r.Ok? <==> o.durationSeconds > 0
    ensures r.Raised? ==> r.error.ArgumentOutOfRange?
    ensures r.Raised? ==> r.error.paramName == DurationParamName
    ensures r.Raised? ==> r.error.actualValue == Some(o.durationSeconds as int)
    ensures r.Raised? ==> r.error.message == InvalidDurationMessage
    ensures r.Raised? ==>
              Message(r.error) == InvalidDurationMessage + " (Parameter 'DurationSeconds')" + NewLine
                                  + "Actual value was " + IntToString(o.durationSeconds) + "."
  {
    if o.durationSeconds <= 0 then
      Raised(ArgumentOutOfRange(DurationParamName, Some(o.durationSeconds as int), InvalidDurationMessage))
    else
      Done
  }

  /** The override keeps the base class's promise about what it throws. */
  lemma ValidateSignalsOnlyArgumentErrors()
    ensures CommandOptions.SignalsOnlyArgumentErrors(Validate)
  {
    forall o: ProgressOptions | Validate(o).Raised?
      ensures IsArgumentException(Validate(o).error)
    {
    }
  }

  /** The unit-test cases: 0 is rejected naming `DurationSeconds`, 5 passes. */
  lemma ValidateTestCases()
    ensures Validate(ProgressOptions(0)).Raised?
    ensures Validate(ProgressOptions(0)).error.paramName == "DurationSeconds"
    ensures Validate(ProgressOptions(5)) == Done
  {
  }
}
