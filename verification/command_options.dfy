/**
 The base class of every options record: `CommandOptions.Validate`.

 A validator is modelled as a total function from an options value to the
 `Status` of calling its `Validate()` on it. Options records are immutable
 values, so `Validate` cannot change them.
 */
module CommandOptions {
  import opened Exceptions

  /** The shape of `Validate()` for an options type `T`. */
  type Validator<!T> = T -> Status

  /** The documented promise of `Validate()`: it fails, if at all, only with
      an `ArgumentException` (an out-of-range error included). */
  ghost predicate SignalsOnlyArgumentErrors<T(!new)>(validate: Validator<T>) {
    forall o :: validate(o).Raised? ==> IsArgumentException(validate(o).error)
  }

  /** The inherited `Validate()`: an empty body, so it never throws. */
  function BaseValidate<T>(options: T): (r: Status)
    ensures r.Ok?
  {
    Done
  }

  /** The base validator trivially keeps the documented promise. */
  lemma BaseValidateSignalsOnlyArgumentErrors<T(!new)>()
    ensures SignalsOnlyArgumentErrors<T>(BaseValidate)
  {
  }
}
