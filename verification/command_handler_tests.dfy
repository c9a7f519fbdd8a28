/**
 The unit tests of `CommandHandler<TOptions>`, restated on the model: a
 `DummyOptions` record whose `Validate` rejects a negative `Value`, stored
 through a handler that inherits `SetOptions` unchanged.
 */
module CommandHandlerTests {
  import opened Exceptions
  import opened CommandHandler

  datatype DummyOptions = DummyOptions(value: int)

  /** `new ArgumentOutOfRangeException(nameof(Value))`, with the library's
      default message. */
  function DummyValidate(o: DummyOptions): (r: Status)
    ensures r.Raised? <==> o.value < 0
  {
    if o.value < 0 then
      Raised(ArgumentOutOfRange("Value", None, "Specified argument was out of the range of valid values."))
    else
      Done
  }

  /** Value 1 is stored as given; value -1 throws an out-of-range error and
      nothing is stored. */
  lemma SetOptionsTestCases(logger: Logger)
    ensures var h: HandlerState<DummyOptions> := HandlerState(logger, None);
            SetOptions(h, Some(DummyOptions(1)), DummyValidate).state.options == Some(DummyOptions(1))
    ensures var h: HandlerState<DummyOptions> := HandlerState(logger, None);
            && SetOptions(h, Some(DummyOptions(-1)), DummyValidate).status.Raised?
            && SetOptions(h, Some(DummyOptions(-1)), DummyValidate).status.error.ArgumentOutOfRange?
            && SetOptions(h, Some(DummyOptions(-1)), DummyValidate).state.options.None?
  {
  }
}
