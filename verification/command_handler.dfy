/**
 `CommandHandler<TOptions>`: the generic handler base class. Its state is the
 injected logger and the `Options` property, which is unset (null) until
 `SetOptions` stores options that passed their own `Validate()`.

 The functional core below is a two-state machine on `HandlerState`; the class
 `Handler` at the end wraps it as a mutable object with its invariant.
 */
module CommandHandler {
  import opened Exceptions
  import opened CommandOptions

  /** The injected `ILogger`; logging itself is not modelled. */
  datatype Logger = Logger(category: string)

  datatype HandlerState<T> = HandlerState(logger: Logger, options: Option<T>)

  /** The class invariant: options are stored only once validated. */
  predicate OptionsValidated<T>(h: HandlerState<T>, validate: Validator<T>) {
    h.options.Some? ==> validate(h.options.value).Ok?
  }

  /** The protected constructor: a null logger is refused; otherwise no
      options are stored yet. */
  function Construct<T>(logger: Option<Logger>): (r: Result<HandlerState<T>>)
    ensures r.Raised? <==> logger.None?
    ensures r.Raised? ==> r.error == ArgumentNull("logger")
    ensures r.Ok? ==> r.value.logger == logger.value && r.value.options.None?
  {
    match logger
    case None => Raised(ArgumentNull("logger"))
    case Some(l) => Ok(HandlerState(l, None))
  }

  /** A handler's state after a call, and how the call ended. */
  datatype Transition<T> = Transition(state: HandlerState<T>, status: Status)

  /** `SetOptions`: refuse null, then validate, then store. A call that
      throws leaves the handler as it was. */
  function SetOptions<T>(h: HandlerState<T>, options: Option<T>, validate: Validator<T>): (r: Transition<T>)
    ensures r.status.Ok? <==> options.Some? && validate(options.value).Ok?
    ensures r.status.Ok? ==> r.state == h.(options := options)
    ensures r.status.Raised? ==> r.state == h
    ensures options.None? ==> r.status == Raised(ArgumentNull("options"))
    ensures options.Some? && validate(options.value).Raised? ==> r.status == validate(options.value)
  {
    match options
    case None => Transition(h, Raised(ArgumentNull("options")))
    case Some(o) =>
      var v := validate(o);
      if v.Raised? then Transition(h, v) else Transition(h.(options := options), Done)
  }

  /** `SetOptions` preserves the invariant: from a state that satisfies it,
      every call, accepted or refused, leaves a state that satisfies it. */
  lemma SetOptionsPreservesInvariant<T>(h: HandlerState<T>, options: Option<T>, validate: Validator<T>)
    requires OptionsValidated(h, validate)
    ensures OptionsValidated(SetOptions(h, options, validate).state, validate)
  {
  }

  /** An options type that keeps the inherited `Validate()` is always stored. */
  lemma BaseOptionsAlwaysStored<T>(h: HandlerState<T>, o: T)
    ensures SetOptions(h, Some(o), BaseValidate).status == Done
    ensures SetOptions(h, Some(o), BaseValidate).state.options == Some(o)
  {
  }

  /** If the validator keeps its documented promise, `SetOptions` throws only
      argument errors. */
  lemma SetOptionsThrowsOnlyArgumentErrors<T(!new)>(h: HandlerState<T>, options: Option<T>, validate: Validator<T>)
    requires SignalsOnlyArgumentErrors(validate)
    ensures SetOptions(h, options, validate).status.Raised? ==>
              IsArgumentException(SetOptions(h, options, validate).status.error)
  {
  }

  /** The state after a sequence of `SetOptions` calls whose exceptions the
      caller catches and ignores. */
  function Replay<T>(h: HandlerState<T>, calls: seq<Option<T>>, validate: Validator<T>): HandlerState<T>
    decreases |calls|
  {
    if |calls| == 0 then h
    else SetOptions(Replay(h, calls[..|calls| - 1], validate), calls[|calls| - 1], validate).state
  }

  /** The options of the last call in `calls` that `SetOptions` accepted. */
  function LastAccepted<T>(calls: seq<Option<T>>, validate: Validator<T>): Option<T>
    decreases |calls|
  {
    if |calls| == 0 then None
    else
      var c := calls[|calls| - 1];
      if c.Some? && validate(c.value).Ok? then c else LastAccepted(calls[..|calls| - 1], validate)
  }

  /** After any sequence of calls, the handler holds the last accepted options,
      or what it held before if none was accepted; the logger never changes. */
  lemma {:induction false} ReplayStoresLastAccepted<T>(h: HandlerState<T>, calls: seq<Option<T>>, validate: Validator<T>)
    ensures Replay(h, calls, validate).options ==
              (if LastAccepted(calls, validate).Some? then LastAccepted(calls, validate) else h.options)
    ensures Replay(h, calls, validate).logger == h.logger
    decreases |calls|
  {
    if |calls| > 0 {
      ReplayStoresLastAccepted(h, calls[..|calls| - 1], validate);
    }
  }

  /** The invariant survives any sequence of calls. */
  lemma {:induction false} ReplayKeepsInvariant<T>(h: HandlerState<T>, calls: seq<Option<T>>, validate: Validator<T>)
    requires OptionsValidated(h, validate)
    ensures OptionsValidated(Replay(h, calls, validate), validate)
    decreases |calls|
  {
    if |calls| > 0 {
      ReplayKeepsInvariant(h, calls[..|calls| - 1], validate);
    }
  }

  /** Two accepted calls in a row: the second one wins. */
  lemma SecondValidCallWins<T>(h: HandlerState<T>, a: T, b: T, validate: Validator<T>)
    requires validate(a).Ok? && validate(b).Ok?
    ensures SetOptions(SetOptions(h, Some(a), validate).state, Some(b), validate).state.options == Some(b)
  {
  }

  /** The handler as a mutable object: `Valid()` is the class invariant. */
  class Handler<T> {
    const logger: Logger
    const validate: Validator<T>
    var options: Option<T>

    ghost predicate Valid()
      reads this
    {
      OptionsValidated(HandlerState(logger, options), validate)
    }

    constructor (logger: Logger, validate: Validator<T>)
      ensures Valid()
      ensures this.logger == logger && this.validate == validate && options.None?
    {
      this.logger := logger;
      this.validate := validate;
      options := None;
    }

    method Store(o: Option<T>) returns (status: Status)
      requires Valid()
      modifies this
      ensures Valid()
      ensures status.Ok? <==> o.Some? && validate(o.value).Ok?
      ensures status.Ok? ==> options == o
      ensures status.Raised? ==> options == old(options)
    {
      var t := SetOptions(HandlerState(logger, options), o, validate);
      options := t.state.options;
      status := t.status;
    }
  }
}
