/** provideValue: the lookup that lets a test's providers stand in for the
    effects a saga yields under expectSaga. */
module ProvideValue {
  import opened Values

  /** What a provider call comes to: the NEXT sentinel (`next()`, "let the
      effect run"), a value to hand back to the saga, or a thrown error. */
  datatype Provided = NEXT | Give(value: Value) | Raise(error: Value)

  /** A provider, called as `provider(effect, next)`; it may return next(),
      which is NEXT. */
  type Provider = Value -> Provided

  /** The providers object: a provider per key it has. */
  type Providers = map<string, Provider>

  /** The TypeError a property read on null or undefined throws. */
  const TYPE_ERROR: Value := Obj(map["name" := Str("TypeError")])

  /** An entry of the handlers table: the name of a provider (and of the
      asEffect accessor), or one of the two handler functions. */
  datatype Handler = Named(key: string) | ForkHandler | ParallelHandler

  /** handlers[type]: None for the types the table has no entry for
      (PROMISE and NONE). */
  function Handlers(t: Tag): Option<Handler> {
    match t
    case ACTION_CHANNEL => Some(Named("actionChannel"))
    case CALL => Some(Named("call"))
    case CANCEL => Some(Named("cancel"))
    case CANCELLED => Some(Named("cancelled"))
    case CPS => Some(Named("cps"))
    case FLUSH => Some(Named("flush"))
    case FORK => Some(ForkHandler)
    case JOIN => Some(Named("join"))
    case PARALLEL => Some(ParallelHandler)
    case PUT => Some(Named("put"))
    case RACE => Some(Named("race"))
    case SELECT => Some(Named("select"))
    case TAKE => Some(Named("take"))
    case PROMISE => None
    case NONE => None
  }

  /** `effect.detached` of a fork payload that is not null. */
  predicate Detached(payload: Value) {
    Prop(payload, "detached").IsTruthy()
  }

  /** The FORK handler, given the fork payload `asEffect.fork(value)`. */
  function ForkProvided(providers: Providers, payload: Value): (r: Provided)
    // a non-detached fork consults providers.fork only, a detached one providers.spawn only
    ensures !payload.IsNullish() && !Detached(payload) ==> r == (if "fork" in providers then providers["fork"](payload) else NEXT)
    ensures !payload.IsNullish() && Detached(payload) ==> r == (if "spawn" in providers then providers["spawn"](payload) else NEXT)
    // reading `detached` of a missing payload throws, unless no provider is asked
    ensures payload.IsNullish() ==> r == (if "fork" in providers || "spawn" in providers then Raise(TYPE_ERROR) else NEXT)
  {
    if "fork" in providers && payload.IsNullish() then Raise(TYPE_ERROR)
    else if "fork" in providers && !Detached(payload) then providers["fork"](payload)
    else if "spawn" in providers && payload.IsNullish() then Raise(TYPE_ERROR)
    else if "spawn" in providers && Detached(payload) then providers["spawn"](payload)
    else NEXT
  }

  /** provideValue(providers, value); None stands for falsy providers. */
  function ProvideValue(providers: Option<Providers>, value: Value): (r: Provided)
    ensures providers.None? ==> r == NEXT
    // a named handler whose provider is there gets exactly the extracted effect
    ensures providers.Some? && Handlers(ParseEffect(value)).Some? && Handlers(ParseEffect(value)).value.Named?
              && Handlers(ParseEffect(value)).value.key in providers.value
            ==> r == providers.value[Handlers(ParseEffect(value)).value.key](AsEffect(ParseEffect(value), value))
    ensures providers.Some? && Handlers(ParseEffect(value)).Some? && Handlers(ParseEffect(value)).value.Named?
              && Handlers(ParseEffect(value)).value.key !in providers.value
            ==> r == NEXT
    // promises and plain values have no handler and are never provided
    ensures ParseEffect(value) == PROMISE || ParseEffect(value) == NONE ==> r == NEXT
    ensures providers.Some? && value.Eff? && value.tag == FORK ==> r == ForkProvided(providers.value, value.payload)
    // parallel effects go to providers.parallel as they are
    ensures providers.Some? && value.Arr?
            ==> r == (if "parallel" in providers.value then providers.value["parallel"](value) else NEXT)
  {
    if providers.None? then NEXT
    else
      var effectType := ParseEffect(value);
      match Handlers(effectType)
      case None => NEXT
      case Some(Named(key)) =>
        if key in providers.value then providers.value[key](AsEffect(effectType, value)) else NEXT
      case Some(ForkHandler) => ForkProvided(providers.value, AsEffect(FORK, value))
      case Some(ParallelHandler) =>
        if "parallel" in providers.value then providers.value["parallel"](value) else NEXT
  }

  /** The providers provideValue may look at for a value: the one its handler
      names, fork or spawn by `detached`, parallel for an array. */
  function Consulted(value: Value): set<string> {
    var t := ParseEffect(value);
    match Handlers(t)
    case None => {}
    case Some(Named(key)) => {key}
    case Some(ForkHandler) =>
      var payload := AsEffect(FORK, value);
      if payload.IsNullish() then {"fork", "spawn"}
      else if Detached(payload) then {"spawn"} else {"fork"}
    case Some(ParallelHandler) => {"parallel"}
  }

  /** Two providers objects that agree on the consulted keys give the same
      result: nothing else of the providers is read. */
  lemma ProvideValueReadsOnlyConsulted(p: Providers, q: Providers, value: Value)
    requires forall k :: k in Consulted(value) ==> (k in p <==> k in q)
    requires forall k :: k in Consulted(value) && k in p && k in q ==> p[k] == q[k]
    ensures ProvideValue(Some(p), value) == ProvideValue(Some(q), value)
  {
    var t := ParseEffect(value);
    if Handlers(t).Some? && Handlers(t).value.Named? {
      assert Handlers(t).value.key in Consulted(value);
    } else if t == FORK {
      var payload := AsEffect(FORK, value);
      assert "fork" in Consulted(value) || "spawn" in Consulted(value);
      if payload.IsNullish() {
        assert "fork" in Consulted(value) && "spawn" in Consulted(value);
      } else if Detached(payload) {
        assert "spawn" in Consulted(value);
      } else {
        assert "fork" in Consulted(value);
      }
    } else if t == PARALLEL {
      assert "parallel" in Consulted(value);
    }
  }
}
