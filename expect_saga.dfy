/** expectSaga's harness: the state one expectSaga(...) call closes over —
    effect stores, expectations, queued and scheduled actions, listeners,
    outstanding forks and action channels, the store state — and the inner
    functions and api methods that update it. */
module ExpectSaga {
  import opened Values
  import opened ArraySet
  import opened ProvideValue
  import opened ExpectSagaModel

  /** What a call that may throw comes to. */
  datatype Result = Returned(value: Value) | Threw(error: Value)

  /** What refineYieldedValue hands to the saga runner for a yielded value. */
  datatype Refined =
    | Settled(result: Result)   // the value itself, a provided value, or a thrown error
    | Rebuilt(branch: Branch)   // a race, parallel, fork or spawn rebuilt around refined parts
    | RunCall                   // the harness runs the call itself: fn.apply(context, args)

  /** Items of a store that only lost items keep the store's tag. */
  lemma TaggedSubset(s: seq<Value>, r: seq<Value>, t: Tag)
    requires forall i :: 0 <= i < |s| ==> ParseEffect(s[i]) == t
    requires multiset(r) <= multiset(s)
    ensures forall i :: 0 <= i < |r| ==> ParseEffect(r[i]) == t
  {
    forall i | 0 <= i < |r|
      ensures ParseEffect(r[i]) == t
    {
      assert r[i] in multiset(r);
      assert r[i] in multiset(s);
      var k :| 0 <= k < |s| && s[k] == r[i];
    }
  }

  /** Every store holds only effects of its own tag. */
  predicate Tagged(stores: map<Tag, seq<Value>>) {
    forall t, i :: t in stores && 0 <= i < |stores[t]| ==> ParseEffect(stores[t][i]) == t
  }

  /** The loop of checkExpectations over the stores: each expectation in
      turn deletes a match from its store, until one disagrees with its
      polarity (its index is the failure). */
  method ReconcileStores(initial: map<Tag, seq<Value>>, exps: seq<Expectation>, isMatch: (Value, Value) -> bool)
    returns (failure: Option<nat>, stores: map<Tag, seq<Value>>)
    requires initial.Keys == STORE_TAGS && Tagged(initial)
    requires forall j :: 0 <= j < |exps| ==> exps[j].storeKey in STORE_TAGS
    ensures StoresCover(initial, exps)
    ensures (failure, stores) == Reconcile(initial, exps, isMatch)
    ensures stores.Keys == STORE_TAGS && Tagged(stores)
  {
    assert StoresCover(initial, exps);
    stores := initial;
    var i := 0;
    while i < |exps|
      invariant 0 <= i <= |exps|
      invariant StoresCover(initial, exps[..i])
      invariant Reconcile(initial, exps[..i], isMatch) == (None, stores)
      invariant stores.Keys == STORE_TAGS && Tagged(stores)
    {
      var e := exps[i];
      var settled := Settle(stores[e.storeKey], e, isMatch);
      TaggedSubset(stores[e.storeKey], settled.1, e.storeKey);
      assert StoresCover(initial, exps[..i + 1]);
      ReconcileExtend(initial, exps, isMatch, i);
      stores := stores[e.storeKey := settled.1];
      if settled.0 != e.expectToHave {
        ReconcileStopsAtFailure(initial, exps, isMatch, exps[..i + 1]);
        return Some(i), stores;
      }
      i := i + 1;
    }
    TakeAll(exps);
    failure := None;
  }

  /** The effect stores a new harness starts with: an empty one per stored type. */
  function EmptyStores(): (r: map<Tag, seq<Value>>)
    ensures r.Keys == STORE_TAGS && Tagged(r)
    ensures forall t :: t in STORE_TAGS ==> r[t] == []
  {
    map t | t in STORE_TAGS :: []
  }

  lemma AddKeepsTagged(stores: map<Tag, seq<Value>>, effect: Value)
    requires Tagged(stores) && ParseEffect(effect) in stores
    ensures Tagged(stores[ParseEffect(effect) := stores[ParseEffect(effect)] + [effect]])
  {
  }

  /** Every tester records its expectation against one of the effect stores. */
  lemma TestersUseStores()
    ensures forall p :: p in API_TESTERS ==> API_TESTERS[p].storeKey in STORE_TAGS
  {
  }

  /** Every shorthand tester hands its partial object to a "like" tester. */
  lemma ShorthandsUseLikeTesters()
    ensures forall p :: p in SHORTHANDS ==> SHORTHANDS[p].0 in API_TESTERS && API_TESTERS[SHORTHANDS[p].0].like
  {
  }

  class Harness {
    /** redux-saga's matcher: whether a take pattern matches an action. */
    const matches: (Value, Value) -> bool
    /** lodash's isMatch: whether an object has the properties of a partial one. */
    const isMatch: (Value, Value) -> bool

    var effectStores: map<Tag, seq<Value>>
    var expectations: seq<Expectation>
    /** Actions dispatched before the saga started, waiting for a take. */
    var queuedActions: seq<Value>
    var listeners: seq<Value>
    var forkedTasks: seq<Value>
    var outstandingForkEffects: map<int, Value>
    var outstandingActionChannelEffects: map<int, Value>
    var channelsToPatterns: map<Value, Value>
    /** Dispatch handlers chained on the resolved dispatch promise, in order. */
    var scheduled: seq<Value>
    /** Dispatch handlers waiting for their action's `_delayTime` first. */
    var delayed: seq<Value>
    var stopDirty: bool
    var negateNextAssertion: bool
    var isRunning: bool
    var delayTime: Value
    var storeState: Value
    var reducer: Reducer
    /** The reducer runs and listener calls so far, in order. */
    var trace: seq<StoreEvent>
    var providers: Option<Providers>
    /** The id sagaIdFactory hands out next. */
    var nextSagaId: int
    var expectReturnValue: bool
    var expectedReturnValue: Value
    var actualReturnValue: Value

    /** One store per tag of STORE_TAGS, each holding only effects of its
        own tag, and every expectation pointing at one of them. */
    ghost predicate Valid()
      reads this
    {
      && effectStores.Keys == STORE_TAGS
      && Tagged(effectStores)
      && (forall i :: 0 <= i < |expectations| ==> expectations[i].storeKey in STORE_TAGS)
    }

    constructor (matches: (Value, Value) -> bool, isMatch: (Value, Value) -> bool)
      ensures Valid()
      ensures this.matches == matches && this.isMatch == isMatch
      ensures forall t :: t in STORE_TAGS ==> effectStores[t] == []
      ensures expectations == [] && queuedActions == [] && listeners == [] && forkedTasks == []
      ensures outstandingForkEffects == map[] && outstandingActionChannelEffects == map[] && channelsToPatterns == map[]
      ensures scheduled == [] && delayed == [] && trace == []
      ensures !stopDirty && !negateNextAssertion && !isRunning && delayTime == Null
      ensures storeState == Undefined && reducer == DefaultReducer && providers == None
      ensures nextSagaId == 0 && !expectReturnValue
      ensures expectedReturnValue == Undefined && actualReturnValue == Undefined
    {
      this.matches := matches;
      this.isMatch := isMatch;
      effectStores := EmptyStores();
      expectations := [];
      queuedActions := [];
      listeners := [];
      forkedTasks := [];
      outstandingForkEffects := map[];
      outstandingActionChannelEffects := map[];
      channelsToPatterns := map[];
      scheduled := [];
      delayed := [];
      stopDirty := false;
      negateNextAssertion := false;
      isRunning := false;
      delayTime := Null;
      storeState := Undefined;
      reducer := DefaultReducer;
      trace := [];
      providers := None;
      nextSagaId := 0;
      expectReturnValue := false;
      expectedReturnValue := Undefined;
      actualReturnValue := Undefined;
    }

    // ------------------------------------------------------------ the store

    /** The dispatch handler: run the reducer, then notifyListeners. */
    method Handle(action: Value)
      modifies this`storeState, this`trace
      ensures storeState == Reduce(reducer, old(storeState), action)
      ensures trace == old(trace) + DispatchEvents(listeners, action)
    {
      storeState := Reduce(reducer, storeState, action);
      trace := trace + [Reduced(action)];
      var i := 0;
      while i < |listeners|
        invariant 0 <= i <= |listeners|
        invariant storeState == Reduce(reducer, old(storeState), action)
        invariant trace == old(trace) + [Reduced(action)] + Notifications(listeners[..i], action)
      {
        trace := trace + [Notified(listeners[i], action)];
        TakeOfTake(listeners, i + 1, i);
        i := i + 1;
      }
      TakeAll(listeners);
    }

    /** dispatch(action): the handler is chained on the dispatch promise,
        behind a delay when the action carries a numeric `_delayTime`. */
    method Dispatch(action: Value)
      modifies this`scheduled, this`delayed
      ensures IsDelayed(action) ==> delayed == old(delayed) + [action] && scheduled == old(scheduled)
      ensures !IsDelayed(action) ==> scheduled == old(scheduled) + [action] && delayed == old(delayed)
    {
      if IsDelayed(action) {
        delayed := delayed + [action];
      } else {
        scheduled := scheduled + [action];
      }
    }

    /** The chained handlers run, in the order they were chained. */
    method RunScheduled()
      modifies this`storeState, this`trace, this`scheduled
      ensures scheduled == []
      ensures storeState == Replay(reducer, old(storeState), old(scheduled))
      ensures trace == old(trace) + Trace(listeners, old(scheduled))
    {
      var pending := scheduled;
      scheduled := [];
      var i := 0;
      while i < |pending|
        invariant 0 <= i <= |pending|
        invariant scheduled == []
        invariant storeState == Replay(reducer, old(storeState), pending[..i])
        invariant trace == old(trace) + Trace(listeners, pending[..i])
        modifies this`storeState, this`trace
      {
        TakeOfTake(pending, i + 1, i);
        TraceExtend(listeners, pending, i);
        AppendAssociates(old(trace), Trace(listeners, pending[..i]), DispatchEvents(listeners, pending[i]));
        Handle(pending[i]);
        i := i + 1;
      }
      TakeAll(pending);
    }

    /** The delay of the i-th waiting handler ends, and it runs. */
    method RunDelayed(i: nat)
      requires i < |delayed|
      modifies this`storeState, this`trace, this`delayed
      ensures delayed == RemoveAt(old(delayed), i)
      ensures storeState == Reduce(reducer, old(storeState), old(delayed)[i])
      ensures trace == old(trace) + DispatchEvents(listeners, old(delayed)[i])
    {
      var action := delayed[i];
      delayed := RemoveAt(delayed, i);
      Handle(action);
    }

    /** subscribe(listener). */
    method Subscribe(listener: Value)
      modifies this`listeners
      ensures listeners == old(listeners) + [listener]
    {
      listeners := listeners + [listener];
    }

    /** The function subscribe returns, as written: the splice is not
        guarded, so a listener no longer subscribed removes the last one. */
    method Unsubscribe(listener: Value)
      modifies this`listeners
      ensures listeners == UnsubscribedAsWritten(old(listeners), listener)
      ensures listener in old(listeners) ==> listeners == Unsubscribed(old(listeners), listener)
      ensures listener !in old(listeners) && old(listeners) != [] ==> listeners == old(listeners)[..|old(listeners)| - 1]
    {
      var index := IndexOf(listeners, listener);
      listeners := SpliceOne(listeners, index);
      if listener !in old(listeners) && old(listeners) != [] {
        UnsubscribeAbsentDropsLast(old(listeners), listener);
      }
    }

    // -------------------------------------------------------------- effects

    /** getDispatchableActions(effect). */
    method GetDispatchableActions(take: Value) returns (actions: seq<Value>)
      modifies this`queuedActions
      ensures (actions, queuedActions) == TakeSplit(old(queuedActions), TakePattern(take, channelsToPatterns), matches)
    {
      var pattern := TakePattern(take, channelsToPatterns);
      var index := FindDispatchableActionIndex(queuedActions, pattern, matches);
      if index > -1 {
        actions := queuedActions[..index + 1];
        queuedActions := queuedActions[index + 1..];
      } else {
        actions := [];
      }
    }

    /** `actions.forEach(dispatch)`. */
    method DispatchEach(actions: seq<Value>)
      modifies this`scheduled, this`delayed
      ensures scheduled == old(scheduled) + Prompt(actions)
      ensures delayed == old(delayed) + Delayed(actions)
    {
      var i := 0;
      while i < |actions|
        invariant 0 <= i <= |actions|
        invariant scheduled == old(scheduled) + Prompt(actions[..i])
        invariant delayed == old(delayed) + Delayed(actions[..i])
      {
        PartitionExtend(actions, i);
        if IsDelayed(actions[i]) {
          AppendAssociates(old(delayed), Delayed(actions[..i]), [actions[i]]);
        } else {
          AppendAssociates(old(scheduled), Prompt(actions[..i]), [actions[i]]);
        }
        Dispatch(actions[i]);
        i := i + 1;
      }
      TakeAll(actions);
    }

    /** The TAKE case of processEffect: dispatch all but the last released
        action, then the last one if it is truthy. */
    method DispatchTaken(actions: seq<Value>)
      modifies this`scheduled, this`delayed
      ensures scheduled == old(scheduled) + Prompt(TakeDispatches(actions))
      ensures delayed == old(delayed) + Delayed(TakeDispatches(actions))
    {
      if actions == [] {
        return;
      }
      var n := |actions| - 1;
      DispatchEach(actions[..n]);
      if actions[n].IsTruthy() {
        Dispatch(actions[n]);
        PartitionStep(actions[..n], actions[n]);
        assert TakeDispatches(actions) == actions[..n] + [actions[n]];
      } else {
        assert TakeDispatches(actions) == actions[..n];
      }
    }

    /** The TAKE case of processEffect: the queued actions the take
        releases are dispatched. */
    method ProcessTake(take: Value)
      modifies this`queuedActions, this`scheduled, this`delayed
      ensures TakeReleased(take)
    {
      var actions := GetDispatchableActions(take);
      DispatchTaken(actions);
    }

    /** What processEffect does to the effect stores: the effect is added to
        the store of its tag, if there is one. */
    twostate predicate Stored(effect: Value)
      reads this
    {
      var t := ParseEffect(effect);
      effectStores == (if t in old(effectStores) then old(effectStores)[t := old(effectStores)[t] + [effect]] else old(effectStores))
    }

    /** What processEffect does to the outstanding forks and action channels
        (forks and action channels always have a store). */
    twostate predicate Outstanding(effectId: int, effect: Value)
      reads this
    {
      var t := ParseEffect(effect);
      && outstandingForkEffects
         == (if t == FORK then old(outstandingForkEffects)[effectId := AsEffect(FORK, effect)]
             else old(outstandingForkEffects))
      && outstandingActionChannelEffects
         == (if t == ACTION_CHANNEL
             then old(outstandingActionChannelEffects)[effectId := AsEffect(ACTION_CHANNEL, effect)]
             else old(outstandingActionChannelEffects))
    }

    /** What processEffect does to the queued and dispatched actions: only a
        take releases any (takes always have a store). */
    twostate predicate Released(effect: Value)
      reads this
    {
      if ParseEffect(effect) == TAKE then TakeReleased(AsEffect(TAKE, effect))
      else queuedActions == old(queuedActions) && scheduled == old(scheduled) && delayed == old(delayed)
    }

    /** A take releases the queued actions up to the first it matches and
        dispatches them. */
    twostate predicate TakeReleased(take: Value)
      reads this
    {
      var split := TakeSplit(old(queuedActions), TakePattern(take, old(channelsToPatterns)), matches);
      && queuedActions == split.1
      && scheduled == old(scheduled) + Prompt(TakeDispatches(split.0))
      && delayed == old(delayed) + Delayed(TakeDispatches(split.0))
    }

    /** What processEffect does to the harness for one event. */
    twostate predicate Processed(effectId: int, effect: Value)
      reads this
    {
      Stored(effect) && Outstanding(effectId, effect) && Released(effect)
    }

    /** processEffect(event), also the monitor's effectTriggered. */
    method ProcessEffect(effectId: int, effect: Value)
      requires Valid()
      modifies this`effectStores, this`outstandingForkEffects, this`outstandingActionChannelEffects,
               this`queuedActions, this`scheduled, this`delayed
      ensures Valid()
      ensures Stored(effect)
      ensures Outstanding(effectId, effect)
      ensures Released(effect)
    {
      var t := ParseEffect(effect);
      if t == NONE {
        return;
      }
      if t !in effectStores {
        return;
      }
      AddKeepsTagged(effectStores, effect);
      effectStores := effectStores[t := effectStores[t] + [effect]];
      if t == FORK {
        outstandingForkEffects := outstandingForkEffects[effectId := AsEffect(FORK, effect)];
      } else if t == TAKE {
        ProcessTake(AsEffect(TAKE, effect));
      } else if t == ACTION_CHANNEL {
        outstandingActionChannelEffects := outstandingActionChannelEffects[effectId := AsEffect(ACTION_CHANNEL, effect)];
      }
    }

    /** addForkedTask(task). */
    method AddForkedTask(task: Value)
      modifies this`stopDirty, this`forkedTasks
      ensures stopDirty && forkedTasks == old(forkedTasks) + [task]
    {
      stopDirty := true;
      forkedTasks := forkedTasks + [task];
    }

    /** The monitor's effectResolved: a resolved fork is a task to wait for,
        a resolved action channel is associated with its pattern. */
    method EffectResolved(effectId: int, value: Value)
      modifies this`stopDirty, this`forkedTasks, this`channelsToPatterns
      ensures Lookup(outstandingForkEffects, effectId).IsTruthy()
              ==> stopDirty && forkedTasks == old(forkedTasks) + [value] && channelsToPatterns == old(channelsToPatterns)
      ensures !Lookup(outstandingForkEffects, effectId).IsTruthy() && Lookup(outstandingActionChannelEffects, effectId).IsTruthy()
              ==> && channelsToPatterns
                     == old(channelsToPatterns)[value := Prop(Lookup(outstandingActionChannelEffects, effectId), "pattern")]
                  && stopDirty == old(stopDirty) && forkedTasks == old(forkedTasks)
      ensures !Lookup(outstandingForkEffects, effectId).IsTruthy() && !Lookup(outstandingActionChannelEffects, effectId).IsTruthy()
              ==> stopDirty == old(stopDirty) && forkedTasks == old(forkedTasks) && channelsToPatterns == old(channelsToPatterns)
    {
      var forkEffect := Lookup(outstandingForkEffects, effectId);
      if forkEffect.IsTruthy() {
        AddForkedTask(value);
        return;
      }
      var actionChannelEffect := Lookup(outstandingActionChannelEffects, effectId);
      if actionChannelEffect.IsTruthy() {
        channelsToPatterns := channelsToPatterns[value := Prop(actionChannelEffect, "pattern")];
      }
    }

    // ------------------------------------------------------------ providers

    /** Nothing processEffect or the id counter touch has changed. */
    twostate predicate NothingRecorded()
      reads this
    {
      && nextSagaId == old(nextSagaId)
      && effectStores == old(effectStores)
      && outstandingForkEffects == old(outstandingForkEffects)
      && outstandingActionChannelEffects == old(outstandingActionChannelEffects)
      && queuedActions == old(queuedActions) && scheduled == old(scheduled) && delayed == old(delayed)
    }

    /** The value was processed once, under the next saga id. */
    twostate predicate RecordedOnce(value: Value)
      reads this
    {
      nextSagaId == old(nextSagaId) + 1 && Processed(old(nextSagaId), value)
    }

    /** A call effect processed twice, under the next two ids. */
    twostate predicate CallRecordedTwice(value: Value)
      reads this
    {
      && nextSagaId == old(nextSagaId) + 2
      && CALL in old(effectStores)
      && effectStores == old(effectStores)[CALL := old(effectStores)[CALL] + [value, value]]
      && outstandingForkEffects == old(outstandingForkEffects)
      && outstandingActionChannelEffects == old(outstandingActionChannelEffects)
      && queuedActions == old(queuedActions) && scheduled == old(scheduled) && delayed == old(delayed)
    }

    /** addEffect: processEffect under a fresh saga id. */
    method AddEffect(value: Value)
      requires Valid()
      modifies this`nextSagaId, this`effectStores, this`outstandingForkEffects, this`outstandingActionChannelEffects,
               this`queuedActions, this`scheduled, this`delayed
      ensures Valid()
      ensures RecordedOnce(value)
    {
      var effectId := nextSagaId;
      nextSagaId := nextSagaId + 1;
      ProcessEffect(effectId, value);
    }

    /** useProvidedValue's promise: the value itself when no provider
        answers, otherwise the provider's answer (a value or a thrown error),
        with the effect recorded once. */
    twostate predicate ProvidedAs(value: Value, new r: Result)
      reads this
    {
      var provided := ProvideValue.ProvideValue(providers, value);
      && (provided == NEXT ==> r == Returned(value) && NothingRecorded())
      && (provided.Give? ==> r == Returned(provided.value) && RecordedOnce(value))
      && (provided.Raise? ==> r == Threw(provided.error) && RecordedOnce(value))
    }

    /** useProvidedValue(value). */
    method UseProvidedValue(value: Value) returns (r: Result)
      requires Valid()
      modifies this`nextSagaId, this`effectStores, this`outstandingForkEffects, this`outstandingActionChannelEffects,
               this`queuedActions, this`scheduled, this`delayed
      ensures Valid()
      ensures ProvidedAs(value, r)
    {
      var provided := ProvideValue.ProvideValue(providers, value);
      if provided == NEXT {
        return Returned(value);
      }
      AddEffect(value);
      if provided.Give? {
        r := Returned(provided.value);
      } else {
        r := Threw(provided.error);
      }
    }

    /** The CALL case of refineYieldedValue: a call nobody provides is
        recorded and run by the harness; a provider that hands back the
        effect itself gets it recorded twice and run. */
    twostate predicate CallRefined(value: Value, new r: Refined)
      reads this
    {
      var provided := ProvideValue.ProvideValue(providers, value);
      && (provided == NEXT ==> r == RunCall && RecordedOnce(value))
      && (provided == Give(value) ==> r == RunCall && CallRecordedTwice(value))
      && (provided.Give? && provided.value != value ==> r == Settled(Returned(provided.value)) && RecordedOnce(value))
      && (provided.Raise? ==> r == Settled(Threw(provided.error)) && RecordedOnce(value))
    }

    method RefineCall(value: Value) returns (r: Refined)
      requires Valid() && ParseEffect(value) == CALL
      modifies this`nextSagaId, this`effectStores, this`outstandingForkEffects, this`outstandingActionChannelEffects,
               this`queuedActions, this`scheduled, this`delayed
      ensures Valid()
      ensures CallRefined(value, r)
    {
      ghost var before := effectStores;
      var result := UseProvidedValue(value);
      if result != Returned(value) {
        return Settled(result);
      }
      ghost var middle := effectStores;
      AddEffect(value);
      r := RunCall;
      if ProvideValue.ProvideValue(providers, value) == Give(value) {
        assert middle == before[CALL := before[CALL] + [value]];
        PushTwice(before[CALL], value);
      }
    }

    /** refineYieldedValue(value) for the yielded value itself; the
        refinement of the parts of a race or parallel is not followed. */
    method RefineYieldedValue(value: Value) returns (r: Refined)
      requires Valid()
      modifies this`nextSagaId, this`effectStores, this`outstandingForkEffects, this`outstandingActionChannelEffects,
               this`queuedActions, this`scheduled, this`delayed
      ensures Valid()
      ensures var branch := RefineBranch(value, providers);
              branch in {RaceEach, WrapFork, WrapSpawn} ==> r == Rebuilt(branch) && RecordedOnce(value)
      ensures RefineBranch(value, providers) == ParallelEach ==> r == Rebuilt(ParallelEach) && NothingRecorded()
      ensures RefineBranch(value, providers) == ForkTypeError ==> r == Settled(Threw(TYPE_ERROR)) && NothingRecorded()
      // everything else but a call is left to the providers
      ensures RefineBranch(value, providers) == UseProvided ==> r.Settled? && ProvidedAs(value, r.result)
      ensures RefineBranch(value, providers) == CallThenRun ==> CallRefined(value, r)
    {
      var branch := RefineBranch(value, providers);
      match branch
      case RaceEach =>
        AddEffect(value);
        r := Rebuilt(RaceEach);
      case ParallelEach =>
        r := Rebuilt(ParallelEach);
      case WrapFork =>
        AddEffect(value);
        r := Rebuilt(WrapFork);
      case WrapSpawn =>
        AddEffect(value);
        r := Rebuilt(WrapSpawn);
      case ForkTypeError =>
        r := Settled(Threw(TYPE_ERROR));
      case UseProvided =>
        var result := UseProvidedValue(value);
        r := Settled(result);
      case CallThenRun =>
        r := RefineCall(value);
    }

    // ----------------------------------------------------------- assertions

    /** The `not` getter. */
    method Not()
      modifies this`negateNextAssertion
      ensures negateNextAssertion
    {
      negateNextAssertion := true;
    }

    /** The tester createEffectTester builds, called under `path` with the
        expected effect (for a "like" tester, the partial object). */
    method Expect(path: string, expectedEffect: Value)
      requires Valid() && path in API_TESTERS
      modifies this`expectations, this`negateNextAssertion
      ensures Valid()
      // a `not` applies to this assertion and is then used up
      ensures var tester := API_TESTERS[path];
              expectations == old(expectations)
                              + [Expectation(tester.effectName, expectedEffect, tester.storeKey, tester.like, !old(negateNextAssertion))]
      ensures !negateNextAssertion
    {
      TestersUseStores();
      var tester := API_TESTERS[path];
      expectations := expectations + [Expectation(tester.effectName, expectedEffect, tester.storeKey, tester.like, !negateNextAssertion)];
      negateNextAssertion := false;
    }

    /** A shorthand tester: its "like" tester on the object built around arg. */
    method ExpectShorthand(path: string, arg: Value)
      requires Valid() && path in SHORTHANDS
      modifies this`expectations, this`negateNextAssertion
      ensures Valid()
      ensures var (likePath, shape) := SHORTHANDS[path];
              && likePath in API_TESTERS
              && expectations == old(expectations)
                                 + [Expectation(API_TESTERS[likePath].effectName, LikeArgument(shape, arg),
                                                API_TESTERS[likePath].storeKey, true, !old(negateNextAssertion))]
      ensures !negateNextAssertion
    {
      ShorthandsUseLikeTesters();
      var (likePath, shape) := SHORTHANDS[path];
      Expect(likePath, LikeArgument(shape, arg));
    }

    /** returns(value). */
    method Returns(value: Value)
      modifies this`expectReturnValue, this`expectedReturnValue
      ensures expectReturnValue && expectedReturnValue == value
    {
      expectReturnValue := true;
      expectedReturnValue := value;
    }

    /** setReturnValue(value): what the saga returned. */
    method SetReturnValue(value: Value)
      modifies this`actualReturnValue
      ensures actualReturnValue == value
    {
      actualReturnValue := value;
    }

    /** checkExpectations(): each expectation deletes its match from its
        store, in registration order, until one disagrees with its polarity;
        then the return value is checked. */
    method CheckExpectations() returns (outcome: Outcome)
      requires Valid()
      modifies this`effectStores
      ensures Valid()
      ensures StoresCover(old(effectStores), expectations)
      ensures var reconciled := Reconcile(old(effectStores), expectations, isMatch);
              && effectStores == reconciled.1
              && outcome == (if reconciled.0.Some? then Unmet(expectations[reconciled.0.value])
                             else ReturnOutcome(expectReturnValue, negateNextAssertion, expectedReturnValue, actualReturnValue))
    {
      var failure, stores := ReconcileStores(effectStores, expectations, isMatch);
      effectStores := stores;
      if failure.Some? {
        return Unmet(expectations[failure.value]);
      }
      outcome := ReturnOutcome(expectReturnValue, negateNextAssertion, expectedReturnValue, actualReturnValue);
    }

    // ------------------------------------------------------------------ api

    /** The api's dispatch: with a numeric delay pending, a copy of the action
        carrying it (the delay is then used up); dispatched when running,
        queued for a take otherwise. */
    method ApiDispatch(action: Value)
      modifies this`delayTime, this`queuedActions, this`scheduled, this`delayed
      ensures delayTime == (if old(delayTime).Num? then Null else old(delayTime))
      ensures var dispatchable := Dispatchable(action, old(delayTime));
              && (isRunning && IsDelayed(dispatchable)
                  ==> delayed == old(delayed) + [dispatchable] && scheduled == old(scheduled))
              && (isRunning && !IsDelayed(dispatchable)
                  ==> scheduled == old(scheduled) + [dispatchable] && delayed == old(delayed))
              && (isRunning ==> queuedActions == old(queuedActions))
              && (!isRunning ==> && queuedActions == old(queuedActions) + [dispatchable]
                                 && scheduled == old(scheduled) && delayed == old(delayed))
    {
      var dispatchable := Dispatchable(action, delayTime);
      if delayTime.Num? {
        delayTime := Null;
      }
      if isRunning {
        Dispatch(dispatchable);
      } else {
        queuedActions := queuedActions + [dispatchable];
      }
    }

    /** delay(time). */
    method ApiDelay(time: Value)
      modifies this`delayTime
      ensures delayTime == time
    {
      delayTime := time;
    }

    /** withState(state). */
    method WithState(state: Value)
      modifies this`storeState
      ensures storeState == state
    {
      storeState := state;
    }

    /** withReducer(newReducer, initialState). */
    method WithReducer(f: (Value, Value) -> Value, initialState: Value)
      modifies this`reducer, this`storeState
      ensures reducer == UserReducer(f)
      ensures storeState == ExtractState(f, initialState)
    {
      reducer := UserReducer(f);
      storeState := ExtractState(f, initialState);
    }

    /** provide(newProviders), for one providers object (None: falsy). */
    method Provide(newProviders: Option<Providers>)
      modifies this`providers
      ensures providers == newProviders
    {
      providers := newProviders;
    }

    /** start(): the harness is running; the saga itself is not modelled. */
    method Start()
      modifies this`isRunning
      ensures isRunning
    {
      isRunning := true;
    }

    /** run(timeout): start, then schedule the stop as the timeout says. */
    method Run(timeout: Value) returns (plan: Option<StopPlan>)
      modifies this`isRunning
      ensures isRunning
      ensures plan == ScheduleStopPlan(RunTimeout(timeout))
    {
      Start();
      plan := ScheduleStopPlan(RunTimeout(timeout));
    }
  }
}
