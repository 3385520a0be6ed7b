/** The pure parts of expectSaga's harness: what a dispatch does to the store,
    which queued actions a take releases, how expectations are reconciled with
    the effect stores, the stop-timeout argument, the branch refineYieldedValue
    takes, and the table of effect testers. */
module ExpectSagaModel {
  import opened Values
  import opened ArraySet
  import opened ProvideValue

  /** expectSaga.DEFAULT_TIMEOUT, in milliseconds. */
  const DEFAULT_TIMEOUT: int := 250

  /** The action extractState hands a reducer to get its initial state. */
  const INIT_ACTION: Value := Obj(map["type" := Str("@@redux-saga-test-plan/INIT")])

  /** The tags that have an effect store. */
  const STORE_TAGS: set<Tag> := {TAKE, PUT, RACE, CALL, CPS, FORK, SELECT, ACTION_CHANNEL, PROMISE}

  /** `map.get(key)`: undefined for a missing key. */
  function Lookup<K>(m: map<K, Value>, key: K): Value {
    if key in m then m[key] else Undefined
  }

  // ---------------------------------------------------------------- reducer

  /** The reducer: defaultReducer hands back the state it is given. */
  datatype Reducer = DefaultReducer | UserReducer(f: (Value, Value) -> Value)

  function Reduce(reducer: Reducer, state: Value, action: Value): Value {
    match reducer
    case DefaultReducer => state
    case UserReducer(f) => f(state, action)
  }

  /** extractState(reducer, initialState): `initialState || reducer(undefined, INIT_ACTION)`. */
  function ExtractState(f: (Value, Value) -> Value, initialState: Value): (r: Value)
    // a truthy initial state is kept as it is
    ensures initialState.IsTruthy() ==> r == initialState
    // any falsy one (undefined, null, false, 0, "") gives way to the reducer's own start state
    ensures !initialState.IsTruthy() ==> r == f(Undefined, INIT_ACTION)
  {
    if initialState.IsTruthy() then initialState else f(Undefined, INIT_ACTION)
  }

  // --------------------------------------------------------------- dispatch

  /** What the store does, in order: run the reducer on an action, or call a
      subscribed listener with it. */
  datatype StoreEvent = Reduced(action: Value) | Notified(listener: Value, action: Value)

  /** notifyListeners(action): each listener called once, in subscription order. */
  function Notifications(listeners: seq<Value>, action: Value): (r: seq<StoreEvent>)
    ensures |r| == |listeners|
  {
    if listeners == [] then []
    else Notifications(listeners[..|listeners| - 1], action) + [Notified(listeners[|listeners| - 1], action)]
  }

  /** The j-th notification calls the j-th listener with the action. */
  lemma {:induction false} NotificationsAt(listeners: seq<Value>, action: Value, j: nat)
    requires j < |listeners|
    ensures Notifications(listeners, action)[j] == Notified(listeners[j], action)
  {
    var n := |listeners| - 1;
    if j < n {
      NotificationsAt(listeners[..n], action, j);
    }
  }

  /** The dispatch handler: the reducer first, then every listener. */
  function DispatchEvents(listeners: seq<Value>, action: Value): seq<StoreEvent> {
    [Reduced(action)] + Notifications(listeners, action)
  }

  /** The events of dispatching `actions` one after the other. */
  function Trace(listeners: seq<Value>, actions: seq<Value>): seq<StoreEvent> {
    if actions == [] then []
    else Trace(listeners, actions[..|actions| - 1]) + DispatchEvents(listeners, actions[|actions| - 1])
  }

  /** The store state after dispatching `actions` one after the other. */
  function Replay(reducer: Reducer, state: Value, actions: seq<Value>): Value {
    if actions == [] then state
    else Reduce(reducer, Replay(reducer, state, actions[..|actions| - 1]), actions[|actions| - 1])
  }

  /** Dispatching one more action appends its block to the trace and runs
      the reducer once more. */
  lemma TraceExtend(listeners: seq<Value>, actions: seq<Value>, i: nat)
    requires i < |actions|
    ensures Trace(listeners, actions[..i + 1]) == Trace(listeners, actions[..i]) + DispatchEvents(listeners, actions[i])
  {
    TakeOfTake(actions, i + 1, i);
  }

  /** The actions the reducer ran on, in order. */
  function Reductions(events: seq<StoreEvent>): seq<Value> {
    if events == [] then []
    else
      var last := events[|events| - 1];
      Reductions(events[..|events| - 1]) + (if last.Reduced? then [last.action] else [])
  }

  lemma {:induction false} ReductionsAppend(a: seq<StoreEvent>, b: seq<StoreEvent>)
    ensures Reductions(a + b) == Reductions(a) + Reductions(b)
    decreases |b|
  {
    if b != [] {
      assert (a + b)[..|a + b| - 1] == a + b[..|b| - 1];
      ReductionsAppend(a, b[..|b| - 1]);
    } else {
      assert a + b == a;
    }
  }

  lemma {:induction false} NotificationsReduceNothing(listeners: seq<Value>, action: Value)
    ensures Reductions(Notifications(listeners, action)) == []
  {
    if listeners != [] {
      var n := Notifications(listeners, action);
      assert n[..|n| - 1] == Notifications(listeners[..|listeners| - 1], action);
      NotificationsReduceNothing(listeners[..|listeners| - 1], action);
    }
  }

  /** One dispatch runs the reducer once, on its action. */
  lemma DispatchReducesOnce(listeners: seq<Value>, action: Value)
    ensures Reductions(DispatchEvents(listeners, action)) == [action]
  {
    ReductionsAppend([Reduced(action)], Notifications(listeners, action));
    NotificationsReduceNothing(listeners, action);
    assert Reductions([Reduced(action)]) == [action] by {
      assert [Reduced(action)][..0] == [];
    }
  }

  /** The reducer sees every dispatched action once, in dispatch order. */
  lemma {:induction false} ReducerSeesEveryDispatch(listeners: seq<Value>, actions: seq<Value>)
    ensures Reductions(Trace(listeners, actions)) == actions
  {
    if actions != [] {
      var n := |actions| - 1;
      ReducerSeesEveryDispatch(listeners, actions[..n]);
      ReductionsAppend(Trace(listeners, actions[..n]), DispatchEvents(listeners, actions[n]));
      DispatchReducesOnce(listeners, actions[n]);
      assert actions[..n] + [actions[n]] == actions;
    }
  }

  lemma {:induction false} TraceLength(listeners: seq<Value>, actions: seq<Value>)
    ensures |Trace(listeners, actions)| == |actions| * (|listeners| + 1)
  {
    if actions != [] {
      var n := |actions| - 1;
      TraceLength(listeners, actions[..n]);
      assert |actions| * (|listeners| + 1) == n * (|listeners| + 1) + (|listeners| + 1);
    }
  }

  /** Every dispatch is one block of the trace: the reducer on the action,
      then each listener in subscription order. */
  lemma {:induction false} TraceBlocks(listeners: seq<Value>, actions: seq<Value>, k: nat, j: nat)
    requires k < |actions| && j <= |listeners|
    ensures k * (|listeners| + 1) + j < |Trace(listeners, actions)|
    ensures Trace(listeners, actions)[k * (|listeners| + 1) + j]
            == (if j == 0 then Reduced(actions[k]) else Notified(listeners[j - 1], actions[k]))
  {
    var m := |listeners| + 1;
    var n := |actions| - 1;
    var before := Trace(listeners, actions[..n]);
    var block := DispatchEvents(listeners, actions[n]);
    assert Trace(listeners, actions) == before + block;
    TraceLength(listeners, actions[..n]);
    assert |before| == n * m;
    if k == n {
      assert k * m + j == |before| + j;
      if j > 0 {
        NotificationsAt(listeners, actions[n], j - 1);
      }
      assert block[j] == (if j == 0 then Reduced(actions[k]) else Notified(listeners[j - 1], actions[k]));
    } else {
      TraceBlocks(listeners, actions[..n], k, j);
      MulStep(k, n, m);
      assert actions[..n][k] == actions[k];
    }
  }

  lemma {:induction false} MulStep(a: nat, b: nat, m: nat)
    requires a < b
    ensures a * m + m <= b * m
  {
    if a + 1 < b {
      MulStep(a, b - 1, m);
      assert (b - 1) * m + m == b * m;
    } else {
      assert (a + 1) * m == a * m + m;
    }
  }

  // ------------------------------------------------------- scheduled dispatch

  /** An action carrying a numeric `_delayTime`: dispatch runs its handler
      only after that delay. */
  predicate IsDelayed(action: Value) {
    action.Obj? && "_delayTime" in action.props && action.props["_delayTime"].Num?
  }

  /** The actions whose handlers dispatch chains straight onto the resolved
      dispatch promise, in order. */
  function Prompt(actions: seq<Value>): seq<Value> {
    if actions == [] then []
    else
      var last := actions[|actions| - 1];
      Prompt(actions[..|actions| - 1]) + (if IsDelayed(last) then [] else [last])
  }

  /** The actions whose handlers wait for their delay first, in order. */
  function Delayed(actions: seq<Value>): seq<Value> {
    if actions == [] then []
    else
      var last := actions[|actions| - 1];
      Delayed(actions[..|actions| - 1]) + (if IsDelayed(last) then [last] else [])
  }

  lemma PartitionStep(before: seq<Value>, last: Value)
    ensures Prompt(before + [last]) == Prompt(before) + (if IsDelayed(last) then [] else [last])
    ensures Delayed(before + [last]) == Delayed(before) + (if IsDelayed(last) then [last] else [])
  {
    assert (before + [last])[..|before|] == before;
  }

  /** PartitionStep on the prefixes of one sequence of dispatches. */
  lemma PartitionExtend(actions: seq<Value>, i: nat)
    requires i < |actions|
    ensures IsDelayed(actions[i]) ==> Prompt(actions[..i + 1]) == Prompt(actions[..i])
                                      && Delayed(actions[..i + 1]) == Delayed(actions[..i]) + [actions[i]]
    ensures !IsDelayed(actions[i]) ==> Prompt(actions[..i + 1]) == Prompt(actions[..i]) + [actions[i]]
                                       && Delayed(actions[..i + 1]) == Delayed(actions[..i])
  {
    TakeOfTake(actions, i + 1, i);
  }

  /** No delayed action is chained straight away, and only delayed ones wait. */
  lemma {:induction false} PartitionSeparates(actions: seq<Value>)
    ensures forall i :: 0 <= i < |Prompt(actions)| ==> !IsDelayed(Prompt(actions)[i])
    ensures forall i :: 0 <= i < |Delayed(actions)| ==> IsDelayed(Delayed(actions)[i])
  {
    if actions != [] {
      var n := |actions| - 1;
      PartitionSeparates(actions[..n]);
      PartitionStep(actions[..n], actions[n]);
      assert actions == actions[..n] + [actions[n]];
    }
  }

  /** Every dispatched action goes to exactly one of the two. */
  lemma {:induction false} PromptAndDelayedPartition(actions: seq<Value>)
    ensures multiset(Prompt(actions)) + multiset(Delayed(actions)) == multiset(actions)
  {
    if actions != [] {
      var n := |actions| - 1;
      var last, before := actions[n], actions[..n];
      PromptAndDelayedPartition(before);
      assert actions == before + [last];
      PartitionStep(before, last);
      assert multiset(actions) == multiset(before) + multiset{last};
      if IsDelayed(last) {
        assert Prompt(actions) == Prompt(before);
        assert Delayed(actions) == Delayed(before) + [last];
      } else {
        assert Prompt(actions) == Prompt(before) + [last];
        assert Delayed(actions) == Delayed(before);
      }
    }
  }

  /** apiDispatch's action: `assign({}, action, { _delayTime })` while a
      numeric delay is pending, the action itself otherwise. */
  function Dispatchable(action: Value, delayTime: Value): (r: Value)
    ensures delayTime.Num? ==> IsDelayed(r) && Prop(r, "_delayTime") == delayTime
    // the copy keeps every other property of an object action
    ensures delayTime.Num? && action.Obj?
            ==> forall k :: k in action.props && k != "_delayTime" ==> Prop(r, k) == action.props[k]
    ensures !delayTime.Num? ==> r == action
  {
    if delayTime.Num? then Obj((if action.Obj? then action.props else map[])["_delayTime" := delayTime])
    else action
  }

  // ------------------------------------------------------------ unsubscribe

  /** `listeners.indexOf(listener)`. */
  function IndexOf(s: seq<Value>, x: Value): (i: int)
    ensures i == -1 <==> x !in s
    ensures i >= 0 ==> i < |s| && s[i] == x && x !in s[..i]
  {
    var i := IndexWhere(s, v => v == x);
    assert i >= 0 ==> s[i] == x && forall j :: 0 <= j < i ==> s[j] != x;
    i
  }

  /** `s.splice(start, 1)` on what it leaves: a negative start counts from
      the end, and a start past the end removes nothing. */
  function SpliceOne(s: seq<Value>, start: int): (r: seq<Value>)
    ensures 0 <= start < |s| ==> r == RemoveAt(s, start)
    ensures -|s| <= start < 0 ==> r == RemoveAt(s, |s| + start)
    ensures start >= |s| ==> r == s
  {
    var k := if start < 0 then (if |s| + start < 0 then 0 else |s| + start) else start;
    if k < |s| then RemoveAt(s, k) else s
  }

  /** The unsubscribe function subscribe hands out, as written:
      `listeners.splice(listeners.indexOf(listener), 1)`. */
  function UnsubscribedAsWritten(listeners: seq<Value>, listener: Value): seq<Value> {
    SpliceOne(listeners, IndexOf(listeners, listener))
  }

  /** As written, unsubscribing a listener that is not subscribed finds
      index -1, and splice(-1, 1) removes the last listener. */
  lemma UnsubscribeAbsentDropsLast(listeners: seq<Value>, listener: Value)
    requires listener !in listeners && listeners != []
    ensures UnsubscribedAsWritten(listeners, listener) == listeners[..|listeners| - 1]
  {
    assert IndexOf(listeners, listener) == -1;
  }

  /** So a second call of the same unsubscribe function removes a listener
      that belongs to someone else: the last one still subscribed. */
  lemma UnsubscribeTwiceDropsAnother(listeners: seq<Value>, listener: Value)
    requires multiset(listeners)[listener] == 1 && |listeners| >= 2
    ensures var once := UnsubscribedAsWritten(listeners, listener);
            var twice := UnsubscribedAsWritten(once, listener);
            && once != [] && once[|once| - 1] != listener
            && twice == once[..|once| - 1]
            && |twice| == |listeners| - 2
  {
    var i := IndexOf(listeners, listener);
    var once := UnsubscribedAsWritten(listeners, listener);
    assert once == RemoveAt(listeners, i);
    assert multiset(once)[listener] == 0;
    assert listener !in once;
    UnsubscribeAbsentDropsLast(once, listener);
  }

  /** Unsubscribing as evidently intended: the listener's own entry goes,
      and nothing goes when it is no longer subscribed. */
  function Unsubscribed(listeners: seq<Value>, listener: Value): (r: seq<Value>)
    ensures listener !in listeners ==> r == listeners
    ensures listener in listeners ==> r == RemoveAt(listeners, IndexOf(listeners, listener))
    ensures multiset(r) == multiset(listeners) - multiset{listener}
  {
    var i := IndexOf(listeners, listener);
    if i == -1 then listeners
    else
      assert multiset(RemoveAt(listeners, i)) + multiset{listener} == multiset(listeners);
      RemoveAt(listeners, i)
  }

  /** Calling an unsubscribe function again leaves the other listeners alone. */
  lemma UnsubscribeIsIdempotent(listeners: seq<Value>, listener: Value)
    requires multiset(listeners)[listener] <= 1
    ensures Unsubscribed(Unsubscribed(listeners, listener), listener) == Unsubscribed(listeners, listener)
  {
    var once := Unsubscribed(listeners, listener);
    assert multiset(once)[listener] == 0;
    assert listener !in once;
  }

  // ------------------------------------------------------------------ takes

  /** findDispatchableActionIndex: the first queued action the pattern matches, or -1. */
  function FindDispatchableActionIndex(queue: seq<Value>, pattern: Value, matches: (Value, Value) -> bool): (i: int)
    ensures -1 <= i < |queue|
    ensures i == -1 <==> forall j :: 0 <= j < |queue| ==> !matches(pattern, queue[j])
    ensures i >= 0 ==> matches(pattern, queue[i]) && forall j :: 0 <= j < i ==> !matches(pattern, queue[j])
  {
    IndexWhere(queue, a => matches(pattern, a))
  }

  /** The pattern a take waits for: `effect.pattern || channelsToPatterns.get(effect.channel)`. */
  function TakePattern(take: Value, channelsToPatterns: map<Value, Value>): Value {
    var pattern := Prop(take, "pattern");
    if pattern.IsTruthy() then pattern else Lookup(channelsToPatterns, Prop(take, "channel"))
  }

  /** getDispatchableActions on a queue: the actions it splices out and the queue it leaves. */
  function TakeSplit(queue: seq<Value>, pattern: Value, matches: (Value, Value) -> bool): (r: (seq<Value>, seq<Value>))
    // nothing is lost and the order is kept
    ensures r.0 + r.1 == queue
    // no match: nothing is taken
    ensures r.0 == [] <==> forall j :: 0 <= j < |queue| ==> !matches(pattern, queue[j])
    // a match: the queue up to and including the first matching action
    ensures r.0 != [] ==> matches(pattern, r.0[|r.0| - 1]) && forall j :: 0 <= j < |r.0| - 1 ==> !matches(pattern, r.0[j])
  {
    var index := FindDispatchableActionIndex(queue, pattern, matches);
    if index > -1 then
      assert queue[..index + 1] + queue[index + 1..] == queue;
      (queue[..index + 1], queue[index + 1..])
    else ([], queue)
  }

  /** The actions a take dispatches from what it spliced out: `splitAt(actions, -1)`
      gives all but the last, then the last is dispatched when it is truthy. */
  function TakeDispatches(actions: seq<Value>): (r: seq<Value>)
    ensures r <= actions
    ensures |r| >= |actions| - 1
    // only a falsy last action is held back
    ensures r == actions <==> actions == [] || actions[|actions| - 1].IsTruthy()
  {
    if actions == [] then []
    else
      var last := actions[|actions| - 1];
      assert actions[..|actions| - 1] + [last] == actions;
      actions[..|actions| - 1] + (if last.IsTruthy() then [last] else [])
  }

  // ----------------------------------------------------------- expectations

  /** One registered assertion: the effect name for messages, the expected
      effect (or partial object for "like"), its store, and its polarity. */
  datatype Expectation = Expectation(effectName: string, expectedEffect: Value, storeKey: Tag,
                                     like: bool, expectToHave: bool)

  /** An item of the store an expectation matches: for "like", isMatch on the
      extracted effect; otherwise equality with the expected effect. */
  predicate Satisfies(item: Value, e: Expectation, isMatch: (Value, Value) -> bool) {
    if e.like then isMatch(AsEffect(e.storeKey, item), e.expectedEffect) else item == e.expectedEffect
  }

  /** `like ? store.deleteBy(...) : store.delete(expectedEffect)`: whether an
      item was deleted, and the store afterwards. */
  function Settle(store: seq<Value>, e: Expectation, isMatch: (Value, Value) -> bool): (r: (bool, seq<Value>))
    ensures !r.0 ==> r.1 == store
    ensures r.0 ==> |r.1| == |store| - 1 && multiset(r.1) <= multiset(store)
    // the item removed is the first one that satisfies the expectation
    ensures r.0 <==> IndexWhere(store, item => Satisfies(item, e, isMatch)) >= 0
    ensures r.0 ==> r.1 == RemoveAt(store, IndexWhere(store, item => Satisfies(item, e, isMatch)))
  {
    if e.like then
      IndexWhereAgree(store, item => isMatch(AsEffect(e.storeKey, item), e.expectedEffect),
                      item => Satisfies(item, e, isMatch));
      DeleteBy(store, item => isMatch(AsEffect(e.storeKey, item), e.expectedEffect))
    else
      IndexWhereAgree(store, v => v == e.expectedEffect, item => Satisfies(item, e, isMatch));
      DeleteRemovesFirst(store, e.expectedEffect);
      var r := Delete(store, e.expectedEffect);
      assert r.0 ==> store[IndexWhere(store, v => v == e.expectedEffect)] == e.expectedEffect;
      r
  }

  /** An item is deleted exactly when the store holds one that satisfies the
      expectation: equal to the expected effect, or matching it for `like`. */
  lemma SettleFindsMatch(store: seq<Value>, e: Expectation, isMatch: (Value, Value) -> bool)
    ensures Settle(store, e, isMatch).0 <==> exists j :: 0 <= j < |store| && Satisfies(store[j], e, isMatch)
  {
    if !e.like {
      assert (exists j :: 0 <= j < |store| && store[j] == e.expectedEffect) <==> e.expectedEffect in store;
    }
  }

  /** Settle on the expectation's own store, within all the stores. */
  function SettleIn(stores: map<Tag, seq<Value>>, e: Expectation, isMatch: (Value, Value) -> bool)
    : (r: (bool, map<Tag, seq<Value>>))
    requires e.storeKey in stores
    ensures r.1.Keys == stores.Keys
    // only the expectation's own store changes
    ensures r == (Settle(stores[e.storeKey], e, isMatch).0, stores[e.storeKey := Settle(stores[e.storeKey], e, isMatch).1])
  {
    var settled := Settle(stores[e.storeKey], e, isMatch);
    (settled.0, stores[e.storeKey := settled.1])
  }

  /** How many expectations use the store of t. */
  function CountFor(exps: seq<Expectation>, t: Tag): nat {
    if exps == [] then 0
    else CountFor(exps[..|exps| - 1], t) + (if exps[|exps| - 1].storeKey == t then 1 else 0)
  }

  predicate StoresCover(stores: map<Tag, seq<Value>>, exps: seq<Expectation>) {
    forall i :: 0 <= i < |exps| ==> exps[i].storeKey in stores
  }

  /** checkExpectations' forEach: the index of the first expectation whose
      outcome ("deleted") differs from its polarity, if any, and the stores
      after the expectations up to that one. */
  function Reconcile(stores: map<Tag, seq<Value>>, exps: seq<Expectation>, isMatch: (Value, Value) -> bool)
    : (r: (Option<nat>, map<Tag, seq<Value>>))
    requires StoresCover(stores, exps)
    ensures r.1.Keys == stores.Keys
    ensures r.0.Some? ==> r.0.value < |exps|
    decreases |exps|
  {
    if exps == [] then (None, stores)
    else
      var n := |exps| - 1;
      assert StoresCover(stores, exps[..n]);
      var before := Reconcile(stores, exps[..n], isMatch);
      if before.0.Some? then before
      else
        var settled := SettleIn(before.1, exps[n], isMatch);
        if settled.0 != exps[n].expectToHave then (Some(n), settled.1) else (None, settled.1)
  }

  /** Expectations only ever delete: no store gains an item. */
  lemma {:induction false} ReconcileOnlyDeletes(stores: map<Tag, seq<Value>>, exps: seq<Expectation>,
                                                isMatch: (Value, Value) -> bool, t: Tag)
    requires StoresCover(stores, exps) && t in stores
    ensures multiset(Reconcile(stores, exps, isMatch).1[t]) <= multiset(stores[t])
  {
    if exps != [] {
      var n := |exps| - 1;
      assert StoresCover(stores, exps[..n]);
      ReconcileOnlyDeletes(stores, exps[..n], isMatch, t);
      var before := Reconcile(stores, exps[..n], isMatch);
      if before.0.None? {
        assert Reconcile(stores, exps, isMatch).1 == SettleIn(before.1, exps[n], isMatch).1;
      } else {
        assert Reconcile(stores, exps, isMatch) == before;
      }
    }
  }

  /** Each expectation deletes at most one item, and only from its own store. */
  lemma {:induction false} ReconcileDeletesAtMostOneEach(stores: map<Tag, seq<Value>>, exps: seq<Expectation>,
                                                         isMatch: (Value, Value) -> bool, t: Tag)
    requires StoresCover(stores, exps) && t in stores
    ensures |stores[t]| - |Reconcile(stores, exps, isMatch).1[t]| <= CountFor(exps, t)
  {
    if exps != [] {
      var n := |exps| - 1;
      assert StoresCover(stores, exps[..n]);
      ReconcileDeletesAtMostOneEach(stores, exps[..n], isMatch, t);
      var before := Reconcile(stores, exps[..n], isMatch);
      var r := Reconcile(stores, exps, isMatch);
      assert CountFor(exps, t) == CountFor(exps[..n], t) + (if exps[n].storeKey == t then 1 else 0);
      if before.0.None? {
        assert r.1 == SettleIn(before.1, exps[n], isMatch).1;
      } else {
        assert r == before;
      }
    }
  }

  /** The expectations are taken in order: the reported one is the first
      whose outcome disagrees with its polarity. */
  lemma {:induction false} ReconcileFirstFailure(stores: map<Tag, seq<Value>>, exps: seq<Expectation>,
                                                 isMatch: (Value, Value) -> bool)
    requires StoresCover(stores, exps)
    requires Reconcile(stores, exps, isMatch).0.Some?
    ensures var k := Reconcile(stores, exps, isMatch).0.value;
            var before := Reconcile(stores, exps[..k], isMatch);
            && before.0.None?
            && Settle(before.1[exps[k].storeKey], exps[k], isMatch).0 != exps[k].expectToHave
  {
    var n := |exps| - 1;
    assert StoresCover(stores, exps[..n]);
    var before := Reconcile(stores, exps[..n], isMatch);
    if before.0.Some? {
      ReconcileKeepsFailure(stores, exps, isMatch);
      ReconcileFirstFailure(stores, exps[..n], isMatch);
      var k := before.0.value;
      TakeOfTake(exps, n, k);
    } else {
      assert Reconcile(stores, exps, isMatch).0 == Some(n);
    }
  }

  /** One more expectation after a run without failures. */
  lemma ReconcileExtend(stores: map<Tag, seq<Value>>, exps: seq<Expectation>, isMatch: (Value, Value) -> bool, i: nat)
    requires StoresCover(stores, exps) && i < |exps|
    requires StoresCover(stores, exps[..i]) && StoresCover(stores, exps[..i + 1])
    requires Reconcile(stores, exps[..i], isMatch).0.None?
    ensures var before := Reconcile(stores, exps[..i], isMatch).1;
            var settled := Settle(before[exps[i].storeKey], exps[i], isMatch);
            Reconcile(stores, exps[..i + 1], isMatch)
            == (if settled.0 != exps[i].expectToHave then Some(i) else None, before[exps[i].storeKey := settled.1])
  {
    TakeOfTake(exps, i + 1, i);
  }

  /** Once an expectation has failed, the later ones change nothing. */
  lemma {:induction false} ReconcileStopsAtFailure(stores: map<Tag, seq<Value>>, exps: seq<Expectation>,
                                                   isMatch: (Value, Value) -> bool, done: seq<Expectation>)
    requires StoresCover(stores, exps) && done <= exps
    requires StoresCover(stores, done) && Reconcile(stores, done, isMatch).0.Some?
    ensures Reconcile(stores, exps, isMatch) == Reconcile(stores, done, isMatch)
    decreases |exps|
  {
    if done != exps {
      var shorter := exps[..|exps| - 1];
      PrefixOfShorter(stores, exps, done);
      ReconcileStopsAtFailure(stores, shorter, isMatch, done);
      ReconcileKeepsFailure(stores, exps, isMatch);
    }
  }

  lemma PrefixOfShorter(stores: map<Tag, seq<Value>>, exps: seq<Expectation>, done: seq<Expectation>)
    requires StoresCover(stores, exps) && done <= exps && done != exps
    ensures done <= exps[..|exps| - 1] && StoresCover(stores, exps[..|exps| - 1])
  {
  }

  lemma ReconcileKeepsFailure(stores: map<Tag, seq<Value>>, exps: seq<Expectation>, isMatch: (Value, Value) -> bool)
    requires StoresCover(stores, exps) && exps != []
    requires StoresCover(stores, exps[..|exps| - 1])
    requires Reconcile(stores, exps[..|exps| - 1], isMatch).0.Some?
    ensures Reconcile(stores, exps, isMatch) == Reconcile(stores, exps[..|exps| - 1], isMatch)
  {
  }

  /** What checkExpectations reports. */
  datatype Outcome =
    | Passed
      /** The expectation that was unmet: expected but not found, or found though negated. */
    | Unmet(expectation: Expectation)
    | ReturnedOther(expected: Value, actual: Value)
    | ReturnedUnexpectedly(expected: Value)

  /** The return-value check after the expectations. */
  function ReturnOutcome(expectReturnValue: bool, negate: bool, expected: Value, actual: Value): (r: Outcome)
    ensures r == Passed <==> !expectReturnValue || (negate <==> expected != actual)
    ensures r.ReturnedOther? ==> !negate && r == ReturnedOther(expected, actual)
    ensures r.ReturnedUnexpectedly? ==> negate && expected == actual
    ensures !r.Unmet?
  {
    if !expectReturnValue then Passed
    else if !negate && expected != actual then ReturnedOther(expected, actual)
    else if negate && expected == actual then ReturnedUnexpectedly(expected)
    else Passed
  }

  // ---------------------------------------------------------------- timeout

  /** What scheduleStop makes of its argument: the timeout length
      (a race against the saga happens only when it is a number) and whether
      the timeout warning is silenced. */
  datatype StopPlan = StopPlan(timeoutLength: Value, silenceTimeout: bool)

  /** run(timeout = DEFAULT_TIMEOUT): the default applies to undefined only. */
  function RunTimeout(timeout: Value): (r: Value)
    ensures timeout.Undefined? ==> r == Num(DEFAULT_TIMEOUT)
    ensures !timeout.Undefined? ==> r == timeout
  {
    if timeout.Undefined? then Num(DEFAULT_TIMEOUT) else timeout
  }

  /** scheduleStop's reading of its argument; None when it throws (null:
      `typeof null` is 'object' and `null.silenceTimeout` is a TypeError). */
  function ScheduleStopPlan(timeout: Value): (r: Option<StopPlan>)
    ensures timeout.Num? ==> r == Some(StopPlan(timeout, false))
    ensures r.None? <==> timeout.Null?
    // a config object: `silenceTimeout === true`, its own timeout or the default
    ensures timeout.IsObject() && !timeout.Null?
            ==> r == Some(StopPlan(if Has(timeout, "timeout") then Prop(timeout, "timeout") else Num(DEFAULT_TIMEOUT),
                                   Prop(timeout, "silenceTimeout") == Bool(true)))
    // anything else sets no timeout at all
    ensures !timeout.Num? && !timeout.IsObject() ==> r == Some(StopPlan(Undefined, false))
  {
    if timeout.Num? then Some(StopPlan(timeout, false))
    else if timeout.IsObject() then
      if timeout.Null? then None
      else
        var silenceTimeout := Prop(timeout, "silenceTimeout") == Bool(true);
        if Has(timeout, "timeout") then Some(StopPlan(Prop(timeout, "timeout"), silenceTimeout))
        else Some(StopPlan(Num(DEFAULT_TIMEOUT), silenceTimeout))
    else Some(StopPlan(Undefined, false))
  }

  /** run() with no argument races the saga against 250 ms, with the warning on;
      so does a config object that only silences the warning, with it off. */
  lemma DefaultTimeouts()
    ensures ScheduleStopPlan(RunTimeout(Undefined)) == Some(StopPlan(Num(250), false))
    ensures ScheduleStopPlan(Obj(map["silenceTimeout" := Bool(true)])) == Some(StopPlan(Num(250), true))
  {
    var config := Obj(map["silenceTimeout" := Bool(true)]);
    assert !Has(config, "timeout");
  }

  // ---------------------------------------------------------- refine branch

  /** The branch refineYieldedValue takes for a yielded value. */
  datatype Branch =
    | RaceEach        // record the race, refine each of its effects
    | ParallelEach    // refine each effect of the array
    | WrapFork        // record the fork, run it wrapped
    | WrapSpawn       // record the spawn, run it wrapped
    | ForkTypeError   // destructuring a missing fork payload throws
    | CallThenRun     // ask the providers; if none answers, record the call and run it
    | UseProvided     // useProvidedValue

  /** `providers || {}`. */
  function LocalProviders(providers: Option<Providers>): Providers {
    if providers.Some? then providers.value else map[]
  }

  function RefineBranch(value: Value, providers: Option<Providers>): (b: Branch)
    ensures ParseEffect(value) == RACE ==> b == (if "race" in LocalProviders(providers) then UseProvided else RaceEach)
    ensures ParseEffect(value) == PARALLEL ==> b == (if "parallel" in LocalProviders(providers) then UseProvided else ParallelEach)
    // a fork is wrapped only when no provider of its kind is there
    ensures ParseEffect(value) == FORK && !value.payload.IsNullish() && !Detached(value.payload)
            ==> b == (if "fork" in LocalProviders(providers) then UseProvided else WrapFork)
    ensures ParseEffect(value) == FORK && !value.payload.IsNullish() && Detached(value.payload)
            ==> b == (if "spawn" in LocalProviders(providers) then UseProvided else WrapSpawn)
    ensures b == ForkTypeError <==> ParseEffect(value) == FORK && value.payload.IsNullish()
    ensures b == CallThenRun <==> ParseEffect(value) == CALL
    // everything else goes to the providers
    ensures ParseEffect(value) !in {RACE, PARALLEL, FORK, CALL} ==> b == UseProvided
  {
    var local := LocalProviders(providers);
    var t := ParseEffect(value);
    if t == RACE && "race" !in local then RaceEach
    else if t == PARALLEL && "parallel" !in local then ParallelEach
    else if t == FORK then
      var effect := AsEffect(FORK, value);
      if effect.IsNullish() then ForkTypeError
      else if !Detached(effect) && "fork" !in local then WrapFork
      else if Detached(effect) && "spawn" !in local then WrapSpawn
      else UseProvided
    else if t == CALL then CallThenRun
    else UseProvided
  }

  /** The branches that rebuild an effect instead of asking the providers are
      taken exactly where provideValue would have let the effect run. */
  lemma RefineRebuildsOnlyUnprovided(value: Value, providers: Option<Providers>)
    requires RefineBranch(value, providers) in {RaceEach, ParallelEach, WrapFork, WrapSpawn}
    ensures ProvideValue.ProvideValue(providers, value) == NEXT
  {
    var t := ParseEffect(value);
    if providers.Some? && t == FORK {
      assert ProvideValue.ProvideValue(providers, value) == ForkProvided(providers.value, value.payload);
    }
  }

  // ---------------------------------------------------------- effect testers

  /** What createEffectTester closes over: the name for messages, the store
      key, and whether the argument is a partial object ("like"). The
      extractor is always the asEffect accessor of the store key's tag. */
  datatype Tester = Tester(effectName: string, storeKey: Tag, like: bool)

  /** The testers of the api object, by the path a test calls them under. */
  const API_TESTERS: map<string, Tester> := map[
    "actionChannel" := Tester("actionChannel", ACTION_CHANNEL, false),
    "apply" := Tester("apply", CALL, false),
    "call" := Tester("call", CALL, false),
    "cps" := Tester("cps", CPS, false),
    "fork" := Tester("fork", FORK, false),
    "put" := Tester("put", PUT, false),
    "race" := Tester("race", RACE, false),
    "select" := Tester("select", SELECT, false),
    "spawn" := Tester("spawn", FORK, false),
    "take" := Tester("take", TAKE, false),
    "put.resolve" := Tester("put.resolve", PUT, false),
    "take.maybe" := Tester("take.maybe", TAKE, false),
    "actionChannel.like" := Tester("actionChannel", ACTION_CHANNEL, true),
    "apply.like" := Tester("apply", CALL, true),
    "call.like" := Tester("call", CALL, true),
    "cps.like" := Tester("cps", CPS, true),
    "fork.like" := Tester("fork", FORK, true),
    "put.like" := Tester("put", PUT, true),
    "put.resolve.like" := Tester("put", PUT, true),
    "select.like" := Tester("select", SELECT, true),
    "spawn.like" := Tester("spawn", FORK, true)
  ]

  /** How a shorthand tester builds the partial object it hands to its "like" tester. */
  datatype Shape = Wrap(key: string) | ActionType

  /** The shorthand testers: the "like" tester each calls and how it wraps its argument. */
  const SHORTHANDS: map<string, (string, Shape)> := map[
    "actionChannel.pattern" := ("actionChannel.like", Wrap("pattern")),
    "apply.fn" := ("apply.like", Wrap("fn")),
    "call.fn" := ("call.like", Wrap("fn")),
    "cps.fn" := ("cps.like", Wrap("fn")),
    "fork.fn" := ("fork.like", Wrap("fn")),
    "put.actionType" := ("put.like", ActionType),
    "put.resolve.actionType" := ("put.resolve.like", ActionType),
    "select.selector" := ("select.like", Wrap("selector")),
    "spawn.fn" := ("spawn.like", Wrap("fn"))
  ]

  /** `{ [key]: arg }`, or `{ action: { type: arg } }`. */
  function LikeArgument(shape: Shape, arg: Value): (r: Value)
    ensures shape.Wrap? ==> Prop(r, shape.key) == arg
    ensures shape.ActionType? ==> Prop(Prop(r, "action"), "type") == arg
  {
    match shape
    case Wrap(key) => Obj(map[key := arg])
    case ActionType => Obj(map["action" := Obj(map["type" := arg])])
  }
}
