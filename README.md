# redux-saga-test-plan: the effect checks and the expectSaga harness

This project models the core of `redux-saga-test-plan`, a library for testing
redux-saga sagas, and proves properties of that model. The core has three parts:

- **testSaga's step comparator.**
  - `validateEffects` decides whether the effect a saga yielded at one step
    (the *actual* value) agrees with the effect the test expects (the *expected* value).
  - For helper effects (takeEvery, takeLatest, throttle, ...) it hands over to
    `validateTakeHelper` or `validateThrottleHelper`. Each of these advances the
    two generator objects in lock-step and compares what they yield.
  - Small pure helpers support them: `isHelper`, `extractSagaHelperEffectName`
    and `validateHelperNamesMatch`.
- **provideValue.** It is the lookup that lets a test's *providers* stand in for
  the effects a saga yields. A table maps every effect tag to a provider name or to a
  special handler (fork/spawn, parallel). When nothing applies, the result is the `NEXT` sentinel.
- **expectSaga's harness.** It keeps the state one `expectSaga(...)` call closes over:
  - the per-tag effect stores;
  - the expectations the test registers;
  - the queue of actions dispatched before the saga runs, released by takes;
  - the listeners and the store state;
  - the outstanding fork and action-channel effects, resolved into forked tasks
    and a channel→pattern map;
  - the one-shot negation (`not`) and the one-shot dispatch delay (`delay`).

  It also contains the final reconciliation of the expectations with the stores.

Layout:

- `values.dfy`: JavaScript values as these functions see them.
  - Primitives, functions known by identity, arrays, plain objects and
    redux-saga effect objects.
  - Promises, and generator objects, whose `next()` is a `Cursor` class over
    what they will yield, recording every argument passed to `next()`.
  - The collaborator `parseEffect`.
- `comparison.dfy`: what the validators share.
  - Error reasons as a datatype, and the verdict: `Pass` (null), `Fail(reason, step)` (an error message) or `Crash` (a thrown TypeError).
  - Stepping two generators together, and reading the parts of a helper's effects.
- `is_helper.dfy`, `extract_saga_helper_effect_name.dfy`,
  `validate_helper_names_match.dfy`, `validate_take_helper.dfy`,
  `validate_throttle_helper.dfy`, `validate_effects.dfy`: one module per testSaga file.
  - Each helper validator is a function on what the two generators will yield (the
    specification), plus a method that steps the generator cursors in place and is proved to
    give that function's verdict and to feed the generators exactly the inputs it says.
- `provide_value.dfy`: the handlers table and `provideValue`.
- `array_set.dfy`: the `ArraySet` stores and the index search that
  `findDispatchableActionIndex` shares with them. These collaborators' own
  sources are not part of this model. They are modelled by the contract their
  uses in `index.js` rely on.
- `expect_saga_model.dfy`: the pure side of the harness.
  - The dispatch trace (reducer, then each listener), the split of a queue by a take, and the reconciliation of expectations.
  - The return-value check, the timeout argument, the branch `refineYieldedValue` takes, and the table of effect testers.
- `expect_saga.dfy`: the harness as a class `Harness`. Its fields are the closure's
  variables, and its methods are the inner functions and api methods that update them,
  each specified by the functions of `expect_saga_model.dfy`.

Where the library's documented design and its code differ, the model follows the code:

- **Asynchronous dispatch.** `dispatch` runs nothing at once. It chains its handler
  (reducer, then listeners) on one resolved promise, behind a `delay` when the action
  carries a numeric `_delayTime`. The model therefore keeps two queues: handlers chained
  directly (`scheduled`), which run in order (`RunScheduled`), and handlers waiting for a
  delay (`delayed`), any one of which may run next (`RunDelayed(i)`). Delayed handlers are
  not serialised, because the promise they hang on is never reassigned.
- **Every action a take releases goes through `dispatch`.** This includes the earlier
  actions, so each of them runs the reducer and then notifies the listeners.

## Model

| member | source | states |
|---|---|---|
| IsHelper.IsHelper | node_modules/redux-saga-test-plan/lib/testSaga/isHelper.js:11-13 | null/undefined and non-objects give false; an object gives true exactly when it has the HELPER key (own or inherited), i.e. only marked generator objects and plain objects holding the key |
| ExtractSagaHelperEffectName.WordRun | node_modules/redux-saga-test-plan/lib/testSaga/extractSagaHelperEffectName.js:6 | the `^\w+` part of the pattern: the longest prefix of word characters |
| ExtractSagaHelperEffectName.WordRunCovers | node_modules/redux-saga-test-plan/lib/testSaga/extractSagaHelperEffectName.js:6 | every all-word prefix lies inside the initial run, so `\w+(` can only match at its end |
| ExtractSagaHelperEffectName.MatchIsAtWordRun | node_modules/redux-saga-test-plan/lib/testSaga/extractSagaHelperEffectName.js:6 | any match of the regular expression captures exactly the initial word run |
| ExtractSagaHelperEffectName.Extract | node_modules/redux-saga-test-plan/lib/testSaga/extractSagaHelperEffectName.js:5-7 | the result is a prefix of the name; a match of `^(\w+)\(.*$` yields its captured group; a name the pattern does not match comes back unchanged |
| ExtractSagaHelperEffectName.ExtractWordCall | node_modules/redux-saga-test-plan/lib/testSaga/extractSagaHelperEffectName.js:6 | for `w + "(" + rest` with w a non-empty run of `[A-Za-z0-9_]` and rest free of line terminators, the result is w |
| ExtractSagaHelperEffectName.ExtractIdempotent | node_modules/redux-saga-test-plan/lib/testSaga/extractSagaHelperEffectName.js:6 | extracting twice is extracting once |
| ValidateHelperNamesMatch.ValidateHelperNamesMatch | node_modules/redux-saga-test-plan/lib/testSaga/validateHelperNamesMatch.js:16-27 | a non-string `name` or an extracted name equal to effectName gives null; a differing one gives the mismatch error carrying both names; the result is determined by effectName and `actual.name` alone and never throws |
| Values.ParseEffect | node_modules/redux-saga-test-plan/src/expectSaga/index.js:345-356 | an effect object is reported under its own tag, and only effect objects get an I/O tag (arrays are PARALLEL, promises PROMISE, the rest NONE) |
| Values.Cursor.Next | node_modules/redux-saga-test-plan/lib/testSaga/validateTakeHelper.js:27-28 | `next(input).value`: the first value still to come (undefined once done), the rest stays, the input is recorded |
| Comparison.StepPair | node_modules/redux-saga-test-plan/lib/testSaga/validateTakeHelper.js:46-47 | expected then actual are each advanced once with the same input, and each yields its own next value |
| Comparison.ForkStep | node_modules/redux-saga-test-plan/lib/testSaga/validateTakeHelper.js:46-75 | a missing expected fork is reported before a missing actual one; fork functions are compared by identity first (the error names the expected function), then the argument lists; null exactly when both forks are there and agree on function and arguments |
| ValidateTakeHelper.TakeHelperCheck | node_modules/redux-saga-test-plan/lib/testSaga/validateTakeHelper.js:26-76 | each generator is advanced once before the pattern check and at most twice, always with no argument; missing expected take before missing actual take; differing patterns give the watch-pattern error and stop before the fork step; null exactly when both steps are present and agree |
| ValidateTakeHelper.ValidateTakeHelper | node_modules/redux-saga-test-plan/lib/testSaga/validateTakeHelper.js:26-76 | stepping the two generator objects in place gives the verdict of TakeHelperCheck and feeds each generator exactly the inputs TakeHelperCheck lists |
| ValidateThrottleHelper.ActionChannelStep | node_modules/redux-saga-test-plan/lib/testSaga/validateThrottleHelper.js:35-48 | missing expected action channel before missing actual one; differing patterns give the watch-pattern error with the expected pattern; null exactly when both patterns are there and equal |
| ValidateThrottleHelper.DelayStep | node_modules/redux-saga-test-plan/lib/testSaga/validateThrottleHelper.js:86-104 | missing expected delay call before missing actual one; the first call arguments are compared by strict equality, and the error carries the expected delay; null exactly when they agree |
| ValidateThrottleHelper.ForkAndDelay | node_modules/redux-saga-test-plan/lib/testSaga/validateThrottleHelper.js:50-104 | the channel take is fed the fake channel unchecked; a failing fork step stops before the delay step; null exactly when forks and delays agree; both generators get the same inputs |
| ValidateThrottleHelper.ThrottleHelperCheck | node_modules/redux-saga-test-plan/lib/testSaga/validateThrottleHelper.js:30-105 | the inputs fed are a prefix of (nothing, fake channel, nothing, nothing); differing action-channel patterns stop with neither generator advanced further; past the pattern check each is fed the channel exactly once; on success each has been advanced exactly four times; null exactly when all three checks agree |
| ValidateThrottleHelper.ForkAndDelaySteps | node_modules/redux-saga-test-plan/lib/testSaga/validateThrottleHelper.js:50-104 | stepping the cursors from the channel take on gives ForkAndDelay's verdict and inputs |
| ValidateThrottleHelper.ThrottleSteps | node_modules/redux-saga-test-plan/lib/testSaga/validateThrottleHelper.js:31-104 | stepping two generator cursors gives the verdict and inputs of the whole comparison |
| ValidateThrottleHelper.ValidateThrottleHelper | node_modules/redux-saga-test-plan/lib/testSaga/validateThrottleHelper.js:27-105 | stepping the two generator objects in place gives ThrottleHelperCheck's verdict on `eventChannel(fakeChannelCreator)` and feeds each generator exactly its inputs |
| ValidateEffects.FinalEffectName | node_modules/redux-saga-test-plan/lib/testSaga/validateEffects.js:33-36 | the suffix " helper" is added exactly when expected is a helper |
| ValidateEffects.PlainCheck | node_modules/redux-saga-test-plan/lib/testSaga/validateEffects.js:56-76 | parallel against single in both directions; a non-array side without the effect key is a different effect; for a helper effect, unequal sides are a different effect, never a mismatch; null exactly for deep-equal sides carrying the key; a throw only for a null expected |
| ValidateEffects.EffectsCheck | node_modules/redux-saga-test-plan/lib/testSaga/validateEffects.js:32-77 | nothing yielded is reported whatever was expected; two helpers are decided only by the name check, then the throttle or the take validator; outside the helper branch no generator moves, and null means deep-equal |
| ValidateEffects.ValidateEffects | node_modules/redux-saga-test-plan/lib/testSaga/validateEffects.js:32-77 | the verdict and the generator inputs are those of EffectsCheck on what the two generators will yield |
| ProvideValue.ForkProvided | node_modules/redux-saga-test-plan/src/expectSaga/provideValue.js:33-45 | a non-detached fork consults only `providers.fork`, a detached one only `providers.spawn`; otherwise NEXT; a missing payload throws only when a fork or spawn provider is there |
| ProvideValue.ProvideValue | node_modules/redux-saga-test-plan/src/expectSaga/provideValue.js:60-76 | falsy providers give NEXT; a named handler with its provider present returns exactly that provider on the extracted effect, and NEXT when it is absent; PROMISE and NONE give NEXT; FORK goes to the fork handler; PARALLEL passes the raw value to `providers.parallel` |
| ProvideValue.ProvideValueReadsOnlyConsulted | node_modules/redux-saga-test-plan/src/expectSaga/provideValue.js:26-76 | two providers objects that agree on the keys the handler consults give the same result |
| ArraySet.IndexWhere | node_modules/redux-saga-test-plan/src/expectSaga/index.js:334 | the index of the first item satisfying the predicate, or -1 exactly when none does |
| ArraySet.IndexWhereAgree | node_modules/redux-saga-test-plan/src/expectSaga/index.js:500-501 | two predicates that agree on every stored item find the same first index, so delete and deleteBy pick the item the expectation describes |
| ArraySet.RemoveAt | node_modules/redux-saga-test-plan/src/expectSaga/index.js:499-501 | one item fewer, the removed item is the one at the index, and the others keep their order |
| ArraySet.DeleteBy | node_modules/redux-saga-test-plan/src/expectSaga/index.js:500 | deletes the first item satisfying the predicate exactly when there is one, keeping the others in order, and leaves the store unchanged otherwise |
| ArraySet.Delete | node_modules/redux-saga-test-plan/src/expectSaga/index.js:501 | deletes one occurrence of the item exactly when the store holds it, and leaves the store unchanged otherwise |
| ArraySet.DeleteRemovesFirst | node_modules/redux-saga-test-plan/src/expectSaga/index.js:501 | the occurrence delete removes is the first equal item, and the other items keep their order |
| ArraySet.DeleteUndoesAdd | node_modules/redux-saga-test-plan/src/expectSaga/index.js:358 | delete after add finds the item and restores the store's contents |
| ArraySet.DeleteTwice | node_modules/redux-saga-test-plan/src/expectSaga/index.js:499-501 | an item held once can be deleted only once |
| ExpectSagaModel.ExtractState | node_modules/redux-saga-test-plan/src/expectSaga/index.js:47-49 | a truthy initial state is kept; any falsy one gives way to `reducer(undefined, INIT_ACTION)` |
| ExpectSagaModel.NotificationsAt | node_modules/redux-saga-test-plan/src/expectSaga/index.js:305-309 | the j-th notification calls the j-th listener with the action |
| ExpectSagaModel.TraceExtend | node_modules/redux-saga-test-plan/src/expectSaga/index.js:311-315 | one more dispatch appends its block (reducer, then listeners) to the trace |
| ExpectSagaModel.ReductionsAppend | node_modules/redux-saga-test-plan/src/expectSaga/index.js:313 | the reducer runs of two stretches of events are those of each in turn |
| ExpectSagaModel.NotificationsReduceNothing | node_modules/redux-saga-test-plan/src/expectSaga/index.js:305-309 | notifying listeners runs no reducer |
| ExpectSagaModel.DispatchReducesOnce | node_modules/redux-saga-test-plan/src/expectSaga/index.js:312-315 | one dispatch runs the reducer exactly once, on its own action |
| ExpectSagaModel.ReducerSeesEveryDispatch | node_modules/redux-saga-test-plan/src/expectSaga/index.js:311-315 | the reducer sees every dispatched action exactly once, in dispatch order |
| ExpectSagaModel.TraceLength | node_modules/redux-saga-test-plan/src/expectSaga/index.js:311-315 | every dispatch contributes one reducer run plus one call per listener |
| ExpectSagaModel.TraceBlocks | node_modules/redux-saga-test-plan/src/expectSaga/index.js:311-315 | the k-th dispatch is the k-th block of the trace: the reducer on its action, then each listener in subscription order |
| ExpectSagaModel.PartitionStep | node_modules/redux-saga-test-plan/src/expectSaga/index.js:317-325 | an action with a numeric `_delayTime` joins the waiting handlers, any other the chained ones |
| ExpectSagaModel.PartitionExtend | node_modules/redux-saga-test-plan/src/expectSaga/index.js:317-325 | the same split, one action further along a sequence of dispatches |
| ExpectSagaModel.PartitionSeparates | node_modules/redux-saga-test-plan/src/expectSaga/index.js:317-325 | no delayed action is chained straight away, and only delayed ones wait |
| ExpectSagaModel.PromptAndDelayedPartition | node_modules/redux-saga-test-plan/src/expectSaga/index.js:317-325 | every dispatched action goes to exactly one of the two, nothing is lost or duplicated |
| ExpectSagaModel.Dispatchable | node_modules/redux-saga-test-plan/src/expectSaga/index.js:555-565 | with a numeric delay pending, the action is a copy carrying it as `_delayTime` and keeping every other property; otherwise the action itself |
| ExpectSagaModel.IndexOf | node_modules/redux-saga-test-plan/src/expectSaga/index.js:396 | `indexOf`: the first position of the listener, or -1 exactly when it is absent |
| ExpectSagaModel.SpliceOne | node_modules/redux-saga-test-plan/src/expectSaga/index.js:397 | `splice(start, 1)`: a negative start counts from the end, and a start past the end removes nothing |
| ExpectSagaModel.UnsubscribeAbsentDropsLast | node_modules/redux-saga-test-plan/src/expectSaga/index.js:396-397 | as written, unsubscribing a listener that is not subscribed finds index -1 and removes the last listener |
| ExpectSagaModel.UnsubscribeTwiceDropsAnother | node_modules/redux-saga-test-plan/src/expectSaga/index.js:392-399 | as written, calling a listener's unsubscribe twice, when it was subscribed once among at least two, removes it and then the last other listener: two entries go |
| ExpectSagaModel.Unsubscribed | node_modules/redux-saga-test-plan/src/expectSaga/index.js:395-398 | as intended: the listener's own first entry goes, and nothing changes when it is no longer subscribed |
| ExpectSagaModel.UnsubscribeIsIdempotent | node_modules/redux-saga-test-plan/src/expectSaga/index.js:395-398 | with the guard, a second unsubscribe changes nothing |
| ExpectSagaModel.FindDispatchableActionIndex | node_modules/redux-saga-test-plan/src/expectSaga/index.js:334 | the index of the first queued action the pattern matches, or -1 exactly when none does |
| ExpectSagaModel.TakeSplit | node_modules/redux-saga-test-plan/src/expectSaga/index.js:332-342 | with a match, the queue up to and including the first match is taken in arrival order and the rest keeps its order; with none, nothing is taken |
| ExpectSagaModel.TakeDispatches | node_modules/redux-saga-test-plan/src/expectSaga/index.js:369-377 | all released actions are dispatched in order, the last one only when truthy |
| ExpectSagaModel.Settle | node_modules/redux-saga-test-plan/src/expectSaga/index.js:499-501 | an item is deleted exactly when the store holds one that satisfies the expectation (equal to the expected effect, or matching it for "like"); the item removed is the first such one, the others keep their order, and nothing changes when none is found |
| ExpectSagaModel.SettleFindsMatch | node_modules/redux-saga-test-plan/src/expectSaga/index.js:499-501 | an item is deleted exactly when the store holds one equal to the expected effect, or matching it with isMatch for "like" |
| ExpectSagaModel.SettleIn | node_modules/redux-saga-test-plan/src/expectSaga/index.js:499-501 | settling one expectation keeps the set of stores and changes only the expectation's own store, as Settle describes |
| ExpectSagaModel.Reconcile | node_modules/redux-saga-test-plan/src/expectSaga/index.js:489-522 | the reported expectation, if any, is one of the registered ones, and the set of stores is kept |
| ExpectSagaModel.ReconcileOnlyDeletes | node_modules/redux-saga-test-plan/src/expectSaga/index.js:489-522 | no store gains an item |
| ExpectSagaModel.ReconcileDeletesAtMostOneEach | node_modules/redux-saga-test-plan/src/expectSaga/index.js:489-522 | a store loses at most as many items as there are expectations on it |
| ExpectSagaModel.ReconcileFirstFailure | node_modules/redux-saga-test-plan/src/expectSaga/index.js:489-522 | the reported expectation follows a run without failures, and its outcome "deleted" differs from its polarity |
| ExpectSagaModel.ReconcileExtend | node_modules/redux-saga-test-plan/src/expectSaga/index.js:490-521 | one more expectation deletes from its own store and fails exactly when the outcome differs from its polarity |
| ExpectSagaModel.ReconcileStopsAtFailure | node_modules/redux-saga-test-plan/src/expectSaga/index.js:519-521 | once an expectation has failed, the later ones change nothing |
| ExpectSagaModel.ReturnOutcome | node_modules/redux-saga-test-plan/src/expectSaga/index.js:524-551 | passes exactly when no return value is expected or equality agrees with the negation; reports the mismatch (not negated) or the unexpected return (negated) |
| ExpectSagaModel.RunTimeout | node_modules/redux-saga-test-plan/src/expectSaga/index.js:601-603 | the default of 250 applies to undefined only |
| ExpectSagaModel.ScheduleStopPlan | node_modules/redux-saga-test-plan/src/expectSaga/index.js:268-283 | a number is the timeout; null throws; an object gives `silenceTimeout === true` and its own timeout or the default; anything else sets no timeout |
| ExpectSagaModel.DefaultTimeouts | node_modules/redux-saga-test-plan/src/expectSaga/index.js:679 | run() with no argument races against 250 ms with the warning on, and an object that only silences the warning gets 250 ms with it off |
| ExpectSagaModel.RefineBranch | node_modules/redux-saga-test-plan/src/expectSaga/index.js:129-225 | race and parallel are rebuilt exactly when their provider is absent; a fork is wrapped only when no provider of its kind is there; a missing fork payload throws; a call is asked of the providers, then run; everything else goes to the providers |
| ExpectSagaModel.RefineRebuildsOnlyUnprovided | node_modules/redux-saga-test-plan/src/expectSaga/index.js:138-193 | the rebuilding branches are taken only where provideValue would have returned NEXT |
| ExpectSagaModel.LikeArgument | node_modules/redux-saga-test-plan/src/expectSaga/index.js:463-487 | the shorthand's partial object holds its argument under its key, or as `action.type` |
| ExpectSaga.TestersUseStores | node_modules/redux-saga-test-plan/src/expectSaga/index.js:447-487 | every tester records against one of the effect stores |
| ExpectSaga.ShorthandsUseLikeTesters | node_modules/redux-saga-test-plan/src/expectSaga/index.js:462-487 | every shorthand tester hands its partial object to a "like" tester |
| ExpectSaga.EmptyStores | node_modules/redux-saga-test-plan/src/expectSaga/index.js:62-72 | one empty store for each of the nine stored tags |
| ExpectSaga.ReconcileStores | node_modules/redux-saga-test-plan/src/expectSaga/index.js:490-522 | the loop gives exactly Reconcile's failure and stores, and keeps every store holding only effects of its own tag |
| ExpectSaga.Harness.constructor | node_modules/redux-saga-test-plan/src/expectSaga/index.js:62-98 | the state a new expectSaga call starts with: empty stores, queues, lists and maps, flags off, no delay, the default reducer |
| ExpectSaga.Harness.Handle | node_modules/redux-saga-test-plan/src/expectSaga/index.js:312-315 | the handler runs the reducer once, then notifies each listener in order |
| ExpectSaga.Harness.Dispatch | node_modules/redux-saga-test-plan/src/expectSaga/index.js:311-326 | the handler is chained behind a delay exactly when the action has a numeric `_delayTime` |
| ExpectSaga.Harness.RunScheduled | node_modules/redux-saga-test-plan/src/expectSaga/index.js:320-324 | the chained handlers run in chaining order: the state is the replay of their actions and the trace their blocks in order |
| ExpectSaga.Harness.RunDelayed | node_modules/redux-saga-test-plan/src/expectSaga/index.js:320-322 | one waiting handler runs, and only it leaves the waiting list |
| ExpectSaga.Harness.Subscribe | node_modules/redux-saga-test-plan/src/expectSaga/index.js:392-393 | the listener is appended |
| ExpectSaga.Harness.Unsubscribe | node_modules/redux-saga-test-plan/src/expectSaga/index.js:395-398 | the unsubscribe function as written, splicing at indexOf: a subscribed listener's first entry goes (as Unsubscribed says), and a listener no longer subscribed removes the last one |
| ExpectSaga.Harness.GetDispatchableActions | node_modules/redux-saga-test-plan/src/expectSaga/index.js:332-342 | the actions returned and the queue left are TakeSplit's on the take's pattern or its channel's pattern |
| ExpectSaga.Harness.DispatchEach | node_modules/redux-saga-test-plan/src/expectSaga/index.js:371-373 | each action in order joins the chained or the waiting handlers |
| ExpectSaga.Harness.DispatchTaken | node_modules/redux-saga-test-plan/src/expectSaga/index.js:369-377 | the released actions are dispatched in queue order, the match last, the last only when truthy |
| ExpectSaga.Harness.ProcessTake | node_modules/redux-saga-test-plan/src/expectSaga/index.js:366-380 | a take releases the queue prefix up to its first match and dispatches it |
| ExpectSaga.Harness.ProcessEffect | node_modules/redux-saga-test-plan/src/expectSaga/index.js:344-389 | the effect is added to exactly the store of its tag, and NONE or a tag without a store changes nothing; fork and action-channel effects record their id; only a take releases queued actions |
| ExpectSaga.Harness.AddForkedTask | node_modules/redux-saga-test-plan/src/expectSaga/index.js:249-252 | the task is appended and a re-wait is flagged |
| ExpectSaga.Harness.EffectResolved | node_modules/redux-saga-test-plan/src/expectSaga/index.js:412-425 | a fork id adds the task and sets stopDirty; an action-channel id maps the channel to its pattern; any other id changes nothing |
| ExpectSaga.Harness.AddEffect | node_modules/redux-saga-test-plan/src/expectSaga/index.js:105-112 | the effect is processed once, under the next saga id |
| ExpectSaga.Harness.UseProvidedValue | node_modules/redux-saga-test-plan/src/expectSaga/index.js:104-127 | NEXT returns the value and records nothing; a provided value is returned and the effect recorded once; a thrown error is rethrown and the effect recorded once |
| ExpectSaga.Harness.RefineCall | node_modules/redux-saga-test-plan/src/expectSaga/index.js:198-220 | a call nobody provides is recorded once and run; one whose provider returns the effect itself is recorded twice and run; any other answer is returned and recorded once |
| ExpectSaga.Harness.RefineYieldedValue | node_modules/redux-saga-test-plan/src/expectSaga/index.js:129-225 | race, fork and spawn are recorded once and rebuilt; parallel is rebuilt without recording; a missing fork payload throws without recording; other effects go through useProvidedValue, calls through RefineCall |
| ExpectSaga.Harness.Not | node_modules/redux-saga-test-plan/src/expectSaga/index.js:442-445 | the negation flag is set |
| ExpectSaga.Harness.Expect | node_modules/redux-saga-test-plan/src/expectSaga/index.js:640-666 | exactly one expectation is appended, with expectToHave the negation of the flag, and the flag is cleared |
| ExpectSaga.Harness.ExpectShorthand | node_modules/redux-saga-test-plan/src/expectSaga/index.js:462-487 | a shorthand appends the expectation of its "like" tester on the partial object built around its argument |
| ExpectSaga.Harness.Returns | node_modules/redux-saga-test-plan/src/expectSaga/index.js:629-633 | a return value is now expected, and it is the given one |
| ExpectSaga.Harness.SetReturnValue | node_modules/redux-saga-test-plan/src/expectSaga/index.js:100-102 | the saga's return value is recorded |
| ExpectSaga.Harness.CheckExpectations | node_modules/redux-saga-test-plan/src/expectSaga/index.js:489-552 | the stores become Reconcile's; the first expectation whose outcome differs from its polarity is reported, else the return-value check decides |
| ExpectSaga.Harness.ApiDispatch | node_modules/redux-saga-test-plan/src/expectSaga/index.js:554-574 | a pending numeric delay is attached and reset to null; when running the action is dispatched, otherwise queued at the end |
| ExpectSaga.Harness.ApiDelay | node_modules/redux-saga-test-plan/src/expectSaga/index.js:635-638 | the delay for the next dispatch is set |
| ExpectSaga.Harness.WithState | node_modules/redux-saga-test-plan/src/expectSaga/index.js:608-611 | the store state is replaced |
| ExpectSaga.Harness.WithReducer | node_modules/redux-saga-test-plan/src/expectSaga/index.js:613-619 | the reducer is replaced and the state becomes ExtractState's |
| ExpectSaga.Harness.Provide | node_modules/redux-saga-test-plan/src/expectSaga/index.js:621-627 | the providers object is replaced |
| ExpectSaga.Harness.Start | node_modules/redux-saga-test-plan/src/expectSaga/index.js:576-591 | the harness is running |
| ExpectSaga.Harness.Run | node_modules/redux-saga-test-plan/src/expectSaga/index.js:601-606 | the harness is running and the stop follows ScheduleStopPlan on the defaulted timeout |

## Left out

- Timers, promises and the event loop:
  - `getAllPromises` with its `stopDirty` re-wait, the `Promise.race` against the timeout, `cancelMainTask` and `stop`;
  - `lib/utils/async.js`.
  
  Only the choice of the timeout argument is modelled. The order in which delayed dispatch handlers finish is a parameter of `RunDelayed`.
- `runSaga`, the saga monitor runtime and generator execution are not modelled: they belong to redux-saga. `Start` only sets the running flag.
- ExpectSaga.Harness.RefineYieldedValue: the rebuilt effects themselves are not modelled. These are `fn.apply`, `createSagaWrapper`, redux-saga's `race`/`fork`/`spawn`/`call` constructors, the recursion into the parts of a race or parallel, and the wrapping of takeEvery/takeLatest workers. The model gives only the branch taken and what it records. Those are calls into a library that is not part of this model.
- ExpectSaga.Harness.RefineCall: the `!==` identity test on the provided value is modelled as structural inequality. A provider that returns an equal but distinct object is treated like one that returns the effect itself.
- ExpectSaga.Harness.Expect: the effect creators of the non-"like" testers (`effects.call(...)` and so on) are not modelled. The tester receives the effect they would build.
- ExpectSaga.Harness.Provide: `coalesceProviders` for an array of providers objects is not modelled, because its source is not part of this model. Provider presence is key presence; a falsy provider value is not modelled.
- `lodash.isequal` and `===` are both modelled as `==` on values. The object identity of plain objects, NaN, floating point numbers and Map keys compared by identity are not modelled. `lodash.ismatch` and redux-saga's pattern matcher are function parameters.
- Error messages are tagged reasons carrying the values they print. `createErrorMessage`, `serializeEffect`, `reportActualEffects`, `serializeTakePattern`, `getFunctionName` and `util-inspect` formatting are not modelled.
- `deprecate` and `warn` output are not modelled: they only print.
- `sagaIdFactory` is a counter starting at 0, because its source is not part of this model.
- Listener calls are recorded in a trace. What a listener does when called is not modelled, nor is re-entrancy such as a listener dispatching.
- ExpectSagaModel.Dispatchable: `assign` copies only the properties of a plain-object action. An object's properties are one map, with no line between own and inherited ones, while `assign` copies only own enumerable properties; an action whose properties come from its prototype is therefore modelled as carrying them. Copying from strings and arrays is not modelled. A null action reaching `dispatch`'s `_delayTime` read, which throws, is not modelled.
- ValidateThrottleHelper.ValidateThrottleHelper: `fakeChannelCreator` is one function value, known by identity. Its body (a no-op unsubscribe) is never called by these checks. `eventChannel(fakeChannelCreator)` is evaluated once and the same channel value is fed to both generators, while the source calls it twice (validateThrottleHelper.js:51-52) and so hands each generator its own channel object; the model cannot tell two such channels apart.
- ProvideValue.ProvideValue: `next()` is the `NEXT` constructor itself. Providers are functions of the effect alone, since the `next` argument they receive always gives that one sentinel.
- Comparison.StepPair, ValidateTakeHelper.ValidateTakeHelper, ValidateThrottleHelper.ValidateThrottleHelper and ValidateEffects.ValidateEffects: these require the actual and the expected generator to be different objects. Passing the same generator object twice, which aliases them, is not modelled.

## Findings

| source | as written | input that shows it | evidently intended | confidence | as-written member | corrected member |
|---|---|---|---|---|---|---|
| node_modules/redux-saga-test-plan/src/expectSaga/index.js:395-398 | the unsubscribe function does `listeners.splice(listeners.indexOf(listener), 1)` without checking the index | subscribe listeners A and B, then call A's unsubscribe function twice: the second call finds index -1, and `splice(-1, 1)` removes B | remove the listener only when it is still subscribed, so a repeated unsubscribe changes nothing | medium, not executed | ExpectSagaModel.UnsubscribeTwiceDropsAnother | ExpectSagaModel.Unsubscribed |
