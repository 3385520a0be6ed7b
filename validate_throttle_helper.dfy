/** Comparing two throttle helpers: both generators are advanced in
    lock-step through an action channel request, the take on that channel
    (fed a fake channel instead of being checked), a fork and a delay call. */
module ValidateThrottleHelper {
  import opened Values
  import opened Comparison

  /** fakeChannelCreator: the subscriber handed to eventChannel, one function
      object known by its identity. It never emits and returns a no-op
      unsubscribe, which these checks never call. */
  const FAKE_CHANNEL_CREATOR: Value := Func(0)

  /** The arguments of the four next() calls of a full comparison, given the
      channel that eventChannel(fakeChannelCreator) produced. */
  function ThrottleInputs(channel: Value): seq<Value> {
    [Undefined, channel, Undefined, Undefined]
  }

  /** Both generators request an action channel for the same pattern, fork
      the same function with the same arguments and call delay with the same
      first argument. */
  ghost predicate ThrottleHelpersAgree(e: Option<seq<Value>>, a: Option<seq<Value>>) {
    && e.Some? && a.Some?
    && !At(e.value, 0).IsNullish() && !At(a.value, 0).IsNullish()
    && PatternOf(At(e.value, 0), ACTION_CHANNEL).Some?
    && PatternOf(At(e.value, 0), ACTION_CHANNEL) == PatternOf(At(a.value, 0), ACTION_CHANNEL)
    && ForkOf(At(e.value, 2)).Some? && ForkOf(At(e.value, 2)) == ForkOf(At(a.value, 2))
    && DelayOf(At(e.value, 3)).Some?
    && DelayOf(At(e.value, 3)) == DelayOf(At(a.value, 3))
  }

  /** The delay step on the call effects the two generators yielded. */
  function DelayStep(helper: string, step: int, expectedCall: Value, actualCall: Value): (r: Verdict)
    ensures expectedCall.IsNullish() ==> r == Fail(ExpectedNoDelay(helper), step)
    ensures !expectedCall.IsNullish() && actualCall.IsNullish() ==> r == Fail(ActualNoDelay(helper), step)
    // delays are compared by strict equality; the error carries the expected delay
    ensures DelayOf(expectedCall).Some? && DelayOf(actualCall).Some? && DelayOf(expectedCall) != DelayOf(actualCall)
            ==> r == Fail(DelayMismatch(helper, DelayOf(expectedCall).value), step)
    ensures r == Pass <==> DelayOf(expectedCall).Some? && DelayOf(expectedCall) == DelayOf(actualCall)
  {
    if expectedCall.IsNullish() then Fail(ExpectedNoDelay(helper), step)
    else if actualCall.IsNullish() then Fail(ActualNoDelay(helper), step)
    else
      match (DelayOf(expectedCall), DelayOf(actualCall))
      case (Some(expectedDelay), Some(actualDelay)) =>
        if expectedDelay != actualDelay then Fail(DelayMismatch(helper, expectedDelay), step) else Pass
      case _ => Crash
  }

  /** The steps after the action channel request: the take on the channel
      is fed `channel` unchecked, then the forks are compared, then the delay
      calls. `e` and `a` are what the generators yield from the take on. */
  function ForkAndDelay(effectName: string, stepNumber: int, channel: Value,
                        e: seq<Value>, a: seq<Value>): (r: HelperRun)
    ensures r.expectedFed == r.actualFed
    ensures ForkStep(effectName, stepNumber, At(e, 1), At(a, 1)) != Pass
            ==> r == HelperRun(ForkStep(effectName, stepNumber, At(e, 1), At(a, 1)), [channel, Undefined], [channel, Undefined])
    ensures ForkStep(effectName, stepNumber, At(e, 1), At(a, 1)) == Pass
            ==> r == HelperRun(DelayStep(effectName, stepNumber, At(e, 2), At(a, 2)),
                               [channel, Undefined, Undefined], [channel, Undefined, Undefined])
    ensures r.verdict == Pass <==> && ForkOf(At(e, 1)).Some? && ForkOf(At(e, 1)) == ForkOf(At(a, 1))
                                   && DelayOf(At(e, 2)).Some? && DelayOf(At(e, 2)) == DelayOf(At(a, 2))
  {
    var fork := ForkStep(effectName, stepNumber, At(e, 1), At(a, 1));
    if fork != Pass then HelperRun(fork, [channel, Undefined], [channel, Undefined])
    else HelperRun(DelayStep(effectName, stepNumber, At(e, 2), At(a, 2)),
                   [channel, Undefined, Undefined], [channel, Undefined, Undefined])
  }

  /** The comparison on what the expected (e) and actual (a) generators will
      yield; `channel` is what eventChannel(fakeChannelCreator) returns. */
  function ThrottleHelperCheck(effectName: string, stepNumber: int, channel: Value,
                               e: Option<seq<Value>>, a: Option<seq<Value>>): (r: HelperRun)
    // every generator is fed a prefix of: nothing, the fake channel, nothing, nothing
    ensures r.expectedFed <= ThrottleInputs(channel) && r.actualFed <= ThrottleInputs(channel)
    ensures e.Some? ==> |r.expectedFed| >= 1
    ensures e.None? ==> r == HelperRun(Crash, [], [])
    // a missing expected action channel is reported before a missing actual one
    ensures e.Some? && a.Some? && At(e.value, 0).IsNullish()
            ==> r.verdict == Fail(ExpectedNoActionChannel(effectName), stepNumber)
    ensures e.Some? && a.Some? && !At(e.value, 0).IsNullish() && At(a.value, 0).IsNullish()
            ==> r.verdict == Fail(ActualNoActionChannel(effectName), stepNumber)
    // differing patterns give an error and neither generator is advanced further
    ensures e.Some? && a.Some? && !At(e.value, 0).IsNullish() && !At(a.value, 0).IsNullish()
              && PatternOf(At(e.value, 0), ACTION_CHANNEL).Some? && PatternOf(At(a.value, 0), ACTION_CHANNEL).Some?
              && PatternOf(At(e.value, 0), ACTION_CHANNEL) != PatternOf(At(a.value, 0), ACTION_CHANNEL)
            ==> r == HelperRun(Fail(WatchPattern(effectName, PatternOf(At(e.value, 0), ACTION_CHANNEL).value), stepNumber),
                               [Undefined], [Undefined])
    // past the pattern check, each generator has been fed the fake channel
    // exactly once, and the fork step decides next on the third yields
    ensures |r.expectedFed| >= 2 ==> r.expectedFed[1] == channel && |r.actualFed| >= 2 && r.actualFed[1] == channel
    ensures e.Some? && a.Some? && |r.expectedFed| >= 2 && ForkStep(effectName, stepNumber, At(e.value, 2), At(a.value, 2)) != Pass
            ==> r.verdict == ForkStep(effectName, stepNumber, At(e.value, 2), At(a.value, 2))
    // on success each generator has been advanced exactly four times
    ensures r.verdict == Pass ==> r.expectedFed == ThrottleInputs(channel) && r.actualFed == ThrottleInputs(channel)
    ensures r.verdict == Pass <==> ThrottleHelpersAgree(e, a)
  {
    if e.None? then HelperRun(Crash, [], [])
    else if a.None? then HelperRun(Crash, [Undefined], [])
    else ThrottleFrom(effectName, stepNumber, channel, e.value, a.value)
  }

  /** The action channel step on what the two generators first yielded:
      both must be action channel requests for the same pattern. */
  function ActionChannelStep(helper: string, step: int, expectedChannel: Value, actualChannel: Value): (r: Verdict)
    ensures expectedChannel.IsNullish() ==> r == Fail(ExpectedNoActionChannel(helper), step)
    ensures !expectedChannel.IsNullish() && actualChannel.IsNullish() ==> r == Fail(ActualNoActionChannel(helper), step)
    // patterns are compared by deep equality; the error carries the expected pattern
    ensures PatternOf(expectedChannel, ACTION_CHANNEL).Some? && PatternOf(actualChannel, ACTION_CHANNEL).Some?
              && PatternOf(expectedChannel, ACTION_CHANNEL) != PatternOf(actualChannel, ACTION_CHANNEL)
            ==> r == Fail(WatchPattern(helper, PatternOf(expectedChannel, ACTION_CHANNEL).value), step)
    ensures r == Pass <==> && PatternOf(expectedChannel, ACTION_CHANNEL).Some?
                           && PatternOf(expectedChannel, ACTION_CHANNEL) == PatternOf(actualChannel, ACTION_CHANNEL)
  {
    if expectedChannel.IsNullish() then Fail(ExpectedNoActionChannel(helper), step)
    else if actualChannel.IsNullish() then Fail(ActualNoActionChannel(helper), step)
    else
      match (PatternOf(expectedChannel, ACTION_CHANNEL), PatternOf(actualChannel, ACTION_CHANNEL))
      case (Some(expectedPattern), Some(actualPattern)) =>
        if actualPattern != expectedPattern then Fail(WatchPattern(helper, expectedPattern), step) else Pass
      case _ => Crash
  }

  /** The comparison once both sides are generator objects that will yield
      e and a. */
  function ThrottleFrom(effectName: string, stepNumber: int, channel: Value, e: seq<Value>, a: seq<Value>): HelperRun {
    var first := ActionChannelStep(effectName, stepNumber, At(e, 0), At(a, 0));
    if first != Pass then HelperRun(first, [Undefined], [Undefined])
    else
      AtTail(e, 1); AtTail(e, 2); AtTail(a, 1); AtTail(a, 2);
      assert [Undefined] + [channel, Undefined] == ThrottleInputs(channel)[..3];
      assert [Undefined] + [channel, Undefined, Undefined] == ThrottleInputs(channel);
      var rest := ForkAndDelay(effectName, stepNumber, channel, Tail(e), Tail(a));
      HelperRun(rest.verdict, [Undefined] + rest.expectedFed, [Undefined] + rest.actualFed)
  }

  /** From the take on the channel on, on the cursors of two generators past
      their action channel request. */
  method ForkAndDelaySteps(channel: Value, effectName: string, actual: Cursor, expected: Cursor, stepNumber: int)
    returns (r: Verdict)
    requires expected != actual
    modifies expected, actual
    ensures var run := ForkAndDelay(effectName, stepNumber, channel, old(expected.upcoming), old(actual.upcoming));
            && r == run.verdict
            && expected.fed == old(expected.fed) + run.expectedFed
            && actual.fed == old(actual.fed) + run.actualFed
  {
    ghost var e0, a0 := expected.upcoming, actual.upcoming;
    ghost var fedE, fedA := expected.fed, actual.fed;
    AtTail(e0, 0); AtTail(a0, 0); AtTail(e0, 1); AtTail(a0, 1);
    // the take on the channel is consumed without being checked
    var _, _ := StepPair(expected, actual, channel);
    ghost var e1, a1 := expected.upcoming, actual.upcoming;
    AtTail(e1, 0); AtTail(a1, 0);
    var expectedFork, actualFork := StepPair(expected, actual, Undefined);
    assert expectedFork == At(e0, 1) && actualFork == At(a0, 1);
    assert expected.fed == fedE + [channel, Undefined] && actual.fed == fedA + [channel, Undefined];
    r := ForkStep(effectName, stepNumber, expectedFork, actualFork);
    if r != Pass {
      return;
    }
    var expectedCall, actualCall := StepPair(expected, actual, Undefined);
    assert expectedCall == At(e0, 2) && actualCall == At(a0, 2);
    assert expected.fed == fedE + [channel, Undefined, Undefined] && actual.fed == fedA + [channel, Undefined, Undefined];
    r := DelayStep(effectName, stepNumber, expectedCall, actualCall);
  }

  /** The comparison once both sides are generator objects, on their cursors. */
  method ThrottleSteps(channel: Value, effectName: string, actual: Cursor, expected: Cursor, stepNumber: int)
    returns (r: Verdict)
    requires expected != actual
    modifies expected, actual
    ensures var run := ThrottleFrom(effectName, stepNumber, channel, old(expected.upcoming), old(actual.upcoming));
            && r == run.verdict
            && expected.fed == old(expected.fed) + run.expectedFed
            && actual.fed == old(actual.fed) + run.actualFed
  {
    ghost var e, fedE := expected.upcoming, expected.fed;
    ghost var a, fedA := actual.upcoming, actual.fed;
    ghost var run := ThrottleFrom(effectName, stepNumber, channel, e, a);
    var expectedActionChannel, actualActionChannel := StepPair(expected, actual, Undefined);
    r := ActionChannelStep(effectName, stepNumber, expectedActionChannel, actualActionChannel);
    if r != Pass {
      return;
    }
    ghost var rest := ForkAndDelay(effectName, stepNumber, channel, Tail(e), Tail(a));
    r := ForkAndDelaySteps(channel, effectName, actual, expected, stepNumber);
    AppendAssociates(fedE, [Undefined], rest.expectedFed);
    AppendAssociates(fedA, [Undefined], rest.actualFed);
  }

  method ValidateThrottleHelper(eventChannel: Value -> Value, effectName: string,
                                actual: Value, expected: Value, stepNumber: int) returns (r: Verdict)
    requires Separate(actual, expected)
    modifies Frame(actual), Frame(expected)
    ensures var run := ThrottleHelperCheck(effectName, stepNumber, eventChannel(FAKE_CHANNEL_CREATOR),
                                           old(View(expected)), old(View(actual)));
            && r == run.verdict
            && Fed(expected) == old(Fed(expected)) + run.expectedFed
            && Fed(actual) == old(Fed(actual)) + run.actualFed
  {
    var channel := eventChannel(FAKE_CHANNEL_CREATOR);
    if !expected.Iter? {
      return Crash;
    }
    if !actual.Iter? {
      // expected.next() runs before actual.next() throws
      var _ := expected.cursor.Next(Undefined);
      return Crash;
    }
    r := ThrottleSteps(channel, effectName, actual.cursor, expected.cursor, stepNumber);
  }
}
