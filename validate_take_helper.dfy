/** Comparing two take-style helpers (takeEvery, takeLatest, ...): both
    generators are advanced in lock-step, first to their take effect, then to
    their fork effect. */
module ValidateTakeHelper {
  import opened Values
  import opened Comparison

  /** The two generators agree: each yields a take of the same pattern, then
      a fork of the same function with the same arguments. */
  ghost predicate TakeHelpersAgree(e: Option<seq<Value>>, a: Option<seq<Value>>) {
    && e.Some? && a.Some?
    && !At(e.value, 0).IsNullish() && !At(a.value, 0).IsNullish()
    && PatternOf(At(e.value, 0), TAKE).Some?
    && PatternOf(At(e.value, 0), TAKE) == PatternOf(At(a.value, 0), TAKE)
    && !At(e.value, 1).IsNullish() && !At(a.value, 1).IsNullish()
    && ForkOf(At(e.value, 1)).Some?
    && ForkOf(At(e.value, 1)) == ForkOf(At(a.value, 1))
  }

  /** The comparison on what the expected (e) and actual (a) generators will
      yield; None stands for an object without next(). */
  function TakeHelperCheck(effectName: string, stepNumber: int, e: Option<seq<Value>>, a: Option<seq<Value>>): (r: HelperRun)
    // each generator is advanced once before the pattern check, at most twice in all,
    // and always with no argument
    ensures e.Some? ==> 1 <= |r.expectedFed| <= 2
    ensures |r.actualFed| <= 2
    ensures forall i :: 0 <= i < |r.expectedFed| ==> r.expectedFed[i] == Undefined
    ensures forall i :: 0 <= i < |r.actualFed| ==> r.actualFed[i] == Undefined
    ensures e.None? ==> r == HelperRun(Crash, [], [])
    // a missing expected take is reported before a missing actual take
    ensures e.Some? && a.Some? && At(e.value, 0).IsNullish()
            ==> r.verdict == Fail(ExpectedDidNotTake(effectName), stepNumber)
    ensures e.Some? && a.Some? && !At(e.value, 0).IsNullish() && At(a.value, 0).IsNullish()
            ==> r.verdict == Fail(ActualDidNotTake(effectName), stepNumber)
    // patterns that differ stop the comparison before the fork step
    ensures e.Some? && a.Some? && !At(e.value, 0).IsNullish() && !At(a.value, 0).IsNullish()
              && PatternOf(At(e.value, 0), TAKE).Some? && PatternOf(At(a.value, 0), TAKE).Some?
              && PatternOf(At(e.value, 0), TAKE) != PatternOf(At(a.value, 0), TAKE)
            ==> r == HelperRun(Fail(WatchPattern(effectName, PatternOf(At(e.value, 0), TAKE).value), stepNumber),
                               [Undefined], [Undefined])
    // after matching patterns, the verdict is that of the fork step on the second yields
    ensures e.Some? && a.Some? && !At(e.value, 0).IsNullish() && !At(a.value, 0).IsNullish()
              && PatternOf(At(e.value, 0), TAKE).Some?
              && PatternOf(At(e.value, 0), TAKE) == PatternOf(At(a.value, 0), TAKE)
            ==> r == HelperRun(ForkStep(effectName, stepNumber, At(e.value, 1), At(a.value, 1)),
                               [Undefined, Undefined], [Undefined, Undefined])
    // null exactly when both steps are there and agree
    ensures r.verdict == Pass <==> TakeHelpersAgree(e, a)
  {
    if e.None? then HelperRun(Crash, [], [])
    else if a.None? then HelperRun(Crash, [Undefined], [])
    else
      var expectedTake, actualTake := At(e.value, 0), At(a.value, 0);
      if expectedTake.IsNullish() then HelperRun(Fail(ExpectedDidNotTake(effectName), stepNumber), [Undefined], [Undefined])
      else if actualTake.IsNullish() then HelperRun(Fail(ActualDidNotTake(effectName), stepNumber), [Undefined], [Undefined])
      else
        match (PatternOf(expectedTake, TAKE), PatternOf(actualTake, TAKE))
        case (Some(expectedPattern), Some(actualPattern)) =>
          if actualPattern != expectedPattern then
            HelperRun(Fail(WatchPattern(effectName, expectedPattern), stepNumber), [Undefined], [Undefined])
          else
            HelperRun(ForkStep(effectName, stepNumber, At(e.value, 1), At(a.value, 1)), [Undefined, Undefined], [Undefined, Undefined])
        case _ => HelperRun(Crash, [Undefined], [Undefined])
  }

  method ValidateTakeHelper(effectName: string, actual: Value, expected: Value, stepNumber: int) returns (r: Verdict)
    requires Separate(actual, expected)
    modifies Frame(actual), Frame(expected)
    ensures var run := TakeHelperCheck(effectName, stepNumber, old(View(expected)), old(View(actual)));
            && r == run.verdict
            && Fed(expected) == old(Fed(expected)) + run.expectedFed
            && Fed(actual) == old(Fed(actual)) + run.actualFed
  {
    if !expected.Iter? {
      return Crash;
    }
    var ec := expected.cursor;
    ghost var e, fedE := ec.upcoming, ec.fed;
    var expectedTake := ec.Next(Undefined);
    if !actual.Iter? {
      return Crash;
    }
    var ac := actual.cursor;
    ghost var a, fedA := ac.upcoming, ac.fed;
    var actualTake := ac.Next(Undefined);
    if expectedTake.IsNullish() {
      return Fail(ExpectedDidNotTake(effectName), stepNumber);
    }
    if actualTake.IsNullish() {
      return Fail(ActualDidNotTake(effectName), stepNumber);
    }
    var expectedPattern := PatternOf(expectedTake, TAKE);
    var actualPattern := PatternOf(actualTake, TAKE);
    if expectedPattern.None? || actualPattern.None? {
      return Crash;
    }
    if actualPattern.value != expectedPattern.value {
      return Fail(WatchPattern(effectName, expectedPattern.value), stepNumber);
    }
    var expectedFork, actualFork := StepPair(ec, ac, Undefined);
    AtTail(e, 0); AtTail(a, 0);
    assert ec.fed == fedE + [Undefined, Undefined] && ac.fed == fedA + [Undefined, Undefined];
    r := ForkStep(effectName, stepNumber, expectedFork, actualFork);
  }
}
