/** What the testSaga validators share: the reasons they report, the verdict
    of one comparison, stepping a generator object, and reading the parts of
    the effects a helper yields. */
module Comparison {
  import opened Values

  /** One constructor per error message the validators build; the values the
      message prints are carried, the formatting is not. */
  datatype Reason =
    | YieldedNothing(effectName: string)
    | HelperNameMismatch(expectedName: string, usedName: string)
    | YieldedParallel(effectName: string)
    | YieldedSingle
    | DifferentEffect(effectName: string)
    | EffectsDoNotMatch(effectName: string)
    | ExpectedDidNotTake(helper: string)
    | ActualDidNotTake(helper: string)
    | ExpectedNoActionChannel(helper: string)
    | ActualNoActionChannel(helper: string)
    | WatchPattern(helper: string, pattern: Value)
    | ExpectedDidNotFork(helper: string)
    | ActualDidNotFork(helper: string)
    | ForkFunction(helper: string, fn: Value)
    | ForkArguments(helper: string)
    | ExpectedNoDelay(helper: string)
    | ActualNoDelay(helper: string)
    | DelayMismatch(helper: string, delay: Value)

  /** The result of a validator: null (Pass), an error message for a step
      (Fail), or a TypeError thrown while reading a part that is not there
      (Crash). */
  datatype Verdict = Pass | Fail(reason: Reason, step: int) | Crash

  /** A helper comparison: its verdict and the argument of every next() call
      made on the expected and on the actual generator, in order. */
  datatype HelperRun = HelperRun(verdict: Verdict, expectedFed: seq<Value>, actualFed: seq<Value>)

  /** The objects a validator may advance: the cursor of a generator object. */
  function Frame(g: Value): set<object> {
    if g.Iter? then {g.cursor} else {}
  }

  /** What the next() calls on g will yield, or None when g is no generator
      object (calling next() on it throws). */
  function View(g: Value): Option<seq<Value>>
    reads Frame(g)
  {
    if g.Iter? then Some(g.cursor.upcoming) else None
  }

  /** The arguments of the next() calls made on g so far. */
  function Fed(g: Value): seq<Value>
    reads Frame(g)
  {
    if g.Iter? then g.cursor.fed else []
  }

  /** The actual and the expected generator are two different objects. */
  predicate Separate(actual: Value, expected: Value) {
    actual.Iter? && expected.Iter? ==> actual.cursor != expected.cursor
  }

  /** `expected.next(input).value` then `actual.next(input).value`, on the
      cursors of two different generator objects. */
  method StepPair(expected: Cursor, actual: Cursor, input: Value) returns (x: Value, y: Value)
    requires expected != actual
    modifies expected, actual
    ensures x == At(old(expected.upcoming), 0) && y == At(old(actual.upcoming), 0)
    ensures expected.upcoming == Tail(old(expected.upcoming)) && actual.upcoming == Tail(old(actual.upcoming))
    ensures expected.fed == old(expected.fed) + [input] && actual.fed == old(actual.fed) + [input]
  {
    x := expected.Next(input);
    y := actual.Next(input);
  }

  /** `v[tag].pattern` for a non-null v; None when v[tag] is null or
      undefined, where the source throws. */
  function PatternOf(v: Value, t: IoTag): Option<Value> {
    var part := Prop(v, t.Key());
    if part.IsNullish() then None else Some(Prop(part, "pattern"))
  }

  /** `const { fn, args } = v[FORK]` for a non-null v. */
  function ForkOf(v: Value): Option<(Value, Value)> {
    var part := Prop(v, FORK.Key());
    if part.IsNullish() then None else Some((Prop(part, "fn"), Prop(part, "args")))
  }

  /** `v[CALL].args[0]` for a non-null v. */
  function DelayOf(v: Value): Option<Value> {
    var part := Prop(v, CALL.Key());
    if part.IsNullish() then None
    else
      var args := Prop(part, "args");
      if args.IsNullish() then None else Some(First(args))
  }

  /** The fork step both helper validators share, on the fork effects the
      expected and the actual generator yielded. */
  function ForkStep(helper: string, step: int, expectedFork: Value, actualFork: Value): (r: Verdict)
    // a missing expected fork is reported before a missing actual one
    ensures expectedFork.IsNullish() ==> r == Fail(ExpectedDidNotFork(helper), step)
    ensures !expectedFork.IsNullish() && actualFork.IsNullish() ==> r == Fail(ActualDidNotFork(helper), step)
    // functions are compared by identity first; the error names the expected one
    ensures ForkOf(expectedFork).Some? && ForkOf(actualFork).Some?
              && ForkOf(expectedFork).value.0 != ForkOf(actualFork).value.0
            ==> r == Fail(ForkFunction(helper, ForkOf(expectedFork).value.0), step)
    // then the argument lists by deep equality
    ensures ForkOf(expectedFork).Some? && ForkOf(actualFork).Some?
              && ForkOf(expectedFork).value.0 == ForkOf(actualFork).value.0
              && ForkOf(expectedFork).value.1 != ForkOf(actualFork).value.1
            ==> r == Fail(ForkArguments(helper), step)
    ensures r == Pass <==> ForkOf(expectedFork).Some? && ForkOf(expectedFork) == ForkOf(actualFork)
    ensures r == Crash <==> !expectedFork.IsNullish() && !actualFork.IsNullish()
                            && (ForkOf(expectedFork).None? || ForkOf(actualFork).None?)
  {
    if expectedFork.IsNullish() then Fail(ExpectedDidNotFork(helper), step)
    else if actualFork.IsNullish() then Fail(ActualDidNotFork(helper), step)
    else
      match (ForkOf(expectedFork), ForkOf(actualFork))
      case (Some((expectedFn, expectedArgs)), Some((actualFn, actualArgs))) =>
        if expectedFn != actualFn then Fail(ForkFunction(helper, expectedFn), step)
        else if expectedArgs != actualArgs then Fail(ForkArguments(helper), step)
        else Pass
      case _ => Crash
  }
}
