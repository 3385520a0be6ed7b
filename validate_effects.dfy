/** validateEffects: the comparison of what a saga yielded at one step
    (actual) with what the test expects there (expected). */
module ValidateEffects {
  import opened Values
  import opened Comparison
  import opened IsHelper
  import opened ValidateHelperNamesMatch
  import opened ValidateTakeHelper
  import opened ValidateThrottleHelper

  /** The effect name the messages report. */
  function FinalEffectName(effectName: string, expected: Value): (r: string)
    // the suffix " helper" is added exactly when `expected` is a helper
    ensures IsHelper.IsHelper(expected) <==> r == effectName + " helper"
    ensures !IsHelper.IsHelper(expected) ==> r == effectName
  {
    if IsHelper.IsHelper(expected) then effectName + " helper" else effectName
  }

  /** Both sides are helper objects and neither is an array: the comparison
      is left to the helper validators. */
  predicate BothHelpers(actual: Value, expected: Value) {
    !actual.Arr? && IsHelper.IsHelper(actual) && !expected.Arr? && IsHelper.IsHelper(expected)
  }

  /** The part of the decision chain after the helper branch, for a non-null
      actual: parallel against single, the effect key, deep equality. */
  function PlainCheck(effectName: string, effectKey: string, isHelperEffect: bool,
                      actual: Value, expected: Value, stepNumber: int): (r: Verdict)
    requires !actual.IsNullish()
    ensures actual.Arr? && !expected.Arr? ==> r == Fail(YieldedParallel(FinalEffectName(effectName, expected)), stepNumber)
    ensures !actual.Arr? && expected.Arr? ==> r == Fail(YieldedSingle, stepNumber)
    // null only for deep-equal sides, and then only if a non-array side carries the key
    ensures r == Pass <==> actual == expected && (isHelperEffect || actual.Arr? || Prop(actual, effectKey).IsTruthy())
    // a side without the effect key is a different effect
    ensures !isHelperEffect && actual.Arr? == expected.Arr? && !actual.Arr? && !Prop(actual, effectKey).IsTruthy()
            ==> r == Fail(DifferentEffect(FinalEffectName(effectName, expected)), stepNumber)
    ensures !isHelperEffect && actual.Arr? == expected.Arr? && !expected.Arr? && !expected.IsNullish()
              && !Prop(expected, effectKey).IsTruthy()
            ==> r == Fail(DifferentEffect(FinalEffectName(effectName, expected)), stepNumber)
    // for a helper effect, unequal sides are a different effect, never a mismatch
    ensures isHelperEffect && actual.Arr? == expected.Arr? && actual != expected
            ==> r == Fail(DifferentEffect(FinalEffectName(effectName, expected)), stepNumber)
    ensures r.Fail? && r.reason.EffectsDoNotMatch? ==> !isHelperEffect && actual != expected
    // reading the key of a null expected value throws
    ensures r == Crash <==> !isHelperEffect && expected.IsNullish() && !actual.Arr? && Prop(actual, effectKey).IsTruthy()
  {
    var finalEffectName := FinalEffectName(effectName, expected);
    if actual.Arr? && !expected.Arr? then Fail(YieldedParallel(finalEffectName), stepNumber)
    else if !actual.Arr? && expected.Arr? then Fail(YieldedSingle, stepNumber)
    else
      var bothEqual := actual == expected;
      if isHelperEffect then
        if !bothEqual then Fail(DifferentEffect(finalEffectName), stepNumber) else Pass
      else if !actual.Arr? && !Prop(actual, effectKey).IsTruthy() then Fail(DifferentEffect(finalEffectName), stepNumber)
      else if !expected.Arr? && expected.IsNullish() then Crash
      else if !expected.Arr? && !Prop(expected, effectKey).IsTruthy() then Fail(DifferentEffect(finalEffectName), stepNumber)
      else if !bothEqual then Fail(EffectsDoNotMatch(finalEffectName), stepNumber)
      else Pass
  }

  /** The whole decision chain, on the two yielded values and on what each of
      them will yield when it is a generator object (e, a); `channel` is what
      eventChannel(fakeChannelCreator) returns. */
  function EffectsCheck(channel: Value, effectName: string, effectKey: string, isHelperEffect: bool,
                        actual: Value, expected: Value, stepNumber: int,
                        e: Option<seq<Value>>, a: Option<seq<Value>>): (r: HelperRun)
    // nothing yielded is reported whatever was expected
    ensures actual.IsNullish()
            ==> r == HelperRun(Fail(YieldedNothing(FinalEffectName(effectName, expected)), stepNumber), [], [])
    // two helpers are compared by the helper checks alone: names first ...
    ensures !actual.IsNullish() && BothHelpers(actual, expected)
              && ValidateHelperNamesMatch.ValidateHelperNamesMatch(effectName, actual, stepNumber) != Pass
            ==> r == HelperRun(ValidateHelperNamesMatch.ValidateHelperNamesMatch(effectName, actual, stepNumber), [], [])
    // ... then the throttle steps for "throttle" ...
    ensures !actual.IsNullish() && BothHelpers(actual, expected)
              && ValidateHelperNamesMatch.ValidateHelperNamesMatch(effectName, actual, stepNumber) == Pass && effectName == "throttle"
            ==> r == ThrottleHelperCheck(effectName, stepNumber, channel, e, a)
    // ... and the take steps for every other helper
    ensures !actual.IsNullish() && BothHelpers(actual, expected)
              && ValidateHelperNamesMatch.ValidateHelperNamesMatch(effectName, actual, stepNumber) == Pass && effectName != "throttle"
            ==> r == TakeHelperCheck(effectName, stepNumber, e, a)
    // outside the helper branch no generator is advanced, and null means deep-equal
    ensures !actual.IsNullish() && !BothHelpers(actual, expected)
            ==> r == HelperRun(PlainCheck(effectName, effectKey, isHelperEffect, actual, expected, stepNumber), [], [])
    ensures !BothHelpers(actual, expected) && r.verdict == Pass ==> actual == expected
  {
    if actual.IsNullish() then
      HelperRun(Fail(YieldedNothing(FinalEffectName(effectName, expected)), stepNumber), [], [])
    else if BothHelpers(actual, expected) then
      var names := ValidateHelperNamesMatch.ValidateHelperNamesMatch(effectName, actual, stepNumber);
      if names != Pass then HelperRun(names, [], [])
      else if effectName == "throttle" then ThrottleHelperCheck(effectName, stepNumber, channel, e, a)
      else TakeHelperCheck(effectName, stepNumber, e, a)
    else
      HelperRun(PlainCheck(effectName, effectKey, isHelperEffect, actual, expected, stepNumber), [], [])
  }

  method ValidateEffects(eventChannel: Value -> Value, effectName: string, effectKey: string,
                         isHelperEffect: bool, actual: Value, expected: Value, stepNumber: int)
    returns (r: Verdict)
    requires Separate(actual, expected)
    modifies Frame(actual), Frame(expected)
    ensures var run := EffectsCheck(eventChannel(FAKE_CHANNEL_CREATOR), effectName, effectKey, isHelperEffect,
                                    actual, expected, stepNumber, old(View(expected)), old(View(actual)));
            && r == run.verdict
            && Fed(expected) == old(Fed(expected)) + run.expectedFed
            && Fed(actual) == old(Fed(actual)) + run.actualFed
  {
    if actual.IsNullish() {
      return Fail(YieldedNothing(FinalEffectName(effectName, expected)), stepNumber);
    }
    if BothHelpers(actual, expected) {
      r := ValidateHelperNamesMatch.ValidateHelperNamesMatch(effectName, actual, stepNumber);
      if r != Pass {
        return;
      }
      if effectName == "throttle" {
        r := ValidateThrottleHelper.ValidateThrottleHelper(eventChannel, effectName, actual, expected, stepNumber);
      } else {
        r := ValidateTakeHelper.ValidateTakeHelper(effectName, actual, expected, stepNumber);
      }
      return;
    }
    r := PlainCheck(effectName, effectKey, isHelperEffect, actual, expected, stepNumber);
  }
}
