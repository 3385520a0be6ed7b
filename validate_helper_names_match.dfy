/** The check that the helper the saga used is the helper the test expects,
    by the name in the helper's display name. */
module ValidateHelperNamesMatch {
  import opened Values
  import opened Comparison
  import opened ExtractSagaHelperEffectName

  /** `actual` is never null here: it is a helper object. Delegated helpers
      carry no `name`, and then nothing is checked. */
  function ValidateHelperNamesMatch(effectName: string, actual: Value, stepNumber: int): (r: Verdict)
    requires !actual.IsNullish()
    ensures !Prop(actual, "name").Str? ==> r == Pass
    ensures Prop(actual, "name").Str? && Extract(Prop(actual, "name").s) == effectName ==> r == Pass
    // a differing name is reported with both names
    ensures Prop(actual, "name").Str? && Extract(Prop(actual, "name").s) != effectName
            ==> r == Fail(HelperNameMismatch(effectName, Extract(Prop(actual, "name").s)), stepNumber)
    ensures r != Crash
  {
    match Prop(actual, "name")
    case Str(name) =>
      var actualEffectName := Extract(name);
      if actualEffectName != effectName then
        Fail(HelperNameMismatch(effectName, actualEffectName), stepNumber)
      else Pass
    case _ => Pass
  }
}
