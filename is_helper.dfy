/** testSaga's test for a helper effect: an object carrying the HELPER marker. */
module IsHelper {
  import opened Values

  /** `typeof v === 'object' && v != null && HELPER in v`. */
  function IsHelper(v: Value): (r: bool)
    ensures v.IsNullish() ==> !r
    ensures !v.IsObject() ==> !r
    ensures v.IsObject() && !v.IsNullish() ==> (r <==> Has(v, HELPER))
    // Only marked generator objects and plain objects holding the key qualify:
    // arrays, effect objects and promises never do.
    ensures r <==> (v.Iter? && v.marked) || (v.Obj? && HELPER in v.props)
  {
    v.IsObject() && !v.IsNullish() && Has(v, HELPER)
  }
}
