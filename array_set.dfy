/** The effect stores of expectSaga: ArraySet, a list of values that `add`
    appends to and `delete` / `deleteBy` remove one item from, and the index
    search findDispatchableActionIndex shares with them. */
module ArraySet {
  import opened Values

  /** The index of the first item satisfying p, or -1. */
  function IndexWhere(s: seq<Value>, p: Value -> bool): (i: int)
    ensures -1 <= i < |s|
    ensures i == -1 <==> forall j :: 0 <= j < |s| ==> !p(s[j])
    ensures i >= 0 ==> p(s[i]) && forall j :: 0 <= j < i ==> !p(s[j])
  {
    if s == [] then -1
    else if p(s[0]) then 0
    else
      var k := IndexWhere(s[1..], p);
      assert forall j :: 1 <= j < |s| ==> s[j] == s[1..][j - 1];
      if k == -1 then -1 else k + 1
  }

  /** Predicates that agree on every item find the same index. */
  lemma IndexWhereAgree(s: seq<Value>, p: Value -> bool, q: Value -> bool)
    requires forall j :: 0 <= j < |s| ==> p(s[j]) == q(s[j])
    ensures IndexWhere(s, p) == IndexWhere(s, q)
  {
  }

  /** The list without its item at index i. */
  function RemoveAt(s: seq<Value>, i: nat): (r: seq<Value>)
    requires i < |s|
    ensures |r| == |s| - 1
    ensures multiset(r) + multiset{s[i]} == multiset(s)
    ensures forall j :: 0 <= j < i ==> r[j] == s[j]
    ensures forall j :: i <= j < |r| ==> r[j] == s[j + 1]
  {
    assert s == s[..i] + [s[i]] + s[i + 1..];
    s[..i] + s[i + 1..]
  }

  /** deleteBy(p): removes the first item satisfying p; whether one was found. */
  function DeleteBy(s: seq<Value>, p: Value -> bool): (r: (bool, seq<Value>))
    ensures r.0 <==> exists j :: 0 <= j < |s| && p(s[j])
    ensures !r.0 ==> r.1 == s
    // exactly one item goes, the first that satisfies p, and the rest keep their order
    ensures r.0 ==> var i := IndexWhere(s, p); r.1 == RemoveAt(s, i)
    ensures r.0 ==> |r.1| == |s| - 1 && multiset(r.1) <= multiset(s)
  {
    var i := IndexWhere(s, p);
    if i == -1 then
      (false, s)
    else
      assert p(s[i]);
      (true, RemoveAt(s, i))
  }

  /** delete(x): removes one occurrence of x; whether there was one. */
  function Delete(s: seq<Value>, x: Value): (r: (bool, seq<Value>))
    ensures r.0 <==> x in s
    ensures !r.0 ==> r.1 == s
    ensures r.0 ==> multiset(r.1) == multiset(s) - multiset{x}
  {
    var i := IndexWhere(s, v => v == x);
    if i == -1 then
      assert forall j :: 0 <= j < |s| ==> s[j] != x;
      (false, s)
    else
      assert s[i] == x;
      var rest := RemoveAt(s, i);
      (true, rest)
  }

  /** The occurrence delete removes is the first one, and the rest keep their order. */
  lemma DeleteRemovesFirst(s: seq<Value>, x: Value)
    ensures var i := IndexWhere(s, v => v == x);
            Delete(s, x).0 ==> 0 <= i && Delete(s, x).1 == RemoveAt(s, i)
  {
  }

  /** delete undoes add: the item just added is found and removed, and the
      store holds what it held before. */
  lemma DeleteUndoesAdd(s: seq<Value>, x: Value)
    ensures Delete(s + [x], x).0
    ensures multiset(Delete(s + [x], x).1) == multiset(s)
  {
    assert (s + [x])[|s|] == x;
    assert multiset(s + [x]) == multiset(s) + multiset{x};
  }

  /** A second delete of the same item only succeeds if the store held it twice. */
  lemma DeleteTwice(s: seq<Value>, x: Value)
    requires multiset(s)[x] == 1
    ensures Delete(s, x).0
    ensures !Delete(Delete(s, x).1, x).0
  {
    assert x in multiset(s);
    var rest := Delete(s, x).1;
    assert multiset(rest)[x] == 0;
  }
}
