/** The helper name in a helper's display name: `name.replace(/^(\w+)\(.*$/, '$1')`,
    so "takeEvery(FOO, worker)" becomes "takeEvery". */
module ExtractSagaHelperEffectName {

  /** `\w`: an ASCII letter, a digit or the underscore. */
  predicate IsWordChar(c: char) {
    ('a' <= c <= 'z') || ('A' <= c <= 'Z') || ('0' <= c <= '9') || c == '_'
  }

  /** The characters `.` does not match without the `s` flag. */
  predicate IsLineTerminator(c: char) {
    c == '\n' || c == '\r' || c == '\U{2028}' || c == '\U{2029}'
  }

  predicate AllWord(s: string) {
    forall i :: 0 <= i < |s| ==> IsWordChar(s[i])
  }

  predicate NoLineTerminator(s: string) {
    forall i :: 0 <= i < |s| ==> !IsLineTerminator(s[i])
  }

  /** The regular expression matches `name` with group 1 = name[..k]:
      k word characters, an opening parenthesis, then no line terminator up to
      the end. */
  predicate MatchesAt(name: string, k: nat) {
    0 < k < |name| && AllWord(name[..k]) && name[k] == '(' && NoLineTerminator(name[k + 1..])
  }

  /** The length of the run of word characters that starts the string. */
  function WordRun(s: string): (n: nat)
    ensures n <= |s|
    ensures AllWord(s[..n])
    ensures n < |s| ==> !IsWordChar(s[n])
  {
    if s == [] || !IsWordChar(s[0]) then 0
    else
      var n := 1 + WordRun(s[1..]);
      assert s[..n] == [s[0]] + s[1..][..n - 1];
      n
  }

  /** A prefix of word characters is inside the initial run. */
  lemma {:induction false} WordRunCovers(s: string, k: nat)
    requires k <= |s| && AllWord(s[..k])
    ensures k <= WordRun(s)
  {
    if k > 0 {
      assert IsWordChar(s[..k][0]);
      assert s[1..][..k - 1] == s[..k][1..];
      WordRunCovers(s[1..], k - 1);
    }
  }

  /** The only place the regular expression can match is at the end of the run. */
  lemma MatchIsAtWordRun(name: string, k: nat)
    requires MatchesAt(name, k)
    ensures k == WordRun(name)
  {
    WordRunCovers(name, k);
  }

  function Extract(name: string): (r: string)
    // the result is always a prefix of the input
    ensures r <= name
    // a match yields its captured word ...
    ensures forall k: nat :: MatchesAt(name, k) ==> r == name[..k]
    // ... and a name the pattern does not match comes back unchanged
    ensures r != name ==> MatchesAt(name, |r|)
  {
    var k := WordRun(name);
    if 0 < k < |name| && name[k] == '(' && NoLineTerminator(name[k + 1..]) then
      forall j: nat | MatchesAt(name, j) ensures name[..k] == name[..j] {
        MatchIsAtWordRun(name, j);
      }
      name[..k]
    else
      forall j: nat | MatchesAt(name, j) ensures false {
        MatchIsAtWordRun(name, j);
      }
      name
  }

  /** For name = w + "(" + rest, with w a non-empty run of word characters
      and rest free of line terminators, the result is w. */
  lemma ExtractWordCall(w: string, rest: string)
    requires |w| > 0 && AllWord(w) && NoLineTerminator(rest)
    ensures Extract(w + "(" + rest) == w
  {
    var name := w + "(" + rest;
    assert name[..|w|] == w;
    assert name[|w| + 1..] == rest;
    assert MatchesAt(name, |w|);
  }

  /** Extracting twice is extracting once. */
  lemma ExtractIdempotent(name: string)
    ensures Extract(Extract(name)) == Extract(name)
  {
    var r := Extract(name);
    if r != name {
      assert MatchesAt(name, |r|);
      assert r == name[..|r|] && r[..|r|] == r;
      // r is all word characters, so its run covers it and nothing follows
      WordRunCovers(r, |r|);
    }
  }
}
