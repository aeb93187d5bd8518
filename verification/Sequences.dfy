/** Facts about sequences. */
module Sequences {
  lemma AppendAssoc<T>(a: seq<T>, b: seq<T>, c: seq<T>)
    ensures (a + b) + c == a + (b + c)
  {
  }

  /** Without repetition. */
  ghost predicate Distinct<T>(s: seq<T>) {
    forall i, j :: 0 <= i < j < |s| ==> s[i] != s[j]
  }

  lemma DistinctCons<T>(x: T, s: seq<T>)
    ensures Distinct([x] + s) <==> x !in s && Distinct(s)
  {
    var all := [x] + s;
    assert forall k :: 0 <= k < |s| ==> s[k] == all[k + 1];
    if x in s {
      var k :| 0 <= k < |s| && s[k] == x;
      assert all[0] == all[k + 1];
    }
  }
}
