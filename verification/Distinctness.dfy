/** Sequences without repetition, and the set-cardinality test the source uses for them. */
module Distinctness {

  predicate Distinct<T(==)>(s: seq<T>) {
    forall i, j | 0 <= i < j < |s| :: s[i] != s[j]
  }

  function Members<T>(s: seq<T>): set<T> {
    set x | x in s
  }

  /** A list with as many distinct members as entries repeats nothing, and no other list does. */
  lemma {:induction false} FullCardinalityIsDistinct<T>(s: seq<T>)
    ensures |Members(s)| <= |s|
    ensures |Members(s)| == |s| <==> Distinct(s)
  {
    if |s| > 0 {
      var n := |s| - 1;
      var before := s[..n];
      FullCardinalityIsDistinct(before);
      assert s == before + [s[n]];
      assert Members(s) == Members(before) + {s[n]};
      assert forall i | 0 <= i < n :: before[i] == s[i];
      assert s[n] in Members(before) <==> exists i | 0 <= i < n :: s[i] == s[n];
    }
  }
}
