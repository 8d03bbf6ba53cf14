/** Counting finite sets. */
module FiniteSets {

  lemma {:induction false} SubsetCount<T>(a: set<T>, b: set<T>)
    requires a <= b
    ensures |a| <= |b|
    decreases |a|
  {
    if k :| k in a {
      SubsetCount(a - {k}, b - {k});
    }
  }

  lemma SubsetSize<T>(a: set<T>, b: set<T>)
    requires a <= b && |a| == |b|
    ensures a == b
  {
    if k :| k in b && k !in a {
      assert a <= b - {k};
      SubsetCount(a, b - {k});
    }
  }
}
