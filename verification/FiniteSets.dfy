/** Facts about the size of finite sets: that a subset is no larger than the set it lies in, and that one at least
    as large is the whole set. Both job stores are bounded, and counting entries rests on these. */
module FiniteSets {

  lemma SubsetIsSmaller(a: set<string>, b: set<string>)
    requires a <= b
    ensures |a| <= |b|
  {
    assert |b - a| == |b| - |a|;
  }

  lemma SubsetOfEqualSize(a: set<string>, b: set<string>)
    requires a <= b && |a| >= |b|
    ensures a == b
  {
    assert |b - a| == |b| - |a|;
  }
}
