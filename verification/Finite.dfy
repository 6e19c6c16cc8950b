/** Cardinalities of finite sets. */
module Finite {
  lemma SubsetSize<T>(a: set<T>, b: set<T>)
    requires a <= b
    ensures |a| <= |b|
  {
    assert b == a + (b - a);
  }

  lemma CardinalityDrops<T>(a: set<T>, b: set<T>)
    requires a < b
    ensures |a| < |b|
  {
    var rest := b - a;
    assert rest != {};
    assert b == a + rest;
    assert |b| == |a| + |rest|;
  }
}
