/** Small facts about products and set sizes that several proofs use. */
module Arithmetic {
  lemma MulOrder(a: int, b: int, c: int)
    requires a <= b && c >= 0
    ensures a * c <= b * c
  {
    assert (b - a) * c >= 0;
  }

  lemma SubsetSize<T>(a: set<T>, b: set<T>)
    requires a <= b
    ensures |a| <= |b| && (|a| == |b| <==> a == b) && (b <= a <==> a == b)
  {
    assert b == a + (b - a);
  }
}
