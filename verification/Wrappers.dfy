/** Option, and a fact about sets, shared by every component. */
module Wrappers {
  datatype Option<+T> = None | Some(value: T)

  lemma CountSubset<T>(a: set<T>, b: set<T>)
    requires a <= b
    ensures |a| <= |b|
  {
    assert b == a + (b - a);
    assert |b| == |a| + |b - a|;
  }
}
