/** The optional value shared by every component. */
module Wrappers {
  datatype Option<+T> = None | Some(value: T)
}

module Sets {
  lemma SubsetSize<T>(a: set<T>, b: set<T>)
    requires a <= b
    ensures |a| <= |b|
  {
    assert b == a + (b - a);
  }
}
