/** The two result shapes the whole model uses for Go's `(value, error)` pairs and nil pointers, and
    what a set of integers is without its elements. */
module Wrappers {
  datatype Option<+T> = None | Some(value: T)

  datatype Result<+T, +E> = Ok(value: T) | Err(error: E)

  lemma NoElements(s: set<int>)
    requires !exists k: int :: k in s
    ensures s == {}
  {
    assert forall k: int | k in s :: false;
  }

  lemma SomeElement(s: set<int>)
    requires s != {}
    ensures exists k: int :: k in s
  {
    if !exists k: int :: k in s {
      NoElements(s);
    }
  }
}
