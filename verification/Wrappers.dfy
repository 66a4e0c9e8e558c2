/** Stock definitions shared by all modules. */
module Wrappers {
  datatype Option<+T> = None | Some(value: T)

  /** A witness for the loops that take the elements of a set in any order. */
  lemma SomeMember<T>(s: set<T>) returns (x: T)
    requires s != {}
    ensures x in s
  {
    assert s == {} <==> forall y :: y !in s;
    x :| x in s;
  }

  function Elements<T(==)>(list: seq<T>): set<T> {
    set x | x in list
  }

  predicate Distinct<T(==)>(list: seq<T>) {
    forall i, j :: 0 <= i < j < |list| ==> list[i] != list[j]
  }
}
