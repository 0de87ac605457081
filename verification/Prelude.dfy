/** Small vocabulary shared by every part of the model. */
module Prelude {

  datatype Option<+T> = None | Some(value: T)

  /** A textual form of a value: how it is read back and how it is written. */
  datatype Codec<!T(==)> = Codec(parse: string -> Option<T>, show: T -> string)

  /** Writing a value and reading the text back gives the value. */
  ghost predicate RoundTrips<T(!new)>(c: Codec<T>)
  {
    forall t: T :: c.parse(c.show(t)) == Some(t)
  }

  predicate Distinct<T(==)>(s: seq<T>)
  {
    forall i, j :: 0 <= i < j < |s| ==> s[i] != s[j]
  }

  /** `order` lists every element of `all` exactly once, in any order. */
  predicate Enumerates<T(==)>(order: seq<T>, all: set<T>)
  {
    && Distinct(order)
    && (forall x | x in order :: x in all)
    && (forall x | x in all :: x in order)
  }

  /** The elements of a hash set, in whatever order they come out. */
  method Iterate<T(==)>(all: set<T>) returns (order: seq<T>)
    ensures Enumerates(order, all)
  {
    order := [];
    var rest := all;
    while rest != {}
      invariant rest <= all && Enumerates(order, all - rest)
      decreases |rest|
    {
      var x :| x in rest;
      order := order + [x];
      rest := rest - {x};
    }
    assert all - rest == all;
  }
}
