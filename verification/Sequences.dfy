module Sequences {
  /** No element twice. */
  predicate Distinct<T(==)>(xs: seq<T>) {
    forall i, j :: 0 <= i < j < |xs| ==> xs[i] != xs[j]
  }

  function Repeat<X>(x: X, n: nat): seq<X> { seq(n, _ => x) }
}
