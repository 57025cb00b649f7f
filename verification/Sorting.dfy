/** Stable sorting by descending key. */
module Sorting {

  ghost predicate DescendingBy<T>(key: T -> real, xs: seq<T>) {
    forall i, j :: 0 <= i < j < |xs| ==> key(xs[i]) >= key(xs[j])
  }

  function Insert<T>(key: T -> real, xs: seq<T>, x: T): seq<T> {
    if xs == [] || key(xs[|xs| - 1]) >= key(x) then xs + [x]
    else Insert(key, xs[..|xs| - 1], x) + [xs[|xs| - 1]]
  }

  function SortBy<T>(key: T -> real, xs: seq<T>): seq<T> {
    if xs == [] then [] else Insert(key, SortBy(key, xs[..|xs| - 1]), xs[|xs| - 1])
  }

  lemma {:induction false} InsertPermutes<T>(key: T -> real, xs: seq<T>, x: T)
    ensures multiset(Insert(key, xs, x)) == multiset(xs) + multiset{x}
  {
    if xs != [] && key(xs[|xs| - 1]) < key(x) {
      InsertPermutes(key, xs[..|xs| - 1], x);
      assert xs == xs[..|xs| - 1] + [xs[|xs| - 1]];
    }
  }

  lemma {:induction false} InsertBounded<T>(key: T -> real, xs: seq<T>, x: T, c: real)
    requires key(x) >= c && forall i :: 0 <= i < |xs| ==> key(xs[i]) >= c
    ensures forall i :: 0 <= i < |Insert(key, xs, x)| ==> key(Insert(key, xs, x)[i]) >= c
  {
    if xs != [] && key(xs[|xs| - 1]) < key(x) { InsertBounded(key, xs[..|xs| - 1], x, c); }
  }

  lemma {:induction false} InsertSorts<T>(key: T -> real, xs: seq<T>, x: T)
    requires DescendingBy(key, xs)
    ensures DescendingBy(key, Insert(key, xs, x))
  {
    if xs != [] && key(xs[|xs| - 1]) < key(x) {
      InsertSorts(key, xs[..|xs| - 1], x);
      InsertBounded(key, xs[..|xs| - 1], x, key(xs[|xs| - 1]));
    }
  }

  /** The result is descending and has the same elements. */
  lemma {:induction false} SortBySorts<T>(key: T -> real, xs: seq<T>)
    ensures DescendingBy(key, SortBy(key, xs)) && multiset(SortBy(key, xs)) == multiset(xs)
  {
    if xs != [] {
      var n := |xs| - 1;
      SortBySorts(key, xs[..n]);
      InsertSorts(key, SortBy(key, xs[..n]), xs[n]);
      InsertPermutes(key, SortBy(key, xs[..n]), xs[n]);
      assert xs == xs[..n] + [xs[n]];
    }
  }
}
