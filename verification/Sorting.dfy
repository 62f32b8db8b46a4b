/** Sorting by an integer key: what collecting the entries of a map and sorting them comes to. */
module Sorting {

  ghost predicate Increasing<T(!new)>(xs: seq<T>, key: T -> int) {
    forall i, j :: 0 <= i < j < |xs| ==> key(xs[i]) < key(xs[j])
  }

  ghost predicate DistinctKeys<T(!new)>(xs: seq<T>, key: T -> int) {
    forall i, j :: 0 <= i < j < |xs| ==> key(xs[i]) != key(xs[j])
  }

  ghost predicate SameMembers<T(!new)>(xs: seq<T>, ys: seq<T>) {
    forall x :: x in xs <==> x in ys
  }

  function InsertBy<T>(x: T, xs: seq<T>, key: T -> int): seq<T> {
    if xs == [] then [x]
    else if key(x) <= key(xs[0]) then [x] + xs
    else [xs[0]] + InsertBy(x, xs[1..], key)
  }

  function SortBy<T>(xs: seq<T>, key: T -> int): seq<T> {
    if xs == [] then [] else InsertBy(xs[0], SortBy(xs[1..], key), key)
  }

  lemma {:induction false} InsertKeepsOrder<T(!new)>(x: T, xs: seq<T>, key: T -> int)
    requires Increasing(xs, key) && forall y :: y in xs ==> key(y) != key(x)
    ensures Increasing(InsertBy(x, xs, key), key) && SameMembers(InsertBy(x, xs, key), [x] + xs)
  {
    if xs != [] && key(x) > key(xs[0]) {
      InsertKeepsOrder(x, xs[1..], key);
      var rest := InsertBy(x, xs[1..], key);
      assert xs == [xs[0]] + xs[1..];
      forall i | 0 <= i < |rest| ensures key(xs[0]) < key(rest[i]) {
        assert rest[i] in [x] + xs[1..];
      }
    }
  }

  /** Sorting entries with distinct keys lists the same entries in increasing order. */
  lemma {:induction false} SortByOrders<T(!new)>(xs: seq<T>, key: T -> int)
    requires DistinctKeys(xs, key)
    ensures Increasing(SortBy(xs, key), key) && SameMembers(SortBy(xs, key), xs)
  {
    if xs != [] {
      SortByOrders(xs[1..], key);
      var sorted := SortBy(xs[1..], key);
      forall y | y in sorted ensures key(y) != key(xs[0]) {
        assert y in xs[1..];
      }
      InsertKeepsOrder(xs[0], sorted, key);
      assert xs == [xs[0]] + xs[1..];
    }
  }

  lemma {:induction false} InsertByLength<T>(x: T, xs: seq<T>, key: T -> int)
    ensures |InsertBy(x, xs, key)| == |xs| + 1
  {
    if xs != [] { InsertByLength(x, xs[1..], key); }
  }

  lemma {:induction false} SortByLength<T>(xs: seq<T>, key: T -> int)
    ensures |SortBy(xs, key)| == |xs|
  {
    if xs != [] {
      SortByLength(xs[1..], key);
      InsertByLength(xs[0], SortBy(xs[1..], key), key);
    }
  }

  /** There is only one increasing list of the same entries. */
  lemma {:induction false} IncreasingIsUnique<T(!new)>(xs: seq<T>, ys: seq<T>, key: T -> int)
    requires Increasing(xs, key) && Increasing(ys, key) && SameMembers(xs, ys)
    ensures xs == ys
  {
    assert xs != [] ==> xs[0] in ys;
    assert ys != [] ==> ys[0] in xs;
    if xs != [] {
      assert xs[0] == ys[0];
      forall x | x in xs[1..] ensures x in ys[1..] { assert x in ys; }
      forall y | y in ys[1..] ensures y in xs[1..] { assert y in xs; }
      IncreasingIsUnique(xs[1..], ys[1..], key);
    }
  }

  /** Any collection order, once sorted, gives the one increasing list of the entries. */
  lemma SortedCollection<T(!new)>(collected: seq<T>, listed: seq<T>, key: T -> int)
    requires DistinctKeys(collected, key) && Increasing(listed, key) && SameMembers(collected, listed)
    ensures SortBy(collected, key) == listed
  {
    SortByOrders(collected, key);
    IncreasingIsUnique(SortBy(collected, key), listed, key);
  }

  /** The next member that iteration happens to yield. */
  method Pick<T(==)>(members: set<T>) returns (x: T)
    requires members != {}
    ensures x in members
  {
    assert (forall y :: y !in members) ==> members == {};
    x :| x in members;
  }

  function Identity(x: int): int { x }

  /** The members of a set of numbers in increasing order. */
  method SortedMembers(members: set<int>) returns (list: seq<int>)
    ensures |list| == |members| && Increasing(list, Identity)
    ensures forall x :: x in list <==> x in members
  {
    var left, found := members, [];
    while left != {}
      invariant left <= members && |found| + |left| == |members|
      invariant DistinctKeys(found, Identity)
      invariant forall x :: x in found <==> x in members && x !in left
    {
      var x := Pick(left);
      left := left - {x};
      found := found + [x];
    }
    list := SortBy(found, Identity);
    SortByOrders(found, Identity);
    SortByLength(found, Identity);
  }
}
