/** The stable descending sort behind `list.sort(key=..., reverse=True)` and `ORDER BY ... DESC`. */
module Sorting {

  function Insert<T>(x: T, xs: seq<T>, key: T -> real): (r: seq<T>)
    ensures |r| == |xs| + 1
  {
    if xs == [] then [x]
    else if key(x) > key(xs[0]) then [x] + xs
    else [xs[0]] + Insert(x, xs[1..], key)
  }

  function SortDescending<T>(xs: seq<T>, key: T -> real): seq<T> {
    if xs == [] then []
    else Insert(xs[|xs| - 1], SortDescending(xs[..|xs| - 1], key), key)
  }

  predicate Descending<T>(xs: seq<T>, key: T -> real) {
    forall i, j :: 0 <= i < j < |xs| ==> key(xs[i]) >= key(xs[j])
  }

  /** The elements with key `k`, in order. */
  function WithKey<T>(xs: seq<T>, key: T -> real, k: real): seq<T> {
    if xs == [] then []
    else (if key(xs[0]) == k then [xs[0]] else []) + WithKey(xs[1..], key, k)
  }

  predicate AllBelow<T>(xs: seq<T>, key: T -> real, b: real) {
    forall i :: 0 <= i < |xs| ==> key(xs[i]) <= b
  }

  lemma {:induction false} InsertBelow<T>(x: T, xs: seq<T>, key: T -> real, b: real)
    requires key(x) <= b && AllBelow(xs, key, b)
    ensures AllBelow(Insert(x, xs, key), key, b)
  {
    if xs != [] && key(x) <= key(xs[0]) {
      InsertBelow(x, xs[1..], key, b);
    }
  }

  lemma {:induction false} InsertIsOrdered<T>(x: T, xs: seq<T>, key: T -> real)
    requires Descending(xs, key)
    ensures Descending(Insert(x, xs, key), key)
  {
    if xs != [] && key(x) <= key(xs[0]) {
      InsertIsOrdered(x, xs[1..], key);
      InsertBelow(x, xs[1..], key, key(xs[0]));
    }
  }

  lemma {:induction false} WithKeyAppend<T>(xs: seq<T>, x: T, key: T -> real, k: real)
    ensures WithKey(xs + [x], key, k) == WithKey(xs, key, k) + (if key(x) == k then [x] else [])
  {
    if xs == [] {
      assert xs + [x] == [x];
    } else {
      WithKeyAppend(xs[1..], x, key, k);
      assert (xs + [x])[1..] == xs[1..] + [x];
    }
  }

  lemma {:induction false} NoneWithKey<T>(xs: seq<T>, key: T -> real, k: real)
    requires forall i :: 0 <= i < |xs| ==> key(xs[i]) != k
    ensures WithKey(xs, key, k) == []
  {
    if xs != [] {
      NoneWithKey(xs[1..], key, k);
    }
  }

  /** An inserted element comes after its equals. */
  lemma {:induction false} InsertIsStable<T>(x: T, xs: seq<T>, key: T -> real, k: real)
    requires Descending(xs, key)
    ensures WithKey(Insert(x, xs, key), key, k) == WithKey(xs, key, k) + (if key(x) == k then [x] else [])
  {
    if xs == [] {
      WithKeyCons(x, [], key, k);
    } else if key(x) > key(xs[0]) {
      if key(x) == k { NoneWithKey(xs, key, k); }
      WithKeyCons(x, xs, key, k);
    } else {
      var rest := xs[1..];
      InsertIsStable(x, rest, key, k);
      WithKeyCons(xs[0], Insert(x, rest, key), key, k);
      WithKeyCons(xs[0], rest, key, k);
      assert xs == [xs[0]] + rest;
    }
  }

  lemma {:induction false} WithKeyCons<T>(x: T, xs: seq<T>, key: T -> real, k: real)
    ensures WithKey([x] + xs, key, k) == (if key(x) == k then [x] else []) + WithKey(xs, key, k)
  {
    assert ([x] + xs)[1..] == xs;
  }

  /** Sorting orders by descending key, keeps exactly the elements, and keeps equal ones in their order. */
  lemma {:induction false} SortIsStable<T>(xs: seq<T>, key: T -> real, k: real)
    ensures Descending(SortDescending(xs, key), key)
    ensures WithKey(SortDescending(xs, key), key, k) == WithKey(xs, key, k)
  {
    if xs != [] {
      var n := |xs| - 1;
      SortIsStable(xs[..n], key, k);
      InsertIsOrdered(xs[n], SortDescending(xs[..n], key), key);
      InsertIsStable(xs[n], SortDescending(xs[..n], key), key, k);
      WithKeyAppend(xs[..n], xs[n], key, k);
      assert xs == xs[..n] + [xs[n]];
    }
  }

  lemma {:induction false} InsertMultiset<T>(x: T, xs: seq<T>, key: T -> real)
    ensures multiset(Insert(x, xs, key)) == multiset(xs) + multiset{x}
  {
    if xs != [] && key(x) <= key(xs[0]) {
      InsertMultiset(x, xs[1..], key);
      assert xs == [xs[0]] + xs[1..];
    }
  }

  lemma {:induction false} SortMultiset<T>(xs: seq<T>, key: T -> real)
    ensures multiset(SortDescending(xs, key)) == multiset(xs)
  {
    if xs != [] {
      var n := |xs| - 1;
      SortMultiset(xs[..n], key);
      InsertMultiset(xs[n], SortDescending(xs[..n], key), key);
      assert xs == xs[..n] + [xs[n]];
    }
  }
}
