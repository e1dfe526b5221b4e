/**
  `list.sort(key=..., reverse=True)` and `order_by('-field')`: a stable sort
  into descending key order, written as insertion sort.
*/
module Sorting {

  predicate SortedDesc<T>(xs: seq<T>, key: T -> int)
  {
    forall i, j | 0 <= i < j < |xs| :: key(xs[i]) >= key(xs[j])
  }

  /** The elements of `xs` whose key is `k`, in their order in `xs`. */
  function WithKey<T>(xs: seq<T>, key: T -> int, k: int): seq<T>
  {
    if xs == [] then []
    else (if key(xs[0]) == k then [xs[0]] else []) + WithKey(xs[1..], key, k)
  }

  /** `x` placed before the first element whose key is not larger. */
  function Insert<T>(x: T, ys: seq<T>, key: T -> int): seq<T>
  {
    if ys == [] || key(x) >= key(ys[0]) then [x] + ys
    else [ys[0]] + Insert(x, ys[1..], key)
  }

  function SortDesc<T>(xs: seq<T>, key: T -> int): seq<T>
  {
    if xs == [] then [] else Insert(xs[0], SortDesc(xs[1..], key), key)
  }

  lemma {:induction false} InsertPermutes<T>(x: T, ys: seq<T>, key: T -> int)
    ensures multiset(Insert(x, ys, key)) == multiset(ys) + multiset{x}
    decreases |ys|
  {
    if ys != [] && key(x) < key(ys[0]) {
      InsertPermutes(x, ys[1..], key);
      assert ys == [ys[0]] + ys[1..];
    }
  }

  /** Inserting below a bound keeps every key below it. */
  lemma {:induction false} InsertBelow<T>(x: T, ys: seq<T>, key: T -> int, b: int)
    requires key(x) <= b && forall i | 0 <= i < |ys| :: key(ys[i]) <= b
    ensures forall i | 0 <= i < |Insert(x, ys, key)| :: key(Insert(x, ys, key)[i]) <= b
    decreases |ys|
  {
    if ys != [] && key(x) < key(ys[0]) {
      var rest := Insert(x, ys[1..], key);
      InsertBelow(x, ys[1..], key, b);
      var r := [ys[0]] + rest;
      forall i | 0 <= i < |r| ensures key(r[i]) <= b {
        if i > 0 {
          assert r[i] == rest[i - 1];
        }
      }
    }
  }

  lemma {:induction false} InsertSorted<T>(x: T, ys: seq<T>, key: T -> int)
    requires SortedDesc(ys, key)
    ensures SortedDesc(Insert(x, ys, key), key)
    decreases |ys|
  {
    if ys != [] && key(x) < key(ys[0]) {
      var rest := Insert(x, ys[1..], key);
      InsertSorted(x, ys[1..], key);
      InsertBelow(x, ys[1..], key, key(ys[0]));
      var r := [ys[0]] + rest;
      forall i, j | 0 <= i < j < |r| ensures key(r[i]) >= key(r[j]) {
        assert r[j] == rest[j - 1];
        if i > 0 {
          assert r[i] == rest[i - 1];
        }
      }
    }
  }

  /** Inserting `x` adds it in front of the other elements with its key. */
  lemma {:induction false} InsertStable<T>(x: T, ys: seq<T>, key: T -> int, k: int)
    ensures WithKey(Insert(x, ys, key), key, k) == (if key(x) == k then [x] else []) + WithKey(ys, key, k)
    decreases |ys|
  {
    if ys == [] || key(x) >= key(ys[0]) {
      WithKeyCons(x, ys, key, k);
    } else {
      var rest := Insert(x, ys[1..], key);
      InsertStable(x, ys[1..], key, k);
      WithKeyCons(ys[0], rest, key, k);
      WithKeyCons(ys[0], ys[1..], key, k);
      assert [ys[0]] + ys[1..] == ys;
      var tail := WithKey(ys[1..], key, k);
      if key(x) == k {
        assert WithKey(Insert(x, ys, key), key, k) == [x] + tail;
        assert WithKey(ys, key, k) == tail;
      } else {
        assert WithKey(rest, key, k) == tail;
      }
    }
  }

  /** Filtering a list with a new first element. */
  lemma WithKeyCons<T>(y: T, ys: seq<T>, key: T -> int, k: int)
    ensures WithKey([y] + ys, key, k) == (if key(y) == k then [y] else []) + WithKey(ys, key, k)
  {
    assert ([y] + ys)[0] == y && ([y] + ys)[1..] == ys;
  }

  /**
    The result is in descending key order, holds the same elements, and
    keeps the input order among elements with equal keys.
  */
  lemma SortDescFacts<T>(xs: seq<T>, key: T -> int)
    ensures SortedDesc(SortDesc(xs, key), key)
    ensures multiset(SortDesc(xs, key)) == multiset(xs)
    ensures forall k :: WithKey(SortDesc(xs, key), key, k) == WithKey(xs, key, k)
  {
    SortDescSorted(xs, key);
    SortDescPermutes(xs, key);
    SortDescStable(xs, key);
  }

  lemma {:induction false} SortDescSorted<T>(xs: seq<T>, key: T -> int)
    ensures SortedDesc(SortDesc(xs, key), key)
    decreases |xs|
  {
    if xs != [] {
      SortDescSorted(xs[1..], key);
      InsertSorted(xs[0], SortDesc(xs[1..], key), key);
    }
  }

  lemma {:induction false} SortDescPermutes<T>(xs: seq<T>, key: T -> int)
    ensures multiset(SortDesc(xs, key)) == multiset(xs)
    decreases |xs|
  {
    if xs != [] {
      SortDescPermutes(xs[1..], key);
      InsertPermutes(xs[0], SortDesc(xs[1..], key), key);
      assert xs == [xs[0]] + xs[1..];
    }
  }

  lemma {:induction false} SortDescStable<T>(xs: seq<T>, key: T -> int)
    ensures forall k :: WithKey(SortDesc(xs, key), key, k) == WithKey(xs, key, k)
    decreases |xs|
  {
    if xs != [] {
      var rest := SortDesc(xs[1..], key);
      SortDescStable(xs[1..], key);
      forall k ensures WithKey(SortDesc(xs, key), key, k) == WithKey(xs, key, k) {
        InsertStable(xs[0], rest, key, k);
      }
    }
  }

  /** The length of a sorted list is the length of its input. */
  lemma SortDescLength<T>(xs: seq<T>, key: T -> int)
    ensures |SortDesc(xs, key)| == |xs|
  {
    SortDescFacts(xs, key);
    assert |multiset(SortDesc(xs, key))| == |multiset(xs)|;
  }
}
