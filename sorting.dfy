/** Python's `sorted(xs, key=key, reverse=reverse)` and `max(xs, key=key)`,
    written out so that their guarantees can be stated: `sorted` is a stable
    sort (equal keys keep their input order, also with `reverse=True`), and
    `max` returns the first element whose key is maximal. */
module Sorting {

  /** `a` may precede `b` in the output of `sorted`. */
  predicate InOrder<T>(a: T, b: T, key: T -> int, reverse: bool) {
    if reverse then key(a) >= key(b) else key(a) <= key(b)
  }

  predicate SortedBy<T>(xs: seq<T>, key: T -> int, reverse: bool) {
    forall i, j :: 0 <= i < j < |xs| ==> InOrder(xs[i], xs[j], key, reverse)
  }

  /** The elements whose key is `v`, in their order in `xs`. */
  function WithKey<T>(xs: seq<T>, key: T -> int, v: int): seq<T> {
    if xs == [] then [] else (if key(xs[0]) == v then [xs[0]] else []) + WithKey(xs[1..], key, v)
  }

  lemma {:induction false} WithKeyConcat<T>(xs: seq<T>, ys: seq<T>, key: T -> int, v: int)
    ensures WithKey(xs + ys, key, v) == WithKey(xs, key, v) + WithKey(ys, key, v)
  {
    if xs != [] {
      assert (xs + ys)[0] == xs[0];
      assert (xs + ys)[1..] == xs[1..] + ys;
      WithKeyConcat(xs[1..], ys, key, v);
    } else {
      assert xs + ys == ys;
    }
  }

  /** Places `x` in front of the first element it may precede, so that it
      stays ahead of every element with the same key. */
  function Insert<T(==)>(x: T, ys: seq<T>, key: T -> int, reverse: bool): (r: seq<T>)
    ensures |r| == |ys| + 1
    ensures multiset(r) == multiset(ys) + multiset{x}
  {
    if ys == [] then
      [x]
    else if InOrder(x, ys[0], key, reverse) then
      [x] + ys
    else
      assert ys == [ys[0]] + ys[1..];
      [ys[0]] + Insert(x, ys[1..], key, reverse)
  }

  lemma {:induction false} InsertSorted<T>(x: T, ys: seq<T>, key: T -> int, reverse: bool)
    requires SortedBy(ys, key, reverse)
    ensures SortedBy(Insert(x, ys, key, reverse), key, reverse)
  {
    if ys != [] && !InOrder(x, ys[0], key, reverse) {
      var rest := Insert(x, ys[1..], key, reverse);
      InsertSorted(x, ys[1..], key, reverse);
      assert multiset(rest) == multiset(ys[1..]) + multiset{x};
      forall k | 0 <= k < |rest| ensures InOrder(ys[0], rest[k], key, reverse) {
        assert rest[k] in multiset(rest);
        if rest[k] != x {
          assert rest[k] in ys[1..];
        }
      }
    }
  }

  lemma WithKeyCons<T>(h: T, t: seq<T>, key: T -> int, v: int)
    ensures WithKey([h] + t, key, v) == (if key(h) == v then [h] else []) + WithKey(t, key, v)
  {
    assert ([h] + t)[0] == h && ([h] + t)[1..] == t;
  }

  /** Moving `x` behind `h` does not change the elements with key `v` when
      `x` and `h` do not both have it. */
  lemma WithKeyBehind<T>(x: T, h: T, t: seq<T>, rest: seq<T>, key: T -> int, v: int)
    requires key(x) != v || key(h) != v
    requires WithKey(rest, key, v) == (if key(x) == v then [x] else []) + WithKey(t, key, v)
    ensures WithKey([h] + rest, key, v) == (if key(x) == v then [x] else []) + WithKey([h] + t, key, v)
  {
    WithKeyCons(h, rest, key, v);
    WithKeyCons(h, t, key, v);
    var w := WithKey(t, key, v);
    if key(x) == v {
      assert [] + WithKey(rest, key, v) == WithKey(rest, key, v) && [] + w == w;
    } else {
      assert [] + w == w;
    }
  }

  lemma {:induction false} InsertWithKey<T>(x: T, ys: seq<T>, key: T -> int, reverse: bool, v: int)
    ensures WithKey(Insert(x, ys, key, reverse), key, v)
         == (if key(x) == v then [x] else []) + WithKey(ys, key, v)
  {
    if ys == [] {
      WithKeyCons(x, [], key, v);
      assert [x] + [] == [x];
    } else if InOrder(x, ys[0], key, reverse) {
      WithKeyCons(x, ys, key, v);
    } else {
      InsertWithKey(x, ys[1..], key, reverse, v);
      InsertBehindWithKey(x, ys, key, reverse, v);
    }
  }

  /** The inductive step of `InsertWithKey` when `x` goes behind `ys[0]`,
      which happens only when their keys differ. */
  lemma InsertBehindWithKey<T>(x: T, ys: seq<T>, key: T -> int, reverse: bool, v: int)
    requires ys != [] && !InOrder(x, ys[0], key, reverse)
    requires WithKey(Insert(x, ys[1..], key, reverse), key, v)
          == (if key(x) == v then [x] else []) + WithKey(ys[1..], key, v)
    ensures WithKey(Insert(x, ys, key, reverse), key, v)
         == (if key(x) == v then [x] else []) + WithKey(ys, key, v)
  {
    WithKeyBehind(x, ys[0], ys[1..], Insert(x, ys[1..], key, reverse), key, v);
    assert [ys[0]] + ys[1..] == ys;
  }

  /** `sorted(xs, key=key, reverse=reverse)`. */
  function SortBy<T(==)>(xs: seq<T>, key: T -> int, reverse: bool): (r: seq<T>)
    ensures |r| == |xs|
    ensures multiset(r) == multiset(xs)
  {
    if xs == [] then []
    else
      assert xs == [xs[0]] + xs[1..];
      Insert(xs[0], SortBy(xs[1..], key, reverse), key, reverse)
  }

  /** The output of `sorted` is ordered by key and stable: for every key value,
      the elements carrying it appear in their input order. */
  lemma {:induction false} SortByOrderedAndStable<T>(xs: seq<T>, key: T -> int, reverse: bool)
    ensures SortedBy(SortBy(xs, key, reverse), key, reverse)
    ensures forall v :: WithKey(SortBy(xs, key, reverse), key, v) == WithKey(xs, key, v)
  {
    if xs != [] {
      var rest := SortBy(xs[1..], key, reverse);
      SortByOrderedAndStable(xs[1..], key, reverse);
      InsertSorted(xs[0], rest, key, reverse);
      forall v ensures WithKey(SortBy(xs, key, reverse), key, v) == WithKey(xs, key, v) {
        InsertWithKey(xs[0], rest, key, reverse, v);
      }
    }
  }

  lemma {:induction false} DistinctMultiplicity<T>(xs: seq<T>, v: T)
    requires forall i, j :: 0 <= i < j < |xs| ==> xs[i] != xs[j]
    ensures multiset(xs)[v] <= 1
  {
    if xs != [] {
      assert xs == [xs[0]] + xs[1..];
      DistinctMultiplicity(xs[1..], v);
      if v == xs[0] {
        assert v !in xs[1..];
      }
    }
  }

  /** The key of plain `sorted(xs)` over integers. */
  function Id(x: int): int { x }

  /** A sorted permutation of distinct integers is strictly increasing. */
  lemma SortedDistinctIncreasing(xs: seq<int>, r: seq<int>)
    requires forall i, j :: 0 <= i < j < |xs| ==> xs[i] != xs[j]
    requires multiset(r) == multiset(xs)
    requires SortedBy(r, Id, false)
    ensures forall i, j :: 0 <= i < j < |r| ==> r[i] < r[j]
  {
    forall i, j | 0 <= i < j < |r| ensures r[i] < r[j] {
      assert InOrder(r[i], r[j], Id, false);
      if r[i] == r[j] {
        assert r == r[..i] + [r[i]] + r[i + 1..j] + [r[j]] + r[j + 1..];
        assert multiset(r)[r[i]] >= 2;
        DistinctMultiplicity(xs, r[i]);
        assert false;
      }
    }
  }

  /** `max(xs, key=key)`: the position of the first element with a maximal key
      (Python's `max` keeps the earlier element on ties). */
  function FirstMaxIndex<T>(xs: seq<T>, key: T -> int): (i: nat)
    requires |xs| > 0
    ensures i < |xs|
    ensures forall j :: 0 <= j < |xs| ==> key(xs[j]) <= key(xs[i])
    ensures forall j :: 0 <= j < i ==> key(xs[j]) < key(xs[i])
  {
    if |xs| == 1 then 0
    else
      var j := FirstMaxIndex(xs[1..], key) + 1;
      if key(xs[0]) >= key(xs[j]) then 0 else j
  }
}
