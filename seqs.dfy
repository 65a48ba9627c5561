/** Sequence helpers standing for Python built-ins and idioms the core relies on:
    list comprehensions with a condition, `max`, `sum`, `len([... if ...])`, and
    "distinct values in first-seen order" (a dict used as an ordered set). */
module Seqs {

  /** `[x for x in xs if p(x)]`. */
  function Filter<T>(xs: seq<T>, p: T -> bool): (r: seq<T>)
    ensures |r| <= |xs|
    ensures forall x :: x in r ==> x in xs && p(x)
  {
    if xs == [] then [] else Filter(xs[..|xs| - 1], p) + (if p(xs[|xs| - 1]) then [xs[|xs| - 1]] else [])
  }

  lemma {:induction false} FilterConcat<T>(xs: seq<T>, ys: seq<T>, p: T -> bool)
    ensures Filter(xs + ys, p) == Filter(xs, p) + Filter(ys, p)
  {
    if ys == [] {
      assert xs + ys == xs;
    } else {
      assert (xs + ys)[..|xs + ys| - 1] == xs + ys[..|ys| - 1];
      FilterConcat(xs, ys[..|ys| - 1], p);
    }
  }

  lemma FilterKeeps<T>(xs: seq<T>, p: T -> bool, x: T)
    requires x in xs && p(x)
    ensures x in Filter(xs, p)
  {
    var i :| 0 <= i < |xs| && xs[i] == x;
    assert xs == xs[..i] + [x] + xs[i + 1..];
    FilterConcat(xs[..i] + [x], xs[i + 1..], p);
    FilterConcat(xs[..i], [x], p);
    assert Filter([x], p) == [x] by { assert [x][..0] == []; }
  }

  /** Number of elements satisfying `p`: `len([x for x in xs if p(x)])`. */
  function CountIf<T>(xs: seq<T>, p: T -> bool): nat {
    |Filter(xs, p)|
  }

  /** Elements are pairwise distinct (a Python set or the keys of a dict). */
  predicate Distinct<T(==)>(xs: seq<T>) {
    forall i, j :: 0 <= i < j < |xs| ==> xs[i] != xs[j]
  }

  /** The distinct values of `xs`, each at the place where it is first seen. */
  function Dedupe<T(==)>(xs: seq<T>): (r: seq<T>)
    ensures Distinct(r)
    ensures forall x :: x in r ==> x in xs
    ensures forall x :: x in xs ==> x in r
    ensures |r| <= |xs|
  {
    if xs == [] then []
    else
      var d := Dedupe(xs[..|xs| - 1]);
      var x := xs[|xs| - 1];
      assert forall y :: y in xs ==> y in xs[..|xs| - 1] || y == x by {
        assert xs == xs[..|xs| - 1] + [x];
      }
      if x in d then d else d + [x]
  }

  /** Position of the first occurrence of `x`. */
  function IndexOf<T(==)>(xs: seq<T>, x: T): (i: nat)
    requires x in xs
    ensures i < |xs| && xs[i] == x
    ensures forall j :: 0 <= j < i ==> xs[j] != x
  {
    if xs[0] == x then 0 else 1 + IndexOf(xs[1..], x)
  }

  lemma IndexOfDistinct<T>(xs: seq<T>, i: nat)
    requires Distinct(xs) && i < |xs|
    ensures IndexOf(xs, xs[i]) == i
  {
  }

  /** Python's `max` over a non-empty list of integers. */
  function MaxOf(xs: seq<int>): (m: int)
    requires |xs| > 0
    ensures m in xs
    ensures forall x :: x in xs ==> x <= m
  {
    if |xs| == 1 then xs[0]
    else
      var t := MaxOf(xs[1..]);
      assert forall x :: x in xs ==> x == xs[0] || x in xs[1..];
      if xs[0] >= t then xs[0] else t
  }

  /** Python's `sum` over integers. */
  function Sum(xs: seq<int>): int {
    if xs == [] then 0 else Sum(xs[..|xs| - 1]) + xs[|xs| - 1]
  }

  lemma {:induction false} SumConcat(xs: seq<int>, ys: seq<int>)
    ensures Sum(xs + ys) == Sum(xs) + Sum(ys)
  {
    if ys == [] {
      assert xs + ys == xs;
    } else {
      assert (xs + ys)[..|xs + ys| - 1] == xs + ys[..|ys| - 1];
      SumConcat(xs, ys[..|ys| - 1]);
    }
  }

  lemma {:induction false} SumNonNegative(xs: seq<int>)
    requires forall i :: 0 <= i < |xs| ==> xs[i] >= 0
    ensures Sum(xs) >= 0
  {
    if xs != [] {
      SumNonNegative(xs[..|xs| - 1]);
    }
  }

  lemma {:induction false} SumBoundsElement(xs: seq<int>, i: nat)
    requires forall k :: 0 <= k < |xs| ==> xs[k] >= 0
    requires i < |xs|
    ensures xs[i] <= Sum(xs)
  {
    var init := xs[..|xs| - 1];
    SumNonNegative(init);
    if i < |xs| - 1 {
      SumBoundsElement(init, i);
    }
  }

  /** Splitting by a predicate and its negation loses and duplicates nothing. */
  lemma {:induction false} FilterSplit<T>(xs: seq<T>, p: T -> bool, q: T -> bool)
    requires forall x :: q(x) == !p(x)
    ensures |Filter(xs, p)| + |Filter(xs, q)| == |xs|
  {
    if xs != [] {
      FilterSplit(xs[..|xs| - 1], p, q);
    }
  }

  /** Raising one element by one raises the sum by one. */
  lemma {:induction false} SumBump(xs: seq<int>, ys: seq<int>, j: nat)
    requires |xs| == |ys| && j < |xs|
    requires ys[j] == xs[j] + 1
    requires forall k :: 0 <= k < |xs| && k != j ==> ys[k] == xs[k]
    ensures Sum(ys) == Sum(xs) + 1
  {
    var n := |xs| - 1;
    if j < n {
      SumBump(xs[..n], ys[..n], j);
    } else {
      assert xs[..n] == ys[..n];
    }
  }

  /** How often each value of `ds` occurs in `xs`. */
  function Multiplicities<T(==)>(ds: seq<T>, xs: seq<T>): (r: seq<int>)
    ensures |r| == |ds|
    ensures forall i :: 0 <= i < |ds| ==> r[i] == multiset(xs)[ds[i]]
  {
    seq(|ds|, i requires 0 <= i < |ds| => multiset(xs)[ds[i]])
  }

  /** Counting the occurrences of every distinct value accounts for each
      element exactly once. */
  lemma {:induction false} DedupeMultiplicitiesSum<T>(xs: seq<T>)
    ensures Sum(Multiplicities(Dedupe(xs), xs)) == |xs|
  {
    if xs != [] {
      var ys := xs[..|xs| - 1];
      var x := xs[|xs| - 1];
      assert xs == ys + [x];
      DedupeMultiplicitiesSum(ys);
      if x in Dedupe(ys) {
        MultiplicitiesKnown(Dedupe(ys), ys, x);
      } else {
        MultiplicitiesNew(Dedupe(ys), ys, x);
      }
    }
  }

  /** A value already counted raises its own multiplicity by one. */
  lemma MultiplicitiesKnown<T>(d: seq<T>, ys: seq<T>, x: T)
    requires Distinct(d) && x in d
    ensures Sum(Multiplicities(d, ys + [x])) == Sum(Multiplicities(d, ys)) + 1
  {
    var before := Multiplicities(d, ys);
    var after := Multiplicities(d, ys + [x]);
    var j := IndexOf(d, x);
    forall k | 0 <= k < |d| && k != j ensures after[k] == before[k] {
      assert d[k] != x;
    }
    SumBump(before, after, j);
  }

  /** A value not counted yet adds a multiplicity of one. */
  lemma MultiplicitiesNew<T>(d: seq<T>, ys: seq<T>, x: T)
    requires x !in ys && x !in d
    ensures Sum(Multiplicities(d + [x], ys + [x])) == Sum(Multiplicities(d, ys)) + 1
  {
    var before := Multiplicities(d, ys);
    var after := Multiplicities(d + [x], ys + [x]);
    assert after == before + [1];
    SumConcat(before, [1]);
    assert Sum([1]) == 1 by { assert [1][..0] == []; }
  }

  lemma FilterSnoc<T>(xs: seq<T>, p: T -> bool, i: nat)
    requires i < |xs|
    ensures Filter(xs[..i + 1], p) == Filter(xs[..i], p) + (if p(xs[i]) then [xs[i]] else [])
  {
    assert xs[..i + 1][..i] == xs[..i];
  }

  /** `{key(x): x for x in xs}`: every key of an element is present, and a
      later element replaces an earlier one with the same key. */
  function KeyedBy<K(==), T>(xs: seq<T>, key: T -> K): (m: map<K, T>)
    ensures forall x :: x in xs ==> key(x) in m
    ensures forall k :: k in m ==> m[k] in xs && key(m[k]) == k
  {
    if xs == [] then map[]
    else
      var init := xs[..|xs| - 1];
      var x := xs[|xs| - 1];
      assert forall y :: y in xs ==> y in init || y == x by {
        assert xs == init + [x];
      }
      KeyedBy(init, key)[key(x) := x]
  }

  /** The element a key maps to is the last one carrying that key. */
  lemma {:induction false} KeyedByLastWins<K, T>(xs: seq<T>, key: T -> K, i: nat)
    requires i < |xs|
    requires forall j :: i < j < |xs| ==> key(xs[j]) != key(xs[i])
    ensures KeyedBy(xs, key)[key(xs[i])] == xs[i]
  {
    if i < |xs| - 1 {
      KeyedByLastWins(xs[..|xs| - 1], key, i);
    }
  }

  lemma {:induction false} FilterEmpty<T>(xs: seq<T>, p: T -> bool)
    requires forall i :: 0 <= i < |xs| ==> !p(xs[i])
    ensures Filter(xs, p) == []
  {
    if xs != [] {
      FilterEmpty(xs[..|xs| - 1], p);
    }
  }

  /** Appending never moves the first occurrence of a value already present. */
  lemma IndexOfAppend<T>(xs: seq<T>, ys: seq<T>, x: T)
    requires x in xs
    ensures IndexOf(xs + ys, x) == IndexOf(xs, x)
  {
    assert (xs + ys)[IndexOf(xs, x)] == x;
  }

  lemma DedupeSnoc<T>(xs: seq<T>, x: T)
    ensures Dedupe(xs + [x]) == if x in Dedupe(xs) then Dedupe(xs) else Dedupe(xs) + [x]
  {
    assert (xs + [x])[..|xs|] == xs;
  }

  /** An element of a prefix sits at the same place in the whole. */
  lemma IndexOfPrefix<T>(xs: seq<T>, ys: seq<T>, x: T)
    requires xs <= ys && x in xs
    ensures x in ys && IndexOf(ys, x) == IndexOf(xs, x)
  {
    assert ys == xs + ys[|xs|..];
    IndexOfAppend(xs, ys[|xs|..], x);
  }

  /** The first-seen order of a prefix is a prefix of the first-seen order. */
  lemma {:induction false} DedupePrefix<T>(xs: seq<T>, ys: seq<T>)
    ensures Dedupe(xs) <= Dedupe(xs + ys)
  {
    if ys == [] {
      assert xs + ys == xs;
    } else {
      var init := ys[..|ys| - 1];
      DedupePrefix(xs, init);
      assert xs + ys == (xs + init) + [ys[|ys| - 1]];
      DedupeSnoc(xs + init, ys[|ys| - 1]);
    }
  }

  /** `[f(x) for x in xs]`. */
  function MapSeq<T>(xs: seq<T>, f: T -> T): (r: seq<T>)
    ensures |r| == |xs| && forall i :: 0 <= i < |xs| ==> r[i] == f(xs[i])
  {
    seq(|xs|, i requires 0 <= i < |xs| => f(xs[i]))
  }

  /** Replacing the element at `i` by its image extends the mapped prefix. */
  lemma MapSeqStep<T>(xs: seq<T>, f: T -> T, i: nat, cur: seq<T>)
    requires i < |xs| && cur == MapSeq(xs[..i], f) + xs[i..]
    ensures i < |cur| && cur[i] == xs[i]
    ensures cur[i := f(xs[i])] == MapSeq(xs[..i + 1], f) + xs[i + 1..]
  {
  }

  lemma MapSeqStart<T>(xs: seq<T>, f: T -> T)
    ensures xs == MapSeq(xs[..0], f) + xs[0..]
  {
  }

  lemma MapSeqEnd<T>(xs: seq<T>, f: T -> T)
    ensures MapSeq(xs[..|xs|], f) + xs[|xs|..] == MapSeq(xs, f)
  {
    assert xs[..|xs|] == xs;
  }

  /** `[y for x in xs for y in f(x)]`. */
  function Flatten<A, B>(xs: seq<A>, f: A -> seq<B>): seq<B> {
    if xs == [] then [] else Flatten(xs[..|xs| - 1], f) + f(xs[|xs| - 1])
  }

  lemma FlattenSnoc<A, B>(xs: seq<A>, f: A -> seq<B>, i: nat)
    requires i < |xs|
    ensures Flatten(xs[..i + 1], f) == Flatten(xs[..i], f) + f(xs[i])
  {
    assert xs[..i + 1][..i] == xs[..i];
  }

  lemma {:induction false} FlattenConcat<A, B>(xs: seq<A>, ys: seq<A>, f: A -> seq<B>)
    ensures Flatten(xs + ys, f) == Flatten(xs, f) + Flatten(ys, f)
  {
    if ys == [] {
      assert xs + ys == xs;
    } else {
      assert (xs + ys)[..|xs + ys| - 1] == xs + ys[..|ys| - 1];
      FlattenConcat(xs, ys[..|ys| - 1], f);
    }
  }

  /** The part of one element sits inside the flattening. */
  lemma FlattenMember<A, B>(xs: seq<A>, f: A -> seq<B>, i: nat, y: B)
    requires i < |xs| && y in f(xs[i])
    ensures y in Flatten(xs, f)
  {
    assert xs == xs[..i + 1] + xs[i + 1..];
    FlattenConcat(xs[..i + 1], xs[i + 1..], f);
    FlattenSnoc(xs, f, i);
  }

  /** Flattening a prefix gives a prefix of the flattening. */
  lemma FlattenPrefix<A, B>(xs: seq<A>, f: A -> seq<B>, i: nat)
    requires i <= |xs|
    ensures Flatten(xs[..i], f) <= Flatten(xs, f)
  {
    assert xs == xs[..i] + xs[i..];
    FlattenConcat(xs[..i], xs[i..], f);
  }

  /** One more element of `xs` flattened after `pre`, still inside `all`. */
  lemma FlattenStep<A, B>(pre: seq<B>, xs: seq<A>, f: A -> seq<B>, j: nat, all: seq<B>, done: seq<B>)
    requires j < |xs| && pre + Flatten(xs, f) <= all && done == pre + Flatten(xs[..j], f)
    ensures done + f(xs[j]) == pre + Flatten(xs[..j + 1], f)
    ensures done + f(xs[j]) <= all
  {
    FlattenStepEq(pre, xs, f, j);
    FlattenStepPrefix(pre, xs, f, j, all);
  }

  lemma FlattenStepEq<A, B>(pre: seq<B>, xs: seq<A>, f: A -> seq<B>, j: nat)
    requires j < |xs|
    ensures pre + Flatten(xs[..j + 1], f) == (pre + Flatten(xs[..j], f)) + f(xs[j])
  {
    FlattenSnoc(xs, f, j);
    var q := Flatten(xs[..j], f);
    assert pre + (q + f(xs[j])) == (pre + q) + f(xs[j]);
  }

  lemma FlattenStepPrefix<A, B>(pre: seq<B>, xs: seq<A>, f: A -> seq<B>, j: nat, all: seq<B>)
    requires j < |xs| && pre + Flatten(xs, f) <= all
    ensures pre + Flatten(xs[..j + 1], f) <= all
  {
    var p := Flatten(xs[..j + 1], f);
    FlattenPrefix(xs, f, j + 1);
    PrefixOfPrefix(pre, Flatten(xs, f), |p|, all);
    assert Flatten(xs, f)[..|p|] == p;
  }

  /** One more element of `xs` after `pre`, still inside `all`. */
  lemma SnocStep<T>(pre: seq<T>, xs: seq<T>, j: nat, all: seq<T>, done: seq<T>)
    requires j < |xs| && pre + xs <= all && done == pre + xs[..j]
    ensures done + [xs[j]] == pre + xs[..j + 1]
    ensures done + [xs[j]] <= all
  {
    assert xs[..j + 1] == xs[..j] + [xs[j]];
    PrefixOfPrefix(pre, xs, j + 1, all);
  }

  lemma PrefixOfPrefix<T>(pre: seq<T>, xs: seq<T>, j: nat, all: seq<T>)
    requires j <= |xs| && pre + xs <= all
    ensures pre + xs[..j] <= all
  {
    assert pre + xs == (pre + xs[..j]) + xs[j..];
  }
}
