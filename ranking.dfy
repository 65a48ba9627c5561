/** The per-dimension part of the overall statistics both analyzer snapshots
    compute once every technique carries its `stats`: the total, the average
    per technique, the "most X" technique and the top-5 ranking. */
module Ranking {
  import opened Common
  import opened Seqs
  import opened Sorting
  import opened Attack

  /** `{'id': t['technique_id'], 'name': t['name'], 'count': <count>}`; the
      "most X" records carry the same three values under a dimension-specific
      count key. */
  datatype RankEntry = RankEntry(id: Option<string>, name: string, count: nat)

  /** The overall figures for one count dimension. */
  datatype DimensionSummary = DimensionSummary(total: nat, average: real, most: RankEntry, topFive: seq<RankEntry>)

  function RankOf(t: Technique, key: string): RankEntry {
    RankEntry(t.techniqueId, t.name, CountOf(t, key))
  }

  /** The sort key `lambda t: t['stats'][key]`. */
  function CountFn(key: string): Technique -> int {
    t => CountOf(t, key)
  }

  /** `[t['stats'][key] for t in techniques]`. */
  function Counts(ts: seq<Technique>, key: string): (cs: seq<nat>)
    ensures |cs| == |ts|
    ensures forall i :: 0 <= i < |ts| ==> cs[i] == CountOf(ts[i], key)
  {
    seq(|ts|, i requires 0 <= i < |ts| => CountOf(ts[i], key))
  }

  lemma {:induction false} CountsConcat(xs: seq<Technique>, ys: seq<Technique>, key: string)
    ensures Counts(xs + ys, key) == Counts(xs, key) + Counts(ys, key)
  {
  }

  /** `sum(values) / total if total > 0 else 0`, with the division exact. */
  function SafeAverage(values: seq<int>, total: int): (r: real)
    ensures total > 0 ==> r * (total as real) == Sum(values) as real
    ensures total <= 0 ==> r == 0.0
  {
    if total > 0 then (Sum(values) as real) / (total as real) else 0.0
  }

  /** `sorted(techniques, key=..., reverse=True)[:5]`. */
  function TopFiveTechniques(ts: seq<Technique>, key: string): (top: seq<Technique>)
    ensures |top| == if |ts| < 5 then |ts| else 5
  {
    var s := SortBy(ts, CountFn(key), true);
    s[..if |s| < 5 then |s| else 5]
  }

  lemma {:induction false} WithKeyNone<T>(xs: seq<T>, key: T -> int, v: int)
    requires forall i :: 0 <= i < |xs| ==> key(xs[i]) != v
    ensures WithKey(xs, key, v) == []
  {
    if xs != [] {
      WithKeyNone(xs[1..], key, v);
    }
  }

  /** The top five are in non-increasing count order; for every count value
      they hold the first techniques of the input with that count, in input
      order (the sort is stable); and every count above the fifth place's is
      represented by all techniques that have it. */
  lemma TopFiveSpec(ts: seq<Technique>, key: string)
    ensures var top := TopFiveTechniques(ts, key);
            && (forall i, j :: 0 <= i < j < |top| ==> CountOf(top[i], key) >= CountOf(top[j], key))
            && (forall v :: WithKey(top, CountFn(key), v) <= WithKey(ts, CountFn(key), v))
            && (|top| > 0 ==> forall v :: v > CountOf(top[|top| - 1], key) ==>
                  WithKey(top, CountFn(key), v) == WithKey(ts, CountFn(key), v))
  {
    var f := CountFn(key);
    var s := SortBy(ts, f, true);
    var top := TopFiveTechniques(ts, key);
    var rest := s[|top|..];
    SortByOrderedAndStable(ts, f, true);
    assert s == top + rest;
    forall v ensures WithKey(s, f, v) == WithKey(top, f, v) + WithKey(rest, f, v) {
      WithKeyConcat(top, rest, f, v);
    }
    forall i, j | 0 <= i < j < |top| ensures CountOf(top[i], key) >= CountOf(top[j], key) {
      assert InOrder(s[i], s[j], f, true);
    }
    if |top| > 0 {
      forall v | v > CountOf(top[|top| - 1], key)
        ensures WithKey(top, f, v) == WithKey(ts, f, v)
      {
        forall i | 0 <= i < |rest| ensures f(rest[i]) != v {
          assert InOrder(s[|top| - 1], s[|top| + i], f, true);
        }
        WithKeyNone(rest, f, v);
      }
    }
  }

  /** `sorted` never drops or invents a technique, so the top five are drawn
      from the input. */
  lemma TopFiveFromInput(ts: seq<Technique>, key: string)
    ensures multiset(TopFiveTechniques(ts, key)) <= multiset(ts)
  {
    var s := SortBy(ts, CountFn(key), true);
    var top := TopFiveTechniques(ts, key);
    assert s == top + s[|top|..];
  }

  /** The top-5 records: id, name and count of each of the top five techniques. */
  function TopFive(ts: seq<Technique>, key: string): (r: seq<RankEntry>)
    ensures |r| == |TopFiveTechniques(ts, key)|
    ensures forall i :: 0 <= i < |r| ==> r[i] == RankOf(TopFiveTechniques(ts, key)[i], key)
  {
    var top := TopFiveTechniques(ts, key);
    seq(|top|, i requires 0 <= i < |top| => RankOf(top[i], key))
  }

  /** `max(techniques, key=lambda t: t['stats'][key])`. */
  function MostIndex(ts: seq<Technique>, key: string): (i: nat)
    requires |ts| > 0
    ensures i < |ts|
  {
    FirstMaxIndex(ts, CountFn(key))
  }

  /** The "most X" technique is the first one, in input order, whose count is
      maximal. */
  lemma MostIsFirstMax(ts: seq<Technique>, key: string)
    requires |ts| > 0
    ensures var i := MostIndex(ts, key);
            && (forall j :: 0 <= j < |ts| ==> CountOf(ts[j], key) <= CountOf(ts[i], key))
            && (forall j :: 0 <= j < i ==> CountOf(ts[j], key) < CountOf(ts[i], key))
  {
    var i := MostIndex(ts, key);
    forall j | 0 <= j < |ts| ensures CountOf(ts[j], key) <= CountOf(ts[i], key) {
      assert CountFn(key)(ts[j]) <= CountFn(key)(ts[i]);
    }
    forall j | 0 <= j < i ensures CountOf(ts[j], key) < CountOf(ts[i], key) {
      assert CountFn(key)(ts[j]) < CountFn(key)(ts[i]);
    }
  }

  /** Total, average, most and top five for the stats key `key`. The
      techniques must be non-empty: `max` of an empty list raises. */
  function Summarize(ts: seq<Technique>, key: string): (d: DimensionSummary)
    requires |ts| > 0
    ensures d.most == RankOf(ts[MostIndex(ts, key)], key)
    ensures d.total == Sum(Counts(ts, key)) && d.average == SafeAverage(Counts(ts, key), |ts|)
    ensures d.total >= d.most.count
    ensures d.topFive == TopFive(ts, key) && |d.topFive| == if |ts| < 5 then |ts| else 5
  {
    var cs := Counts(ts, key);
    SumBoundsElement(cs, MostIndex(ts, key));
    DimensionSummary(Sum(cs), SafeAverage(cs, |ts|), RankOf(ts[MostIndex(ts, key)], key), TopFive(ts, key))
  }

  function GroupsSize(t: Technique): nat { |t.groups| }
  function MitigationsSize(t: Technique): nat { |t.mitigations| }

  /** `[size(t) for t in ts]`. */
  function Sizes(ts: seq<Technique>, size: Technique -> nat): (r: seq<int>)
    ensures |r| == |ts| && forall i :: 0 <= i < |ts| ==> r[i] == size(ts[i])
  {
    seq(|ts|, i requires 0 <= i < |ts| => size(ts[i]))
  }

  /** When every technique's count is given by `values`, the summary's total
      and average are those of `values`. */
  lemma SummaryOf(ts: seq<Technique>, key: string, values: seq<int>)
    requires |ts| > 0 && |values| == |ts|
    requires forall i :: 0 <= i < |ts| ==> CountOf(ts[i], key) == values[i]
    ensures Summarize(ts, key).total == Sum(values)
    ensures Summarize(ts, key).average == SafeAverage(values, |ts|)
  {
    assert Counts(ts, key) == values;
  }
}
