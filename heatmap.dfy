/** The colour machinery behind the ATT&CK Navigator heat maps, shared by both
    analyzer snapshots: the threshold-to-colour map, the staircase colour lookup,
    the default scheme, the colour gradient and the data-driven breakpoints, and
    the layer document the analyzers fill in. */
module HeatMap {
  import opened Common
  import opened Seqs
  import opened Sorting

  type Color = string

  /** A key of the colour map: the decimal string of a breakpoint, or "more". */
  datatype ThresholdKey = Num(n: int) | More

  type Entries = seq<(ThresholdKey, Color)>

  predicate KeysDistinct(m: Entries) {
    forall i, j :: 0 <= i < j < |m| ==> m[i].0 != m[j].0
  }

  /** The colour map `{key: {"color": c}}` in its insertion order, which the
      legend and the gradient expose. Dictionary keys are distinct. */
  type ThresholdMap = m: Entries | KeysDistinct(m) witness []

  predicate HasKey(m: Entries, k: ThresholdKey) {
    exists i :: 0 <= i < |m| && m[i].0 == k
  }

  /** `colors[key]['color']`, or None where Python raises KeyError. */
  function Lookup(m: Entries, k: ThresholdKey): (r: Option<Color>)
    ensures r.Some? <==> HasKey(m, k)
    ensures KeysDistinct(m) ==> forall i :: 0 <= i < |m| && m[i].0 == k ==> r == Some(m[i].1)
  {
    if m == [] then None
    else if m[0].0 == k then Some(m[0].1)
    else
      var r := Lookup(m[1..], k);
      assert forall i :: 1 <= i < |m| ==> m[i] == m[1..][i - 1];
      r
  }

  /** `[int(key) for key in colors if key.isdigit()]`: the non-negative breakpoints. */
  function DigitKeys(m: Entries): (ks: seq<int>) {
    if m == [] then []
    else (if m[0].0.Num? && m[0].0.n >= 0 then [m[0].0.n] else []) + DigitKeys(m[1..])
  }

  /** The digit keys are exactly the non-negative numeric keys, each once. */
  lemma {:induction false} DigitKeysSpec(m: Entries)
    ensures forall n :: n in DigitKeys(m) <==> n >= 0 && HasKey(m, Num(n))
    ensures KeysDistinct(m) ==> Distinct(DigitKeys(m))
  {
    if m != [] {
      DigitKeysSpec(m[1..]);
      assert forall k :: HasKey(m, k) <==> m[0].0 == k || HasKey(m[1..], k) by {
        forall k ensures HasKey(m, k) ==> m[0].0 == k || HasKey(m[1..], k) {
          if HasKey(m, k) && m[0].0 != k {
            var i :| 0 <= i < |m| && m[i].0 == k;
            assert m[1..][i - 1].0 == k;
          }
        }
        forall k | HasKey(m[1..], k) ensures HasKey(m, k) {
          var i :| 0 <= i < |m[1..]| && m[1..][i].0 == k;
          assert m[i + 1].0 == k;
        }
      }
    }
  }

  /** The key the staircase lookup settles on for `count`: the greatest numeric
      key not above `count`, unless no key is that small or `count` exceeds
      every numeric key, in which case "more". */
  ghost predicate Selects(m: Entries, count: int, key: ThresholdKey) {
    var ks := DigitKeys(m);
    match key
    case Num(k) =>
      && k in ks && k <= count
      && (forall j :: j in ks && j <= count ==> j <= k)
      && (exists j :: j in ks && count <= j)
    case More =>
      (forall j :: j in ks ==> count < j) || (forall j :: j in ks ==> j < count)
  }

  /** Exactly one key is selected for every count. */
  lemma SelectsUnique(m: Entries, count: int, k1: ThresholdKey, k2: ThresholdKey)
    requires Selects(m, count, k1) && Selects(m, count, k2)
    ensures k1 == k2
  {
  }

  /** Some key is selected for every count. */
  lemma SelectsTotal(m: Entries, count: int)
    ensures exists key :: Selects(m, count, key)
  {
    var ks := DigitKeys(m);
    if (forall j :: j in ks ==> count < j) || (forall j :: j in ks ==> j < count) {
      assert Selects(m, count, More);
    } else {
      var below := Filter(ks, j => j <= count);
      assert exists j :: j in ks && j <= count;
      var j0 :| j0 in ks && j0 <= count;
      FilterKeeps(ks, j => j <= count, j0);
      var k := MaxOf(below);
      forall j | j in ks && j <= count ensures j <= k {
        FilterKeeps(ks, j => j <= count, j);
      }
      assert Selects(m, count, Num(k));
    }
  }

  /** The colour the heat map assigns to `count` under `m`. */
  ghost function StairColor(m: Entries, count: int): Color
    requires HasKey(m, More)
  {
    SelectsTotal(m, count);
    DigitKeysSpec(m);
    var key :| Selects(m, count, key);
    Lookup(m, key).value
  }

  /** Going up in count never moves back down the staircase: from a numeric
      class the lookup only reaches a higher or equal key, or "more". */
  lemma StaircaseMonotone(m: Entries, a: int, b: int, ka: ThresholdKey, kb: ThresholdKey)
    requires a <= b && Selects(m, a, ka) && Selects(m, b, kb) && ka.Num?
    ensures kb.More? || ka.n <= kb.n
  {
  }

  /** `find_color_for_count`: walks the sorted numeric keys remembering the last
      key not above `count`, then falls back to "more" when none qualified or
      `count` is above the largest key. */
  method FindColorForCount(m: ThresholdMap, count: int) returns (c: Color)
    requires HasKey(m, More)
    ensures forall key :: Selects(m, count, key) ==> Lookup(m, key) == Some(c)
    ensures c == StairColor(m, count)
  {
    var digits := DigitKeys(m);
    DigitKeysSpec(m);
    var keys := SortBy(digits, Id, false);
    SortByOrderedAndStable(digits, Id, false);
    SortedDistinctIncreasing(digits, keys);
    assert forall n :: n in keys <==> n in digits by {
      forall n ensures n in keys <==> n in digits {
        assert n in keys <==> n in multiset(keys);
      }
    }
    var selected: Option<int> := None;
    var i := 0;
    while i < |keys|
      invariant 0 <= i <= |keys|
      invariant forall j :: 0 <= j < i ==> keys[j] <= count
      invariant selected == if i == 0 then None else Some(keys[i - 1])
    {
      if keys[i] <= count {
        selected := Some(keys[i]);
      } else {
        break;
      }
      i := i + 1;
    }
    assert i < |keys| ==> count < keys[i];
    var chosen: ThresholdKey;
    if selected.None? || count > MaxOf(keys) {
      chosen := More;
    } else {
      chosen := Num(selected.value);
    }
    WalkSelects(m, keys, count, i, chosen);
    c := Lookup(m, chosen).value;
    forall key | Selects(m, count, key) ensures Lookup(m, key) == Some(c) {
      SelectsUnique(m, count, key, chosen);
    }
  }

  /** The key the walk over the sorted numeric keys ends on is the selected
      one: `i` keys are not above `count` and the next one is. */
  lemma WalkSelects(m: Entries, keys: seq<int>, count: int, i: nat, chosen: ThresholdKey)
    requires forall n :: n in keys <==> n in DigitKeys(m)
    requires forall a, b :: 0 <= a < b < |keys| ==> keys[a] < keys[b]
    requires i <= |keys| && (forall j :: 0 <= j < i ==> keys[j] <= count) && (i < |keys| ==> count < keys[i])
    requires chosen == if i == 0 || count > MaxOf(keys) then More else Num(keys[i - 1])
    ensures Selects(m, count, chosen)
  {
    var digits := DigitKeys(m);
    if i == 0 {
      forall j | j in digits ensures count < j {
        var p :| 0 <= p < |keys| && keys[p] == j;
        assert keys[0] <= keys[p];
      }
    } else if count <= MaxOf(keys) {
      forall j | j in digits && j <= count ensures j <= keys[i - 1] {
        var p :| 0 <= p < |keys| && keys[p] == j;
        assert p < i;
        assert keys[p] <= keys[i - 1];
      }
    }
  }

  /** `default_color_scheme` as it takes effect: the module defines it twice and
      the second, red, definition replaces the first. */
  function DefaultColorScheme(): (m: ThresholdMap)
    ensures |m| == 7 && m[6] == (More, "#2b0000")
  {
    [ (Num(0), "#ffffff"), (Num(1), "#ff6666"), (Num(2), "#f94444"), (Num(4), "#e41b1b"),
      (Num(6), "#f10000"), (Num(11), "#950000"), (More, "#2b0000") ]
  }

  /** The default breakpoints are 0, 1, 2, 4, 6 and 11, in that order, and
      "more" is its last key. */
  lemma DefaultSchemeKeys()
    ensures DigitKeys(DefaultColorScheme()) == [0, 1, 2, 4, 6, 11]
    ensures HasKey(DefaultColorScheme(), More)
  {
    var m := DefaultColorScheme();
    assert DigitKeys(m[6..]) == [];
    assert DigitKeys(m[5..]) == [11] by { assert m[5..][1..] == m[6..]; }
    assert DigitKeys(m[4..]) == [6, 11] by { assert m[4..][1..] == m[5..]; }
    assert DigitKeys(m[3..]) == [4, 6, 11] by { assert m[3..][1..] == m[4..]; }
    assert DigitKeys(m[2..]) == [2, 4, 6, 11] by { assert m[2..][1..] == m[3..]; }
    assert DigitKeys(m[1..]) == [1, 2, 4, 6, 11] by { assert m[1..][1..] == m[2..]; }
    assert m[6].0 == More;
  }

  /** The library code the threshold calculation calls, passed in as opaque
      functions: `statistics.quantiles(data, n=4)` (None where it raises),
      `statistics.mean`, the built-in `round`, and the HSV interpolation that
      `generate_color_gradient` performs between two hex colours at a ratio in [0, 1]. */
  datatype Numerics = Numerics(
    quantiles: seq<int> -> Option<seq<real>>,
    mean: seq<int> -> real,
    round: real -> int,
    shade: (Color, Color, real) -> Color)

  function Ratio(i: nat, steps: nat): real
    requires steps >= 2
  {
    (i as real) / ((steps - 1) as real)
  }

  /** The gradient of `generate_color_gradient(start, end, steps)`: colour `i` is
      the interpolation at ratio i / (steps - 1). One step divides by zero in the
      source, so it is excluded; zero steps give an empty list. */
  function Gradient(start: Color, end: Color, steps: nat, shade: (Color, Color, real) -> Color): (g: seq<Color>)
    requires steps != 1
    ensures |g| == steps
  {
    seq(steps, i requires 0 <= i < steps => shade(start, end, Ratio(i, steps)))
  }

  /** The gradient runs from the start colour's interpolation to the end
      colour's, inclusive. */
  lemma GradientEndpoints(start: Color, end: Color, steps: nat, shade: (Color, Color, real) -> Color)
    requires steps >= 2
    ensures Gradient(start, end, steps, shade)[0] == shade(start, end, 0.0)
    ensures Gradient(start, end, steps, shade)[steps - 1] == shade(start, end, 1.0)
  {
    assert Ratio(0, steps) == 0.0;
    assert Ratio(steps - 1, steps) == 1.0;
  }

  /** `generate_color_gradient`: appends one interpolated colour per step. */
  method GenerateColorGradient(start: Color, end: Color, steps: nat, shade: (Color, Color, real) -> Color)
    returns (gradient: seq<Color>)
    requires steps != 1
    ensures gradient == Gradient(start, end, steps, shade)
  {
    gradient := [];
    for i := 0 to steps
      invariant gradient == Gradient(start, end, steps, shade)[..i]
    {
      var ratio := (i as real) / ((steps - 1) as real);
      assert ratio == Ratio(i, steps);
      assert Gradient(start, end, steps, shade)[i] == shade(start, end, ratio);
      assert Gradient(start, end, steps, shade)[..i + 1]
          == Gradient(start, end, steps, shade)[..i] + [Gradient(start, end, steps, shade)[i]];
      gradient := gradient + [shade(start, end, ratio)];
    }
    assert Gradient(start, end, steps, shade)[..steps] == Gradient(start, end, steps, shade);
  }

  /** The threshold calculation falls back to the default scheme for an empty
      count list, an all-zero one, or quantiles that raise (or yield fewer than
      the three cut points the calculation indexes). */
  predicate UsesDefault(counts: seq<nat>, num: Numerics) {
    || |counts| == 0
    || MaxOf(counts) == 0
    || num.quantiles(counts).None?
    || |num.quantiles(counts).value| < 3
  }

  /** The six candidate breakpoints: 0, the rounded first quartile, mean and
      third quartile, 90% of the maximum rounded, and the maximum. */
  function Candidates(counts: seq<nat>, num: Numerics): seq<int>
    requires !UsesDefault(counts, num)
  {
    var q := num.quantiles(counts).value;
    var top := MaxOf(counts);
    [0, num.round(q[0]), num.round(num.mean(counts)), num.round(q[2]), num.round(top as real * 0.9), top]
  }

  /** `sorted(list(set(xs)))` is strictly increasing and holds the values of `xs`. */
  lemma SortedSet(xs: seq<int>)
    ensures var ts := SortBy(Dedupe(xs), Id, false);
            && (forall i, j :: 0 <= i < j < |ts| ==> ts[i] < ts[j])
            && (forall x :: x in ts <==> x in xs)
  {
    var distinct := Dedupe(xs);
    var ts := SortBy(distinct, Id, false);
    SortByOrderedAndStable(distinct, Id, false);
    SortedDistinctIncreasing(distinct, ts);
    forall x ensures x in ts <==> x in distinct {
      assert x in ts <==> x in multiset(ts);
    }
  }

  /** `sorted(list(set(candidates)))`. */
  function Breakpoints(counts: seq<nat>, num: Numerics): (ts: seq<int>)
    requires !UsesDefault(counts, num)
    ensures forall i, j :: 0 <= i < j < |ts| ==> ts[i] < ts[j]
    ensures forall x :: x in ts <==> x in Candidates(counts, num)
    ensures 0 in ts && MaxOf(counts) in ts && |ts| >= 2
  {
    var cands := Candidates(counts, num);
    var ts := SortBy(Dedupe(cands), Id, false);
    SortedSet(cands);
    assert 0 in cands && MaxOf(counts) in cands;
    assert |ts| >= 2 by {
      assert 0 in ts && MaxOf(counts) in ts && 0 != MaxOf(counts);
    }
    ts
  }

  const White: Color := "#ffffff"
  const DeepBlue: Color := "#000066"

  /** The part of `calculate_color_thresholds` after the count type has been
      validated and the counts extracted. */
  function ThresholdsFromCounts(counts: seq<nat>, num: Numerics): (m: ThresholdMap)
    ensures UsesDefault(counts, num) ==> m == DefaultColorScheme()
  {
    if UsesDefault(counts, num) then DefaultColorScheme()
    else
      var ts := Breakpoints(counts, num);
      var colors := Gradient(White, DeepBlue, |ts| + 1, num.shade);
      var m: Entries := seq(|ts|, i requires 0 <= i < |ts| => (Num(ts[i]), colors[i])) + [(More, colors[|ts|])];
      assert KeysDistinct(m);
      m
  }

  /** A data-driven map: one entry per distinct breakpoint, in strictly
      ascending order, with 0 and the largest count among them, coloured with
      the first |breakpoints| colours of a white to deep-blue gradient of
      |breakpoints| + 1 >= 3 steps (so the ratio's divisor is never zero); "more"
      comes last and takes the extra last colour, not the colour of the highest
      breakpoint. */
  lemma ComputedThresholds(counts: seq<nat>, num: Numerics)
    requires !UsesDefault(counts, num)
    ensures var m := ThresholdsFromCounts(counts, num);
            var ts := Breakpoints(counts, num);
            var colors := Gradient(White, DeepBlue, |ts| + 1, num.shade);
            && |colors| >= 3
            && |m| == |ts| + 1
            && m[|ts|] == (More, colors[|ts|])
            && (forall i :: 0 <= i < |ts| ==> m[i] == (Num(ts[i]), colors[i]))
            && (forall i, j :: 0 <= i < j < |ts| ==> m[i].0.n < m[j].0.n)
            && HasKey(m, Num(0)) && HasKey(m, Num(MaxOf(counts)))
  {
    ComputedShape(counts, num);
    var m := ThresholdsFromCounts(counts, num);
    var ts := Breakpoints(counts, num);
    var p0 :| 0 <= p0 < |ts| && ts[p0] == 0;
    var p1 :| 0 <= p1 < |ts| && ts[p1] == MaxOf(counts);
    assert m[p0].0 == Num(0) && m[p1].0 == Num(MaxOf(counts));
  }

  lemma ComputedShape(counts: seq<nat>, num: Numerics)
    requires !UsesDefault(counts, num)
    ensures var m := ThresholdsFromCounts(counts, num);
            var ts := Breakpoints(counts, num);
            var colors := Gradient(White, DeepBlue, |ts| + 1, num.shade);
            && |m| == |ts| + 1
            && m[|ts|] == (More, colors[|ts|])
            && (forall i :: 0 <= i < |ts| ==> m[i] == (Num(ts[i]), colors[i]))
  {
  }

  /** The quantiles, the mean and 90% of the maximum of non-negative counts lie
      between 0 and the maximum, and so do their rounded values. */
  predicate EstimatesInRange(counts: seq<nat>, num: Numerics)
    requires !UsesDefault(counts, num)
  {
    forall x :: x in Candidates(counts, num) ==> 0 <= x <= MaxOf(counts)
  }

  /** When the library's estimates stay within [0, max], the map starts at
      breakpoint 0 and its last numeric key is the largest count. */
  lemma ComputedThresholdsBounds(counts: seq<nat>, num: Numerics)
    requires !UsesDefault(counts, num) && EstimatesInRange(counts, num)
    ensures var m := ThresholdsFromCounts(counts, num);
            var n := |Breakpoints(counts, num)|;
            m[0].0 == Num(0) && m[n - 1].0 == Num(MaxOf(counts))
  {
    var ts := Breakpoints(counts, num);
    var top := MaxOf(counts);
    ComputedThresholds(counts, num);
    var p :| 0 <= p < |ts| && ts[p] == 0;
    assert ts[0] in Candidates(counts, num);
    var q :| 0 <= q < |ts| && ts[q] == top;
    assert ts[|ts| - 1] in Candidates(counts, num);
  }

  // ---- The layer document -------------------------------------------------

  datatype Versions = Versions(attack: string, navigator: string, layer: string)
  datatype GradientSpec = GradientSpec(colors: seq<Color>, minValue: int, maxValue: int)
  datatype LegendItem = LegendItem(labelText: string, color: Color)
  datatype Layout = Layout(layout: string, showName: bool, showID: bool, expandedSubtechniques: bool)

  /** One technique cell of the layer. */
  datatype LayerEntry = LayerEntry(techniqueID: string, color: Color, comment: string, showSubtechniques: bool, enabled: bool)

  /** An ATT&CK Navigator layer document. */
  datatype Layer = Layer(
    description: string,
    name: string,
    domain: string,
    versions: Versions,
    gradient: GradientSpec,
    legendItems: seq<LegendItem>,
    techniques: seq<LayerEntry>,
    showTacticRowBackground: bool,
    tacticRowBackground: string,
    selectTechniquesAcrossTactics: bool,
    selectSubtechniquesWithParent: bool,
    selectVisibleTechniques: bool,
    layout: Layout,
    hideDisabled: bool)

  /** The document before the techniques, gradient colours and legend are filled in. */
  function LayerShell(layerName: string, countType: string): (l: Layer)
    ensures l.techniques == [] && l.legendItems == [] && l.gradient.colors == []
  {
    Layer(
      "Enterprise techniques heat map showing " + countType + " count",
      layerName,
      "enterprise-attack",
      Versions("16", "5.0.0", "4.5"),
      GradientSpec([], 0, 1),
      [], [],
      true, "#dddddd", true, true, false,
      Layout("flat", true, false, true),
      true)
  }

  /** `[v['color'] for v in colors.values()]`. */
  function GradientColors(m: ThresholdMap): (cs: seq<Color>)
    ensures |cs| == |m| && forall i :: 0 <= i < |m| ==> cs[i] == m[i].1
  {
    seq(|m|, i requires 0 <= i < |m| => m[i].1)
  }

  function LegendLabel(k: ThresholdKey): string {
    match k
    case More => "More"
    case Num(n) => IntToString(n)
  }

  /** One legend item per map entry, in map order, labelled "More" for the
      catch-all key and with the breakpoint's decimal string otherwise. */
  function Legend(m: ThresholdMap): (items: seq<LegendItem>)
    ensures |items| == |m|
    ensures forall i :: 0 <= i < |m| ==> items[i].color == m[i].1
    ensures forall i :: 0 <= i < |m| ==> (items[i].labelText == "More" <==> m[i].0 == More)
    ensures forall i :: 0 <= i < |m| && m[i].0.Num? ==> items[i].labelText == IntToString(m[i].0.n)
  {
    seq(|m|, i requires 0 <= i < |m| => LegendItem(LegendLabel(m[i].0), m[i].1))
  }

  /** The layer entry for a technique with id `id` whose count is `count`:
      coloured by the staircase, enabled unless hidden as uncovered. */
  ghost function EntryFor(m: ThresholdMap, id: string, count: nat, comment: string, hideUncovered: bool): LayerEntry
    requires HasKey(m, More)
  {
    LayerEntry(id, StairColor(m, count), comment, true, !hideUncovered || count > 0)
  }

  /** The complete document for the given entries and colour map. */
  function LayerWith(layerName: string, countType: string, m: ThresholdMap, entries: seq<LayerEntry>): Layer {
    LayerShell(layerName, countType).(
      gradient := GradientSpec(GradientColors(m), 0, 1),
      legendItems := Legend(m),
      techniques := entries)
  }
}
