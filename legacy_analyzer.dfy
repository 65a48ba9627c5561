/** The older two-dimension analyzer: statistics for groups and mitigations
    only, the overall summary with a guarded average, colour thresholds for
    the two count types and the ATT&CK Navigator layer with a plain comment.
    The colour machinery is the same as the four-dimension analyzer's. */
module LegacyAnalyzer {
  import opened Common
  import opened Seqs
  import opened Attack
  import opened Ranking
  import opened HeatMap

  const GroupsKey: string := "groups_count"
  const MitigationsKey: string := "mitigations_count"

  // ---- Statistics ----------------------------------------------------------

  /** The `stats` record of this snapshot: two counts. */
  function StatsOf(t: Technique): Stats {
    map[GroupsKey := |t.groups|, MitigationsKey := |t.mitigations|]
  }

  function WithStats(t: Technique): Technique {
    t.(stats := Some(StatsOf(t)))
  }

  /** After the update a technique carries exactly `groups_count` and
      `mitigations_count`, the lengths of its two lists; every other count
      type reads zero, and nothing else about the technique changes. */
  lemma WithStatsCounts(t: Technique, key: string)
    ensures var u := WithStats(t);
            && u.stats.Some? && u.stats.value.Keys == {GroupsKey, MitigationsKey}
            && CountOf(u, GroupsKey) == |t.groups|
            && CountOf(u, MitigationsKey) == |t.mitigations|
            && (key != GroupsKey && key != MitigationsKey ==> CountOf(u, key) == 0)
            && u.(stats := t.stats) == t
  {
  }

  /** The overall statistics of this snapshot. */
  datatype OverallStats = OverallStats(
    allTechniques: int,
    totalUsedTechniques: nat,
    groups: DimensionSummary,
    mitigations: DimensionSummary)

  function Overall(ts: seq<Technique>, allTechniquesLength: int): OverallStats
    requires |ts| > 0
  {
    OverallStats(allTechniquesLength, |ts|, Summarize(ts, GroupsKey), Summarize(ts, MitigationsKey))
  }

  /** `analyze_and_update_techniques` of this snapshot: attaches the two
      counts to every technique in place and returns the overall statistics;
      `max` of an empty list raises, so the list must be non-empty. */
  method AnalyzeAndUpdateTechniques(techniques: array<Technique>, allTechniquesLength: int)
    returns (overall: OverallStats)
    requires techniques.Length > 0
    modifies techniques
    ensures forall i :: 0 <= i < techniques.Length ==> techniques[i] == WithStats(old(techniques[i]))
    ensures overall == Overall(techniques[..], allTechniquesLength)
  {
    for i := 0 to techniques.Length
      invariant forall k :: 0 <= k < i ==> techniques[k] == WithStats(old(techniques[k]))
      invariant forall k :: i <= k < techniques.Length ==> techniques[k] == old(techniques[k])
    {
      techniques[i] := WithStats(techniques[i]);
    }
    overall := Overall(techniques[..], allTechniquesLength);
  }

  function Updated(ts: seq<Technique>): (us: seq<Technique>)
    ensures |us| == |ts| && forall i :: 0 <= i < |ts| ==> us[i] == WithStats(ts[i])
  {
    seq(|ts|, i requires 0 <= i < |ts| => WithStats(ts[i]))
  }

  /** The totals are the sums of the list lengths and the averages are the
      guarded averages of the same lists. */
  lemma OverallTotals(ts: seq<Technique>, allTechniquesLength: int)
    requires |ts| > 0
    ensures var o := Overall(Updated(ts), allTechniquesLength);
            && o.allTechniques == allTechniquesLength
            && o.totalUsedTechniques == |ts|
            && o.groups.total == Sum(Sizes(ts, GroupsSize))
            && o.mitigations.total == Sum(Sizes(ts, MitigationsSize))
            && o.groups.average == SafeAverage(Sizes(ts, GroupsSize), |ts|)
            && o.mitigations.average == SafeAverage(Sizes(ts, MitigationsSize), |ts|)
  {
    var us := Updated(ts);
    SummaryOf(us, GroupsKey, Sizes(ts, GroupsSize));
    SummaryOf(us, MitigationsKey, Sizes(ts, MitigationsSize));
  }

  // ---- Colour thresholds ---------------------------------------------------

  const ValidCountTypes: seq<string> := ["groups", "mitigations"]

  predicate HasStats(t: Technique) {
    t.stats.Some?
  }

  /** `calculate_color_thresholds` of this snapshot. */
  function CalculateColorThresholds(ts: seq<Technique>, countType: string, num: Numerics): (m: ThresholdMap)
    requires countType in ValidCountTypes ==> forall i :: 0 <= i < |ts| ==> HasStats(ts[i])
    ensures HasKey(m, More)
    ensures countType !in ValidCountTypes ==> m == DefaultColorScheme()
    ensures countType in ValidCountTypes ==> m == ThresholdsFromCounts(Counts(ts, CountKey(countType)), num)
  {
    DefaultSchemeKeys();
    if countType !in ValidCountTypes then DefaultColorScheme()
    else
      var counts := Counts(ts, CountKey(countType));
      assert HasKey(ThresholdsFromCounts(counts, num), More) by {
        if !UsesDefault(counts, num) {
          ComputedThresholds(counts, num);
        }
      }
      ThresholdsFromCounts(counts, num)
  }

  /** Only "groups" and "mitigations" can get data-driven thresholds: any
      other count type, no techniques, or all-zero counts give the red
      default scheme. */
  lemma ThresholdFallbacks(ts: seq<Technique>, countType: string, num: Numerics)
    requires countType in ValidCountTypes ==> forall i :: 0 <= i < |ts| ==> HasStats(ts[i])
    ensures || (countType != "groups" && countType != "mitigations")
            || |ts| == 0
            || (forall i :: 0 <= i < |ts| ==> CountOf(ts[i], CountKey(countType)) == 0)
            ==> CalculateColorThresholds(ts, countType, num) == DefaultColorScheme()
  {
    var counts := Counts(ts, CountKey(countType));
    if |ts| > 0 && forall i :: 0 <= i < |ts| ==> CountOf(ts[i], CountKey(countType)) == 0 {
      assert MaxOf(counts) == 0;
    }
  }

  // ---- The layer -----------------------------------------------------------

  /** The layer entry of a technique that has a `technique_id`; the comment
      is the count followed by the count type. */
  ghost function Cell(m: ThresholdMap, t: Technique, countType: string, hideUncovered: bool): LayerEntry
    requires HasKey(m, More) && HasTechniqueId(t)
  {
    var count := CountOf(t, CountKey(countType));
    EntryFor(m, t.techniqueId.value, count, NatToString(count) + " " + countType, hideUncovered)
  }

  /** The body of the entry loop for a technique that has an id. */
  method MakeEntry(colors: ThresholdMap, t: Technique, countType: string, hideUncovered: bool)
    returns (entry: LayerEntry)
    requires HasKey(colors, More) && HasTechniqueId(t)
    ensures entry == Cell(colors, t, countType, hideUncovered)
  {
    var count := CountOf(t, CountKey(countType));
    var comment := NatToString(count) + " " + countType;
    var color := FindColorForCount(colors, count);
    entry := LayerEntry(t.techniqueId.value, color, comment, true, !hideUncovered || count > 0);
  }

  /** The entries for the techniques `ts` (those with an id, in order). */
  ghost predicate EntriesFor(entries: seq<LayerEntry>, colors: ThresholdMap, ts: seq<Technique>, countType: string, hideUncovered: bool)
    requires HasKey(colors, More)
  {
    var shown := Filter(ts, HasTechniqueId);
    |entries| == |shown| && forall k :: 0 <= k < |shown| ==> entries[k] == Cell(colors, shown[k], countType, hideUncovered)
  }

  lemma EntriesForSnoc(entries: seq<LayerEntry>, colors: ThresholdMap, ts: seq<Technique>, i: nat,
                       countType: string, hideUncovered: bool)
    requires HasKey(colors, More) && i < |ts|
    requires EntriesFor(entries, colors, ts[..i], countType, hideUncovered)
    ensures HasTechniqueId(ts[i]) ==>
              EntriesFor(entries + [Cell(colors, ts[i], countType, hideUncovered)], colors, ts[..i + 1], countType, hideUncovered)
    ensures !HasTechniqueId(ts[i]) ==> EntriesFor(entries, colors, ts[..i + 1], countType, hideUncovered)
  {
    assert ts[..i + 1][..i] == ts[..i];
    var shown := Filter(ts[..i], HasTechniqueId);
    if HasTechniqueId(ts[i]) {
      var shown' := shown + [ts[i]];
      assert Filter(ts[..i + 1], HasTechniqueId) == shown';
      var entries' := entries + [Cell(colors, ts[i], countType, hideUncovered)];
      forall k | 0 <= k < |shown'| ensures entries'[k] == Cell(colors, shown'[k], countType, hideUncovered) {
        if k < |shown| {
          assert shown'[k] == shown[k];
        }
      }
    } else {
      assert Filter(ts[..i + 1], HasTechniqueId) == shown;
    }
  }

  /** What `create_navigator_layer` reads of the techniques' `stats`. */
  predicate StatsReadable(ts: seq<Technique>, countType: string) {
    && (countType in ValidCountTypes ==> forall i :: 0 <= i < |ts| ==> HasStats(ts[i]))
    && (forall i :: 0 <= i < |ts| && HasTechniqueId(ts[i]) ==> HasStats(ts[i]))
  }

  /** `create_navigator_layer` of this snapshot: one entry per technique with
      a truthy `technique_id`, in input order, then the gradient and legend
      from the threshold map. */
  method CreateNavigatorLayer(techniques: seq<Technique>, layerName: string, countType: string,
                              hideUncovered: bool, num: Numerics)
    returns (layer: Layer)
    requires StatsReadable(techniques, countType)
    ensures var m := CalculateColorThresholds(techniques, countType, num);
            && layer == LayerWith(layerName, countType, m, layer.techniques)
            && EntriesFor(layer.techniques, m, techniques, countType, hideUncovered)
  {
    var colors := CalculateColorThresholds(techniques, countType, num);
    var entries: seq<LayerEntry> := [];
    for i := 0 to |techniques|
      invariant EntriesFor(entries, colors, techniques[..i], countType, hideUncovered)
    {
      EntriesForSnoc(entries, colors, techniques, i, countType, hideUncovered);
      var t := techniques[i];
      if HasTechniqueId(t) {
        var entry := MakeEntry(colors, t, countType, hideUncovered);
        entries := entries + [entry];
      }
    }
    assert techniques[..|techniques|] == techniques;
    assert EntriesFor(entries, colors, techniques, countType, hideUncovered);
    layer := LayerWith(layerName, countType, colors, entries);
    assert layer.techniques == entries;
  }
}
