/** The four-dimension analyzer: per-technique statistics (groups,
    mitigations, non-mitigating relationships, external references), the
    overall summary, the dynamic colour thresholds and the ATT&CK Navigator
    layer for one count type. */
module Analyzer {
  import opened Common
  import opened Seqs
  import opened Attack
  import opened Ranking
  import opened HeatMap

  const GroupsKey: string := "groups_count"
  const MitigationsKey: string := "mitigations_count"
  const RelationshipsKey: string := "relationships_count"
  const ReferencedKey: string := "referenced_count"

  // ---- Statistics ----------------------------------------------------------

  /** The related relationships that count towards `relationships_count`. */
  function NonMitigating(t: Technique): seq<Relationship> {
    Filter(t.relatedRelationships, NotMitigates)
  }

  /** The `stats` record the analysis attaches to a technique. */
  function StatsOf(t: Technique): Stats {
    map[GroupsKey := |t.groups|,
        MitigationsKey := |t.mitigations|,
        RelationshipsKey := |NonMitigating(t)|,
        ReferencedKey := |t.externalReferences|]
  }

  /** A technique after `technique['stats'] = {...}`. */
  function WithStats(t: Technique): Technique {
    t.(stats := Some(StatsOf(t)))
  }

  /** After the update a technique carries exactly the four counts: the
      lengths of its group, mitigation and external-reference lists, and the
      number of related relationships that are not mitigations, which together
      with the mitigating ones make up the whole list. Nothing else changes. */
  lemma WithStatsCounts(t: Technique)
    ensures var u := WithStats(t);
            && u.stats.Some? && u.stats.value.Keys == {GroupsKey, MitigationsKey, RelationshipsKey, ReferencedKey}
            && CountOf(u, GroupsKey) == |t.groups|
            && CountOf(u, MitigationsKey) == |t.mitigations|
            && CountOf(u, ReferencedKey) == |t.externalReferences|
            && CountOf(u, RelationshipsKey) == |NonMitigating(t)|
            && CountOf(u, RelationshipsKey) + |Filter(t.relatedRelationships, Mitigates)| == |t.relatedRelationships|
            && u.(stats := t.stats) == t
  {
    FilterSplit(t.relatedRelationships, NotMitigates, Mitigates);
  }

  /** The overall statistics: `all_techniques`, `total_used_techniques`, and
      for each dimension its total, average, "most" technique and top five. */
  datatype OverallStats = OverallStats(
    allTechniques: int,
    totalUsedTechniques: nat,
    groups: DimensionSummary,
    mitigations: DimensionSummary,
    relationships: DimensionSummary,
    references: DimensionSummary)

  function Overall(ts: seq<Technique>, allTechniquesLength: int): OverallStats
    requires |ts| > 0
  {
    OverallStats(allTechniquesLength, |ts|,
      Summarize(ts, GroupsKey), Summarize(ts, MitigationsKey),
      Summarize(ts, RelationshipsKey), Summarize(ts, ReferencedKey))
  }

  /** `analyze_and_update_techniques`: attaches `stats` to every technique of
      the list in place and returns the overall statistics. The list must be
      non-empty, since `max` of an empty list raises. */
  method AnalyzeAndUpdateTechniques(techniques: array<Technique>, allTechniquesLength: int)
    returns (overall: OverallStats)
    requires techniques.Length > 0
    modifies techniques
    ensures forall i :: 0 <= i < techniques.Length ==> techniques[i] == WithStats(old(techniques[i]))
    ensures overall == Overall(techniques[..], allTechniquesLength)
  {
    for i := 0 to techniques.Length
      invariant forall k :: 0 <= k < i ==> techniques[k] == WithStats(old(techniques[k]))
      invariant forall k :: i <= k < techniques.Length ==> techniques[k] == old(techniques[k])
    {
      techniques[i] := WithStats(techniques[i]);
    }
    overall := Overall(techniques[..], allTechniquesLength);
  }

  /** The list the analysis leaves behind. */
  function Updated(ts: seq<Technique>): (us: seq<Technique>)
    ensures |us| == |ts| && forall i :: 0 <= i < |ts| ==> us[i] == WithStats(ts[i])
  {
    seq(|ts|, i requires 0 <= i < |ts| => WithStats(ts[i]))
  }

  function RelationshipsSize(t: Technique): nat { |NonMitigating(t)| }
  function ReferencesSize(t: Technique): nat { |t.externalReferences| }

  /** The summary of one dimension after the analysis: its total is the sum
      of the per-technique sizes and its average their guarded average. */
  lemma DimensionTotals(ts: seq<Technique>, key: string, size: Technique -> nat)
    requires |ts| > 0
    requires forall t :: CountOf(WithStats(t), key) == size(t)
    ensures Summarize(Updated(ts), key).total == Sum(Sizes(ts, size))
    ensures Summarize(Updated(ts), key).average == SafeAverage(Sizes(ts, size), |ts|)
  {
    SummaryOf(Updated(ts), key, Sizes(ts, size));
  }

  /** `total_used_techniques` is the number of techniques; each total is the
      sum of the corresponding list lengths over all techniques, and each
      average is the guarded average of the same lengths. */
  lemma OverallTotals(ts: seq<Technique>, allTechniquesLength: int)
    requires |ts| > 0
    ensures var o := Overall(Updated(ts), allTechniquesLength);
            && o.allTechniques == allTechniquesLength
            && o.totalUsedTechniques == |ts|
            && o.groups.total == Sum(Sizes(ts, GroupsSize))
            && o.groups.average == SafeAverage(Sizes(ts, GroupsSize), |ts|)
            && o.mitigations.total == Sum(Sizes(ts, MitigationsSize))
            && o.mitigations.average == SafeAverage(Sizes(ts, MitigationsSize), |ts|)
            && o.relationships.total == Sum(Sizes(ts, RelationshipsSize))
            && o.relationships.average == SafeAverage(Sizes(ts, RelationshipsSize), |ts|)
            && o.references.total == Sum(Sizes(ts, ReferencesSize))
            && o.references.average == SafeAverage(Sizes(ts, ReferencesSize), |ts|)
  {
    forall t ensures
      && CountOf(WithStats(t), GroupsKey) == GroupsSize(t)
      && CountOf(WithStats(t), MitigationsKey) == MitigationsSize(t)
      && CountOf(WithStats(t), RelationshipsKey) == RelationshipsSize(t)
      && CountOf(WithStats(t), ReferencedKey) == ReferencesSize(t)
    {
      WithStatsCounts(t);
    }
    DimensionTotals(ts, GroupsKey, GroupsSize);
    DimensionTotals(ts, MitigationsKey, MitigationsSize);
    DimensionTotals(ts, RelationshipsKey, RelationshipsSize);
    DimensionTotals(ts, ReferencedKey, ReferencesSize);
  }

  // ---- Colour thresholds ---------------------------------------------------

  const ValidCountTypes: seq<string> := ["groups", "mitigations", "relationships", "references"]

  predicate HasStats(t: Technique) {
    t.stats.Some?
  }

  /** `calculate_color_thresholds`. For a valid count type every technique's
      `stats` is read, so it must be present. */
  function CalculateColorThresholds(ts: seq<Technique>, countType: string, num: Numerics): (m: ThresholdMap)
    requires countType in ValidCountTypes ==> forall i :: 0 <= i < |ts| ==> HasStats(ts[i])
    ensures HasKey(m, More)
    ensures countType !in ValidCountTypes ==> m == DefaultColorScheme()
    ensures countType in ValidCountTypes ==> m == ThresholdsFromCounts(Counts(ts, CountKey(countType)), num)
  {
    DefaultSchemeKeys();
    if countType !in ValidCountTypes then DefaultColorScheme()
    else
      var counts := Counts(ts, CountKey(countType));
      assert HasKey(ThresholdsFromCounts(counts, num), More) by {
        if !UsesDefault(counts, num) {
          ComputedThresholds(counts, num);
        }
      }
      ThresholdsFromCounts(counts, num)
  }

  /** The fallbacks: an unknown count type, no techniques, only zero counts,
      or quantiles that fail all give exactly the default scheme. */
  lemma ThresholdFallbacks(ts: seq<Technique>, countType: string, num: Numerics)
    requires countType in ValidCountTypes ==> forall i :: 0 <= i < |ts| ==> HasStats(ts[i])
    ensures var counts := Counts(ts, CountKey(countType));
            || countType !in ValidCountTypes
            || |ts| == 0
            || (forall i :: 0 <= i < |ts| ==> CountOf(ts[i], CountKey(countType)) == 0)
            || num.quantiles(counts).None?
            ==> CalculateColorThresholds(ts, countType, num) == DefaultColorScheme()
  {
    var counts := Counts(ts, CountKey(countType));
    if |ts| > 0 && forall i :: 0 <= i < |ts| ==> CountOf(ts[i], CountKey(countType)) == 0 {
      assert MaxOf(counts) == 0;
    }
  }

  /** The statistics store the reference count under `referenced_count`
      while the layer code reads `references_count`, so after the analysis the
      references dimension reads zero everywhere and always gets the default
      scheme. */
  lemma ReferencesLayerReadsZero(ts: seq<Technique>, num: Numerics)
    ensures forall i :: 0 <= i < |ts| ==> CountOf(Updated(ts)[i], CountKey("references")) == 0
    ensures CalculateColorThresholds(Updated(ts), "references", num) == DefaultColorScheme()
  {
    var us := Updated(ts);
    assert CountKey("references") == "references_count";
    forall i | 0 <= i < |ts| ensures CountOf(us[i], CountKey("references")) == 0 {
      assert "references_count" !in StatsOf(ts[i]);
    }
    ThresholdFallbacks(us, "references", num);
  }

  // ---- Layer comments ------------------------------------------------------

  /** `rel.get('relationship_type', 'unknown')`. */
  function TypeName(r: Relationship): string {
    r.relationshipType.GetOr("unknown")
  }

  /** The type names of the non-mitigating relationships, in order. */
  function TypeNames(rels: seq<Relationship>): (names: seq<string>) {
    if rels == [] then []
    else
      var last := rels[|rels| - 1];
      TypeNames(rels[..|rels| - 1]) + (if NotMitigates(last) then [TypeName(last)] else [])
  }

  lemma {:induction false} TypeNamesCount(rels: seq<Relationship>)
    ensures |TypeNames(rels)| == |Filter(rels, NotMitigates)|
  {
    if rels != [] {
      TypeNamesCount(rels[..|rels| - 1]);
    }
  }

  /** The `rel_types` dictionary as (type, count) pairs in insertion order. */
  function Tally(rels: seq<Relationship>): seq<(string, nat)> {
    var names := TypeNames(rels);
    var types := Dedupe(names);
    seq(|types|, i requires 0 <= i < |types| => (types[i], multiset(names)[types[i]]))
  }

  lemma TypeNamesSnoc(rels: seq<Relationship>, i: nat)
    requires i < |rels|
    ensures TypeNames(rels[..i + 1])
         == TypeNames(rels[..i]) + (if NotMitigates(rels[i]) then [TypeName(rels[i])] else [])
  {
    assert rels[..i + 1][..i] == rels[..i];
  }

  /** `types` (the dictionary's keys in insertion order) and `counts` hold
      the distinct names of `names` and how often each occurs. */
  ghost predicate TallyState(names: seq<string>, types: seq<string>, counts: map<string, nat>) {
    && types == Dedupe(names)
    && (forall ty :: ty in counts <==> ty in types)
    && (forall ty :: ty in counts ==> counts[ty] == multiset(names)[ty])
  }

  lemma TallyStep(names: seq<string>, types: seq<string>, counts: map<string, nat>, ty: string)
    requires TallyState(names, types, counts)
    ensures TallyState(names + [ty], if ty in types then types else types + [ty],
                       counts[ty := (if ty in counts then counts[ty] else 0) + 1])
  {
    DedupeSnoc(names, ty);
  }

  /** The loop that fills the `rel_types` dictionary of a technique. */
  method CountRelationshipTypes(rels: seq<Relationship>) returns (types: seq<string>, counts: map<string, nat>)
    ensures TallyState(TypeNames(rels), types, counts)
  {
    types := [];
    counts := map[];
    ghost var names: seq<string> := [];
    for i := 0 to |rels|
      invariant names == TypeNames(rels[..i])
      invariant TallyState(names, types, counts)
    {
      TypeNamesSnoc(rels, i);
      if NotMitigates(rels[i]) {
        var ty := TypeName(rels[i]);
        TallyStep(names, types, counts, ty);
        counts := counts[ty := (if ty in counts then counts[ty] else 0) + 1];
        if ty !in types {
          types := types + [ty];
        }
        names := names + [ty];
      } else {
        assert names + [] == names;
      }
    }
    assert rels[..|rels|] == rels;
  }

  /** `rel_types.items()`. */
  method TallyRelationshipTypes(rels: seq<Relationship>) returns (tally: seq<(string, nat)>)
    ensures tally == Tally(rels)
  {
    var types, counts := CountRelationshipTypes(rels);
    tally := seq(|types|, k requires 0 <= k < |types| => (types[k], counts[types[k]]));
  }

  function TallyCounts(tally: seq<(string, nat)>): seq<int> {
    seq(|tally|, i requires 0 <= i < |tally| => tally[i].1)
  }

  /** The breakdown names every type once, and its counts add up to the
      technique's `relationships_count`; it is empty exactly when the
      technique has no non-mitigating relationship. */
  lemma TallyAccountsForRelationships(t: Technique)
    ensures var tally := Tally(t.relatedRelationships);
            && (forall i, j :: 0 <= i < j < |tally| ==> tally[i].0 != tally[j].0)
            && Sum(TallyCounts(tally)) == CountOf(WithStats(t), RelationshipsKey)
            && (tally == [] <==> NonMitigating(t) == [])
  {
    var rels := t.relatedRelationships;
    TallySum(rels);
    assert CountOf(WithStats(t), RelationshipsKey) == |NonMitigating(t)|;
    TallyEmpty(rels);
  }

  /** The counts of the breakdown add up to the number of non-mitigating
      relationships. */
  lemma TallySum(rels: seq<Relationship>)
    ensures Sum(TallyCounts(Tally(rels))) == |Filter(rels, NotMitigates)|
  {
    var names := TypeNames(rels);
    TypeNamesCount(rels);
    DedupeMultiplicitiesSum(names);
    assert TallyCounts(Tally(rels)) == Multiplicities(Dedupe(names), names);
  }

  lemma TallyEmpty(rels: seq<Relationship>)
    ensures Tally(rels) == [] <==> Filter(rels, NotMitigates) == []
  {
    var names := TypeNames(rels);
    TypeNamesCount(rels);
    if names != [] {
      assert names[0] in Dedupe(names);
    }
  }

  /** `", ".join(f"{type_}: {count_}" ...)`. */
  function Breakdown(tally: seq<(string, nat)>): string {
    Join(", ", seq(|tally|, i requires 0 <= i < |tally| => tally[i].0 + ": " + NatToString(tally[i].1)))
  }

  /** The comment of a layer entry: the count and the count type, and for
      the relationships layer the breakdown by relationship type when there is
      one. */
  function Comment(t: Technique, countType: string): (c: string)
    ensures NatToString(CountOf(t, CountKey(countType))) + " " + countType <= c
  {
    var base := NatToString(CountOf(t, CountKey(countType))) + " " + countType;
    var tally := Tally(t.relatedRelationships);
    if countType == "relationships" && tally != [] then base + " (" + Breakdown(tally) + ")" else base
  }

  // ---- The layer -----------------------------------------------------------

  /** The layer entry of a technique that has a `technique_id`. */
  ghost function Cell(m: ThresholdMap, t: Technique, countType: string, hideUncovered: bool): LayerEntry
    requires HasKey(m, More) && HasTechniqueId(t)
  {
    EntryFor(m, t.techniqueId.value, CountOf(t, CountKey(countType)), Comment(t, countType), hideUncovered)
  }

  /** What `create_navigator_layer` reads: every technique's `stats` for the
      thresholds of a valid count type, and the `stats` of every technique
      that gets an entry. */
  predicate StatsReadable(ts: seq<Technique>, countType: string) {
    && (countType in ValidCountTypes ==> forall i :: 0 <= i < |ts| ==> HasStats(ts[i]))
    && (forall i :: 0 <= i < |ts| && HasTechniqueId(ts[i]) ==> HasStats(ts[i]))
  }

  /** The body of the entry loop for one technique that has an id: the
      count, the comment with the optional relationship breakdown, the colour,
      and the `enabled` flag. */
  method MakeEntry(colors: ThresholdMap, t: Technique, countType: string, hideUncovered: bool)
    returns (entry: LayerEntry)
    requires HasKey(colors, More) && HasTechniqueId(t)
    ensures entry == Cell(colors, t, countType, hideUncovered)
  {
    var count := CountOf(t, CountKey(countType));
    var comment := NatToString(count) + " " + countType;
    if countType == "relationships" {
      var tally := TallyRelationshipTypes(t.relatedRelationships);
      if |tally| > 0 {
        comment := comment + " (" + Breakdown(tally) + ")";
      }
    }
    var color := FindColorForCount(colors, count);
    entry := LayerEntry(t.techniqueId.value, color, comment, true, !hideUncovered || count > 0);
  }

  /** The entries for the techniques `ts` (those with an id, in order). */
  ghost predicate EntriesFor(entries: seq<LayerEntry>, colors: ThresholdMap, ts: seq<Technique>, countType: string, hideUncovered: bool)
    requires HasKey(colors, More)
  {
    var shown := Filter(ts, HasTechniqueId);
    |entries| == |shown| && forall k :: 0 <= k < |shown| ==> entries[k] == Cell(colors, shown[k], countType, hideUncovered)
  }

  lemma EntriesForSnoc(entries: seq<LayerEntry>, colors: ThresholdMap, ts: seq<Technique>, i: nat,
                       countType: string, hideUncovered: bool)
    requires HasKey(colors, More) && i < |ts|
    requires EntriesFor(entries, colors, ts[..i], countType, hideUncovered)
    ensures HasTechniqueId(ts[i]) ==>
              EntriesFor(entries + [Cell(colors, ts[i], countType, hideUncovered)], colors, ts[..i + 1], countType, hideUncovered)
    ensures !HasTechniqueId(ts[i]) ==> EntriesFor(entries, colors, ts[..i + 1], countType, hideUncovered)
  {
    assert ts[..i + 1][..i] == ts[..i];
    var shown := Filter(ts[..i], HasTechniqueId);
    if HasTechniqueId(ts[i]) {
      var shown' := shown + [ts[i]];
      assert Filter(ts[..i + 1], HasTechniqueId) == shown';
      var entries' := entries + [Cell(colors, ts[i], countType, hideUncovered)];
      forall k | 0 <= k < |shown'| ensures entries'[k] == Cell(colors, shown'[k], countType, hideUncovered) {
        if k < |shown| {
          assert shown'[k] == shown[k];
        }
      }
    } else {
      assert Filter(ts[..i + 1], HasTechniqueId) == shown;
    }
  }

  /** `create_navigator_layer`: one entry per technique with a truthy
      `technique_id`, in input order, coloured by the staircase lookup over the
      thresholds of `countType`; then the gradient and the legend from the
      threshold map. */
  method CreateNavigatorLayer(techniques: seq<Technique>, layerName: string, countType: string,
                              hideUncovered: bool, num: Numerics)
    returns (layer: Layer)
    requires StatsReadable(techniques, countType)
    ensures var m := CalculateColorThresholds(techniques, countType, num);
            && layer == LayerWith(layerName, countType, m, layer.techniques)
            && EntriesFor(layer.techniques, m, techniques, countType, hideUncovered)
  {
    var colors := CalculateColorThresholds(techniques, countType, num);
    var entries: seq<LayerEntry> := [];
    for i := 0 to |techniques|
      invariant EntriesFor(entries, colors, techniques[..i], countType, hideUncovered)
    {
      EntriesForSnoc(entries, colors, techniques, i, countType, hideUncovered);
      var t := techniques[i];
      if HasTechniqueId(t) {
        var entry := MakeEntry(colors, t, countType, hideUncovered);
        entries := entries + [entry];
      }
    }
    assert techniques[..|techniques|] == techniques;
    assert EntriesFor(entries, colors, techniques, countType, hideUncovered);
    layer := LayerWith(layerName, countType, colors, entries);
    assert layer.techniques == entries;
  }
}
