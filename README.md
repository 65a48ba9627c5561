# MITRE ATT&CK mapping, analysis and optimisation — a Dafny model

This project models the data-processing core of a set of scripts that load MITRE ATT&CK
and D3FEND data, attach relationships, intrusion sets (groups) and mitigations to every
technique, compute per-technique statistics, and build ATT&CK Navigator heat-map layers.
The last part compacts the result for publication. The model covers four parts:

- **The mapper** (`Mapper`, mapper.dfy). It buckets relationships by `target_ref`, then
  splits each technique's bucket into `mitigations` and `related_relationships`. It derives
  each technique's group references from its "uses" relationships whose source is an
  intrusion set. It stamps the ATT&CK `mitigation_id` onto every mitigation. Each step
  updates the technique list in place, as in the source.
- **The four-dimension analyzer** (`Analyzer`, analyzer.dfy) and **the two-dimension
  analyzer** (`LegacyAnalyzer`, legacy_analyzer.dfy). They attach `stats` to every
  technique in place. They compute totals, averages, the first technique with the maximum
  count and the stable top five (`Ranking`, `Sorting`). They derive a threshold-to-colour
  map from the data, or fall back to the fixed default scheme. They colour each technique
  by a staircase lookup (`HeatMap`) and build the Navigator layer document, including the
  per-type breakdown of relationships in the comments.
- **The optimiser** (`Optimizer`, optimizer.dfy, with `Interning`, interning.dfy). It
  projects each technique onto the published fields. It then interns every D3FEND
  reference (keyed by URL) and every author across all techniques into two tables with ids
  "1", "2", ... in first-seen order. It rewrites the lists in place into those ids and
  publishes the reverse lookups with the metadata.
- **The final pruning** `clean_empty` (`JsonClean`, json_clean.dfy). It runs over
  JSON-like values and drops empty values from dictionaries and lists.

Records that the source handles as dictionaries are datatypes (attack.dfy). A key that
may be missing is an `Option`. A list of techniques that the source mutates in place is
an `array` of those datatypes. Each method updating it is proved against a function that
gives the new value of every element. The statistics functions of Python (`quantiles`,
`mean`, `round`) and the HSV interpolation of the colour gradient are parameters (the
`Numerics` datatype). The time stamp of the optimised file is a parameter too.

The catch-all "more" key of the heat-map colour map gets the extra last gradient colour
(`colors[-1]` of `len(thresholds) + 1` colours), not the colour of the highest numeric
breakpoint. `HeatMap.ComputedThresholds` states this.

The optimiser's two tables share one shape in the model: each key maps to a slot holding
its id and the first value seen with that key. The source's reference table has that
shape. Its author table maps each author straight to its id string. The author slot's
value is the author itself (`Optimizer.AuthorSlotsHoldKeys`). Inverting the author table,
as the source does, therefore gives the same lookup as reading the slots
(`Optimizer.AuthorReverseIsReverse`).

## Model

| member | source | states |
|---|---|---|
| Common.NatToStringInjective | optimizer.py:39-41 | `str(counter)` gives different counters different ids, and equal ids only to equal counters |
| Common.ParseNatToString | optimizer.py:41 | a counter id reads back as the counter it was made from |
| Sorting.SortBy | blog3_analyzing_mitre_data/analyzer.py:37-41 | `sorted` returns a permutation of its input of the same length |
| Sorting.SortByOrderedAndStable | blog3_analyzing_mitre_data/analyzer.py:37-41 | `sorted(..., key, reverse=True)` is ordered by the key, and the techniques sharing a key keep their input order |
| Sorting.FirstMaxIndex | blog3_analyzing_mitre_data/analyzer.py:81-84 | `max(..., key=...)` picks a technique whose count no other exceeds and which no earlier technique equals |
| Ranking.Counts | blog3_analyzing_mitre_data/analyzer.py:212 | the count list holds each technique's `stats` count for the key, 0 when it is absent, in technique order |
| Ranking.SafeAverage | analyzer.py:61-65 | the average times the number of techniques is the total, and it is 0 when there are no techniques |
| Ranking.TopFiveTechniques | blog3_analyzing_mitre_data/analyzer.py:36-41 | the top list has five techniques, or all of them when there are fewer |
| Ranking.TopFiveSpec | blog3_analyzing_mitre_data/analyzer.py:36-41 | the top five are in non-increasing count order and keep input order among equal counts; every technique with a count above the fifth's is among them |
| Ranking.TopFiveFromInput | blog3_analyzing_mitre_data/analyzer.py:36-41 | the top five are drawn from the input, each at most as often as it occurs there |
| Ranking.TopFive | blog3_analyzing_mitre_data/analyzer.py:44-78 | the i-th ranking row carries the id, name and count of the i-th of the top five techniques, one row per such technique |
| Ranking.MostIsFirstMax | blog3_analyzing_mitre_data/analyzer.py:81-84 | the "most" technique has the largest count and is the first with it |
| Ranking.Summarize | blog3_analyzing_mitre_data/analyzer.py:87-123 | a dimension's summary has the sum of the counts as total, the safe average, the first-maximum technique as "most", at least that technique's count as total, and as top list the ranking rows of the top five techniques, five of them or all when there are fewer |
| Ranking.SummaryOf | blog3_analyzing_mitre_data/analyzer.py:90-97 | the total and average of a dimension are those of any list equal to the per-technique counts |
| HeatMap.Lookup | blog3_analyzing_mitre_data/analyzer.py:150 | `colors[key]` finds a colour exactly when the key is in the map, and it is that key's colour |
| HeatMap.DigitKeysSpec | blog3_analyzing_mitre_data/analyzer.py:138 | the numeric keys are exactly the non-negative breakpoints of the map, without repeats |
| HeatMap.SelectsUnique | blog3_analyzing_mitre_data/analyzer.py:138-148 | the staircase selects at most one key for a count |
| HeatMap.SelectsTotal | blog3_analyzing_mitre_data/analyzer.py:138-148 | the staircase selects a key for every count |
| HeatMap.StaircaseMonotone | blog3_analyzing_mitre_data/analyzer.py:138-148 | a larger count never selects a smaller breakpoint; it selects a larger or equal one, or "more" |
| HeatMap.FindColorForCount | blog3_analyzing_mitre_data/analyzer.py:128-150 | the colour returned is that of the greatest breakpoint not above the count, or of "more" when no breakpoint qualifies or the count exceeds every one |
| HeatMap.WalkSelects | blog3_analyzing_mitre_data/analyzer.py:140-148 | the key the walk over the ascending breakpoints ends on is the selected key of the staircase |
| HeatMap.DefaultColorScheme | blog3_analyzing_mitre_data/analyzer.py:266-280 | the effective default scheme has seven entries, the last being "more" with the deepest red |
| HeatMap.DefaultSchemeKeys | blog3_analyzing_mitre_data/analyzer.py:272-280 | the default breakpoints are 0, 1, 2, 4, 6 and 11, and "more" is present |
| HeatMap.Gradient | blog3_analyzing_mitre_data/analyzer.py:183-193 | the gradient has exactly `steps` colours |
| HeatMap.GradientEndpoints | blog3_analyzing_mitre_data/analyzer.py:185-191 | the first colour is the start and the last is the end of the interpolation |
| HeatMap.GenerateColorGradient | blog3_analyzing_mitre_data/analyzer.py:152-193 | the loop appends the interpolated colour for every ratio i/(steps-1), giving the gradient above |
| HeatMap.Breakpoints | blog3_analyzing_mitre_data/analyzer.py:223-233 | the breakpoints are strictly increasing, are exactly the candidate values (0, quartiles, mean, 90% of max, max), and include 0 and the maximum count |
| HeatMap.ThresholdsFromCounts | blog3_analyzing_mitre_data/analyzer.py:214-236 | no counts, a zero maximum or a failing quantile computation give the default scheme |
| HeatMap.ComputedThresholds | blog3_analyzing_mitre_data/analyzer.py:238-246 | otherwise the map pairs each breakpoint in increasing order with the gradient colour of the same index, and maps "more" to the extra last colour; 0 and the maximum are keys |
| HeatMap.ComputedThresholdsBounds | blog3_analyzing_mitre_data/analyzer.py:226-233 | with estimates inside the data range, the lowest breakpoint is 0 and the highest is the maximum count |
| HeatMap.LayerShell | blog3_analyzing_mitre_data/analyzer.py:298-326 | the layer starts with no entries, no legend and no gradient colours |
| HeatMap.GradientColors | blog3_analyzing_mitre_data/analyzer.py:365 | the gradient lists the colours of the map in map order |
| HeatMap.Legend | blog3_analyzing_mitre_data/analyzer.py:366-371 | one legend item per map entry with its colour, in map order; the catch-all key is labelled "More" and only it, and a numeric breakpoint `k` is labelled `str(k)` |
| Analyzer.WithStatsCounts | blog3_analyzing_mitre_data/analyzer.py:23-33 | `stats` holds exactly the four counts: the lengths of groups, mitigations and external references, and the non-mitigating related relationships, which with the mitigating ones make up the list; nothing else changes |
| Analyzer.AnalyzeAndUpdateTechniques | blog3_analyzing_mitre_data/analyzer.py:10-125 | every technique of the list gets its stats in place, and the overall statistics are those of the updated list |
| Analyzer.Updated | blog3_analyzing_mitre_data/analyzer.py:23-33 | the updated list is the input with stats attached to each technique |
| Ranking.Sizes | blog3_analyzing_mitre_data/analyzer.py:90-97 | the size list has one measured size per technique |
| Analyzer.DimensionTotals | blog3_analyzing_mitre_data/analyzer.py:90-97 | a dimension's total and average are the sum and safe average of the sizes its count measures |
| Analyzer.OverallTotals | blog3_analyzing_mitre_data/analyzer.py:87-97 | the overall statistics report the given length, the number of techniques, and, per dimension, the sum and average of the underlying list lengths |
| Analyzer.CalculateColorThresholds | blog3_analyzing_mitre_data/analyzer.py:195-248 | an unknown count type gives the default scheme, a known one the thresholds of its counts; "more" is always a key |
| Analyzer.ThresholdFallbacks | blog3_analyzing_mitre_data/analyzer.py:205-236 | an invalid type, no techniques, all-zero counts or a failing quantile computation each give the default scheme |
| Analyzer.ReferencesLayerReadsZero | blog3_analyzing_mitre_data/analyzer.py:206-220 | the "references" layer reads `references_count`, which the stats (line 32 stores `referenced_count`) never hold, so every count is 0 and the layer gets the default scheme |
| Analyzer.TypeNamesCount | blog3_analyzing_mitre_data/analyzer.py:342-345 | one type name is tallied per non-mitigating relationship |
| Analyzer.TallyStep | blog3_analyzing_mitre_data/analyzer.py:344-345 | counting one more type increments its count, or adds it at the end with count 1 |
| Analyzer.CountRelationshipTypes | blog3_analyzing_mitre_data/analyzer.py:341-345 | the loop leaves the types in first-seen order, each with the number of times it occurs |
| Analyzer.TallyRelationshipTypes | blog3_analyzing_mitre_data/analyzer.py:341-350 | the breakdown is the type tally of the technique's relationships |
| Analyzer.TallyAccountsForRelationships | blog3_analyzing_mitre_data/analyzer.py:339-351 | the tally has no repeated type, its counts add up to `relationships_count`, and it is empty exactly when no relationship is non-mitigating |
| Analyzer.TallySum | blog3_analyzing_mitre_data/analyzer.py:339-351 | the counts of the breakdown add up to the number of non-mitigating relationships |
| Analyzer.TallyEmpty | blog3_analyzing_mitre_data/analyzer.py:341-348 | the breakdown is empty exactly when no relationship is non-mitigating |
| Analyzer.Comment | blog3_analyzing_mitre_data/analyzer.py:338-351 | a comment starts with "<count> <count type>" |
| Analyzer.MakeEntry | blog3_analyzing_mitre_data/analyzer.py:335-361 | a technique's entry carries its ATT&CK id, the staircase colour of its count, its comment, and is enabled unless uncovered techniques are hidden and the count is 0 |
| Analyzer.EntriesForSnoc | blog3_analyzing_mitre_data/analyzer.py:329-332 | a technique without an ATT&CK id adds no entry, one with it adds its entry at the end |
| Analyzer.CreateNavigatorLayer | blog3_analyzing_mitre_data/analyzer.py:282-373 | the layer is the shell with the map's gradient and legend, and one entry per technique with an ATT&CK id, in input order |
| LegacyAnalyzer.WithStatsCounts | analyzer.py:23-27 | `stats` holds exactly the group and mitigation counts, every other count type reads 0, and nothing else changes |
| LegacyAnalyzer.AnalyzeAndUpdateTechniques | analyzer.py:10-90 | every technique gets its two counts in place, and the overall statistics are those of the updated list |
| LegacyAnalyzer.Updated | analyzer.py:23-27 | the updated list is the input with stats attached to each technique |
| LegacyAnalyzer.OverallTotals | analyzer.py:67-88 | the overall statistics report the given length, the number of techniques, and the sum and safe average of the group and mitigation list lengths |
| LegacyAnalyzer.CalculateColorThresholds | analyzer.py:154-200 | only "groups" and "mitigations" are valid count types; others give the default scheme; "more" is always a key |
| LegacyAnalyzer.ThresholdFallbacks | analyzer.py:164-190 | an invalid type, no techniques or all-zero counts give the default scheme |
| LegacyAnalyzer.MakeEntry | analyzer.py:267-277 | a technique's entry has the comment "<count> <count type>", the staircase colour and the enabled flag |
| LegacyAnalyzer.EntriesForSnoc | analyzer.py:262-265 | techniques without an ATT&CK id are skipped, the others add their entry at the end |
| LegacyAnalyzer.CreateNavigatorLayer | analyzer.py:218-288 | the layer is the shell with the map's gradient and legend, and one entry per technique with an ATT&CK id, in input order |
| Mapper.BucketsStep | blog2_mapping_mitre_data/mapper.py:111-115 | appending one relationship to its target's bucket keeps the buckets exact for the prefix seen |
| Mapper.PrepareRelationshipMapping | blog2_mapping_mitre_data/mapper.py:101-116 | the map has a key for exactly the targets that occur (a missing target included), and each bucket holds the relationships aimed at that target in input order |
| Mapper.BucketsPartition | blog2_mapping_mitre_data/mapper.py:110-116 | every relationship is in its target's bucket and in no other |
| Mapper.AppendBucket | blog2_mapping_mitre_data/mapper.py:25-29 | the mitigating relationships of the bucket are appended to `mitigations`, the others to `related_relationships`, in order |
| Mapper.MapRelationshipsToTechnique | blog2_mapping_mitre_data/mapper.py:22-29 | a technique gains exactly the relationships aimed at it, split by type, whether or not its id has a bucket |
| Mapper.MapRelationshipsToTechniques | blog2_mapping_mitre_data/mapper.py:8-30 | every technique of the list is updated in place with its relationships |
| Mapper.RelationshipsAppended | blog2_mapping_mitre_data/mapper.py:21-29 | the old lists are prefixes of the new ones; together they grow by exactly the relationships aimed at the technique, the mitigating ones in `mitigations` and the rest in `related_relationships` |
| Mapper.DerivedGroupsSpec | blog2_mapping_mitre_data/mapper.py:43-60 | the k-th group reference comes from the k-th "uses" relationship whose source is a known intrusion set, in relationship order, duplicates kept; it copies that group's map entry, with `id` equal to `group_id` |
| Mapper.MapGroupsToTechniques | blog2_mapping_mitre_data/mapper.py:32-61 | every technique's `groups` is replaced in place by the references derived from its related relationships; nothing else changes |
| Mapper.CollectGroups | blog2_mapping_mitre_data/mapper.py:46-59 | the inner loop collects, in order, exactly the group references derived from the technique's related relationships |
| Mapper.Annotate | blog2_mapping_mitre_data/mapper.py:77-81 | a mitigation whose source is a known course of action gets that one's `mitigation_id`; any other is left as it is |
| Mapper.Annotated | blog2_mapping_mitre_data/mapper.py:77-81 | every mitigation of a technique is annotated, none added or removed |
| Mapper.MapMitigationsToTechniques | blog2_mapping_mitre_data/mapper.py:63-83 | every technique's mitigations are annotated in place; nothing else changes |
| Mapper.AnnotateMitigations | blog2_mapping_mitre_data/mapper.py:77-81 | the inner loop annotates every mitigation entry of one technique in place, none added or removed |
| Mapper.AnnotationSpec | blog2_mapping_mitre_data/mapper.py:74-79 | with several courses of action under one id, the last of them supplies the `mitigation_id` |
| Mapper.UnknownSourceUntouched | blog2_mapping_mitre_data/mapper.py:78-81 | a mitigation whose source is no known course of action keeps its record unchanged |
| Mapper.MapAllData | blog2_mapping_mitre_data/mapper.py:85-99 | the three mappings run in order over the list in place, each technique ending as relationships, then groups, then mitigation ids attached |
| Interning.InternStep | optimizer.py:38-44 | interning one value gives a new key the next counter value and keeps the first value; a known key changes nothing |
| Interning.TableFor | optimizer.py:38-43 | the table interning a sequence has a key for exactly each distinct key of its values |
| Interning.KnownKeyStep | optimizer.py:38 | seeing a key already in the table changes neither the order of keys nor the table |
| Interning.NewKeyStep | optimizer.py:38-43 | a new key adds one entry, numbered one past the number of keys so far and holding the value |
| Interning.IdFinal | optimizer.py:38-44 | an id handed out part-way through is the one the key keeps at the end |
| Interning.IdAtInjective | optimizer.py:39-41 | distinct keys get distinct ids |
| Interning.ReverseLookupOfInterned | optimizer.py:58-60 | the ids in the table are distinct, and the reverse lookup maps each key's id to the first value seen with that key |
| Interning.OrderKeys | optimizer.py:37-38 | the table has a key exactly for each key of an interned value |
| Interning.LookupIds | optimizer.py:38-43 | the published ids are exactly "1" to the number of distinct keys |
| Interning.LookupRoundTrip | optimizer.py:37-60 | looking up the id a value was given yields the first value seen with the same key |
| Optimizer.OptimizeGroupData | optimizer.py:9-16 | the summary keeps a group's `id`, `name`, `aliases` and `description` and drops `group_id`; the reference is rebuilt from it exactly when its group id equals its id |
| Optimizer.OptimizeTechniqueData | optimizer.py:74-86 | the record keeps one group summary per group, in order |
| Optimizer.MappedGroupsSurvive | optimizer.py:9-16 | a mapped technique's group references can all be rebuilt from their summaries; the record is an "attack-pattern" and carries a `d3fend` list |
| Optimizer.IdsFor | optimizer.py:35-45 | a rewritten list holds, item by item, the id of the item's key |
| Optimizer.AsRefs | optimizer.py:45 | the rewritten reference list has one id per reference |
| Optimizer.RewrittenEntry | optimizer.py:31-55 | a rewritten D3FEND entry keeps its label, keeps `references` and `authors` present exactly when they were, and keeps their lengths |
| Optimizer.RewrittenEntries | optimizer.py:31-55 | every D3FEND entry of a technique is rewritten, none added or removed |
| Optimizer.RewrittenTechnique | optimizer.py:29-55 | only the `d3fend` list of a technique changes, and it keeps its presence and length |
| Optimizer.InternOne | optimizer.py:37-44 | interning one reference or author keeps the table exact for what has been seen, and returns the id its key has at the end of the pass |
| Optimizer.InternList | optimizer.py:34-45 | interning a list returns, item by item, the final ids of the items' keys |
| Optimizer.OptimizeEntry | optimizer.py:31-55 | one D3FEND entry is rewritten to its final ids, and the tables grow by its references and authors |
| Optimizer.OptimizeEntries | optimizer.py:31-55 | the entries of a technique are rewritten in place, in order |
| Optimizer.OptimizeEntryAt | optimizer.py:31-55 | rewriting the entry at one position in place extends the rewritten prefix, and the tables grow by that entry's references and authors |
| Optimizer.OptimizeTechnique | optimizer.py:29-55 | a technique's D3FEND list is rewritten, and the tables cover every technique up to it |
| Optimizer.RewrittenTechniques | optimizer.py:29-55 | the pass rewrites the techniques one for one |
| Optimizer.OptimizeTechniqueAt | optimizer.py:29-55 | rewriting the technique at one position in place extends the rewritten prefix of the array, and the tables cover every technique up to it |
| Optimizer.RewriteAll | optimizer.py:23-55 | the first pass rewrites every technique in place to its final ids, and leaves the tables of all references and authors met |
| Optimizer.AuthorSlotsHoldKeys | optimizer.py:51-53 | the author table stores each author under its own name |
| Optimizer.AuthorReverseIsReverse | optimizer.py:61 | inverting the author table is the same as the id-to-stored-value reverse lookup |
| Optimizer.AuthorReverseLookupIsLookup | optimizer.py:61 | the published author lookup maps each author's id back to the author |
| Optimizer.MakeMetadata | optimizer.py:57-72 | the metadata carries the two reverse lookups, the time stamp, version "1.0" and the technique count |
| Optimizer.OptimizeD3fendReferences | optimizer.py:18-72 | every technique's D3FEND lists are rewritten in place to their final ids, and the result holds the techniques and the metadata of all references and authors |
| Optimizer.Projected | optimizer.py:92 | each mapped technique is projected, in order |
| Optimizer.OptimizeAll | optimizer.py:88-95 | projecting and then optimising keeps one record per mapped technique, with the metadata of all their references and authors |
| Optimizer.RefInAll | optimizer.py:29-35 | every reference of every technique is met by the pass |
| Optimizer.AuthorInAll | optimizer.py:29-50 | every author of every technique is met by the pass |
| Optimizer.ReferenceRoundTrip | optimizer.py:35-60 | a rewritten reference is an id present in the published lookup, which gives back the first reference seen with the same URL |
| Optimizer.AuthorRoundTrip | optimizer.py:48-61 | a rewritten author is an id the published lookup maps back to that author |
| Optimizer.ReferenceIdsInjective | optimizer.py:36-44 | two references get the same id exactly when their keys (URL, or the bare value) are equal |
| Optimizer.AuthorIdsInjective | optimizer.py:51-54 | two authors get the same id exactly when they are equal |
| Optimizer.LookupSizes | optimizer.py:38-61 | each table has one entry per distinct key met, and its ids are exactly "1" to their number |
| JsonClean.CleanEmpty | optimizer.py:98-104 | a dictionary stays a dictionary and a list a list, neither grows, and every other value is returned unchanged |
| JsonClean.CleanMembersExactly | optimizer.py:100-101 | a dictionary member survives exactly when its value and its cleaned value are both non-empty, and it then carries the cleaned value |
| JsonClean.CleanItemsFilter | optimizer.py:103 | the cleaned list is the cleaned non-empty items, in order |
| JsonClean.CleanPruned | optimizer.py:98-104 | after cleaning, no dictionary at any depth holds an empty value, and no list holds an empty scalar |
| JsonClean.CleanMembersPruned | optimizer.py:100-101 | no surviving dictionary member has an empty value, and its value is pruned |
| JsonClean.CleanItemsPruned | optimizer.py:103 | no surviving list item is an empty scalar, and each is pruned |
| JsonClean.CleanSettled | optimizer.py:98-104 | a value with no empty dictionary value or list item at any depth is left unchanged |
| JsonClean.CleanMembersSettled | optimizer.py:100-101 | dictionary members with no empty value at any depth are kept as they are |
| JsonClean.CleanItemsSettled | optimizer.py:103 | list items with no empty value at any depth are kept as they are |
| JsonClean.ListKeepsItemEmptiedByCleaning | optimizer.py:103 | lists test the item before cleaning it, so `[[None]]` cleans to `[[]]`; that is not settled, and a second cleaning gives `[]` |
| JsonClean.DictDropsValueEmptiedByCleaning | optimizer.py:100-101 | dictionaries test the cleaned value too, so `{"a": [None]}` cleans to `{}` |

## Left out

- Reading and writing files, `os.makedirs`, logging, `json.dump`, and `save_navigator_layers`, `analyze_data` and the file write of `save_optimized_data`: these are I/O around the modelled functions.
- `statistics.quantiles`, `statistics.mean`, `round` and the HSV conversions of `generate_color_gradient` (`colorsys`, hex parsing and formatting): floating-point library code. They are parameters of type `Numerics`, and the lemmas hold for any of them.
- The first (blue) `default_color_scheme` of blog3_analyzing_mitre_data/analyzer.py:250-264: the second definition shadows it, and only the effective (red) one is modelled.
- `datetime.datetime.now().isoformat()`: the time stamp is the `generatedAt` parameter.
- Aliasing between dictionaries: the source shares list and dictionary objects. For example, the `d3fend` list of a projected technique is the mapped technique's own list. The optimiser's rewrite therefore also changes the mapped data, and a D3FEND entry shared by two techniques would be interned twice, the second time on its ids. The model treats every record as a value.
- Optimizer.RewrittenEntry: a rewritten reference is `Plain(id)`. The source stores the bare id string in the list that held the reference record.
- A missing key and a key holding `None` are both `None` in the model, and `.get(key, default)` yields the default for both; Python yields `None` for a key that holds `None`.
- Most exceptions the source lets escape are preconditions: `max` of an empty list (`AnalyzeAndUpdateTechniques`, `Summarize`), indexing a missing `stats`, `relationship_type` or `source_ref` key (`CalculateColorThresholds`, `MapRelationshipsToTechniques`, `MapGroupsToTechniques`, `MapMitigationsToTechniques`), and the `ZeroDivisionError` of `i / (steps - 1)` for a one-colour gradient (`Gradient` and `GenerateColorGradient` require `steps != 1`).
- Ranking.RankOf: a technique without `technique_id` gets the id `None`; the source's `t['technique_id']` raises `KeyError` there (blog3_analyzing_mitre_data/analyzer.py:46,99 and analyzer.py:40,76).
- `clean_empty` works on the generic `Json` value. The encoding of the optimised records into JSON, to which the source applies it, is not part of this model. Floats are not modelled either, so `0.0`, which Python also counts as empty, has no counterpart.
