/** The relationship mapper: attaches relationships, intrusion-set groups and
    mitigation ids to the technique records, in place. Each technique is a
    record value in an array; the lists the mapper appends to or rebuilds are
    fields that each step reassigns. */
module Mapper {
  import opened Common
  import opened Seqs
  import opened Attack

  // ---- Buckets by target ---------------------------------------------------

  /** `rel.get("target_ref") == key`. */
  function TargetIs(key: Option<string>): Relationship -> bool {
    (r: Relationship) => r.targetRef == key
  }

  /** The relationships aimed at `key`, in input order. */
  function TargetedAt(rels: seq<Relationship>, key: Option<string>): seq<Relationship> {
    Filter(rels, TargetIs(key))
  }

  /** `buckets` holds one bucket per `target_ref` occurring in `rels` (None
      for a relationship without one), with exactly the relationships aimed
      at it in input order. */
  ghost predicate BucketsOf(buckets: map<Option<string>, seq<Relationship>>, rels: seq<Relationship>) {
    && (forall key :: key in buckets <==> exists r :: r in rels && r.targetRef == key)
    && BucketContents(buckets, rels)
  }

  ghost predicate BucketContents(buckets: map<Option<string>, seq<Relationship>>, rels: seq<Relationship>) {
    forall key :: key in buckets ==> buckets[key] == TargetedAt(rels, key)
  }

  /** The bucket `rels[i]` goes to, before it is appended. */
  lemma BucketBefore(buckets: map<Option<string>, seq<Relationship>>, rels: seq<Relationship>, i: nat)
    requires i < |rels| && BucketsOf(buckets, rels[..i])
    ensures TargetedAt(rels[..i], rels[i].targetRef)
            == if rels[i].targetRef in buckets then buckets[rels[i].targetRef] else []
  {
    var target := rels[i].targetRef;
    if target !in buckets {
      forall j | 0 <= j < i ensures rels[..i][j].targetRef != target {
        assert rels[..i][j] in rels[..i];
      }
      FilterEmpty(rels[..i], TargetIs(target));
    }
  }

  /** After `rels[i]` is appended, the buckets hold the right relationships. */
  lemma BucketContentsStep(buckets: map<Option<string>, seq<Relationship>>, rels: seq<Relationship>, i: nat)
    requires i < |rels| && BucketContents(buckets, rels[..i])
    requires TargetedAt(rels[..i], rels[i].targetRef)
             == if rels[i].targetRef in buckets then buckets[rels[i].targetRef] else []
    ensures var target := rels[i].targetRef;
            BucketContents(buckets[target := (if target in buckets then buckets[target] else []) + [rels[i]]], rels[..i + 1])
  {
    var target := rels[i].targetRef;
    var buckets' := buckets[target := (if target in buckets then buckets[target] else []) + [rels[i]]];
    forall key | key in buckets' ensures buckets'[key] == TargetedAt(rels[..i + 1], key) {
      FilterSnoc(rels, TargetIs(key), i);
    }
  }

  /** After `rels[i]` is appended, there is a bucket for each target seen. */
  lemma BucketKeysStep(buckets: map<Option<string>, seq<Relationship>>, rels: seq<Relationship>, i: nat)
    requires i < |rels| && BucketsOf(buckets, rels[..i])
    ensures var target := rels[i].targetRef;
            var buckets' := buckets[target := (if target in buckets then buckets[target] else []) + [rels[i]]];
            forall key :: key in buckets' <==> exists r :: r in rels[..i + 1] && r.targetRef == key
  {
    assert rels[..i + 1] == rels[..i] + [rels[i]];
  }

  /** Appending `rels[i]` to its bucket keeps `BucketsOf` for one more element. */
  lemma BucketsStep(buckets: map<Option<string>, seq<Relationship>>, rels: seq<Relationship>, i: nat)
    requires i < |rels| && BucketsOf(buckets, rels[..i])
    ensures var target := rels[i].targetRef;
            BucketsOf(buckets[target := (if target in buckets then buckets[target] else []) + [rels[i]]], rels[..i + 1])
  {
    BucketBefore(buckets, rels, i);
    BucketContentsStep(buckets, rels, i);
    BucketKeysStep(buckets, rels, i);
  }

  /** `prepare_relationship_mapping`. */
  method PrepareRelationshipMapping(rels: seq<Relationship>) returns (buckets: map<Option<string>, seq<Relationship>>)
    ensures BucketsOf(buckets, rels)
  {
    buckets := map[];
    for i := 0 to |rels|
      invariant BucketsOf(buckets, rels[..i])
    {
      BucketsStep(buckets, rels, i);
      var target := rels[i].targetRef;
      var bucket: seq<Relationship> := [];
      if target in buckets {
        bucket := buckets[target];
      }
      buckets := buckets[target := bucket + [rels[i]]];
    }
    assert rels[..|rels|] == rels;
  }

  /** Every relationship sits in the bucket of its own target and in no other. */
  lemma BucketsPartition(rels: seq<Relationship>, r: Relationship, key: Option<string>)
    requires r in rels
    ensures r in TargetedAt(rels, r.targetRef)
    ensures key != r.targetRef ==> r !in TargetedAt(rels, key)
  {
    FilterKeeps(rels, TargetIs(r.targetRef), r);
  }

  // ---- Relationships -------------------------------------------------------

  /** A technique after its bucket has been appended: mitigating relationships
      to `mitigations`, all others to `related_relationships`. */
  function WithRelationships(t: Technique, rels: seq<Relationship>): Technique {
    var bucket := TargetedAt(rels, t.id);
    t.(mitigations := t.mitigations + Filter(bucket, Mitigates),
       relatedRelationships := t.relatedRelationships + Filter(bucket, NotMitigates))
  }

  /** Every relationship aimed at a technique has a `relationship_type`;
      reading it raises KeyError otherwise. */
  predicate TypesReadable(ts: seq<Technique>, rels: seq<Relationship>) {
    forall i, r :: 0 <= i < |ts| && r in rels && r.targetRef == ts[i].id ==> r.relationshipType.Some?
  }

  /** The inner loop for one technique: appends each relationship of its
      bucket to the mitigations or to the related relationships. */
  method AppendBucket(mitigations: seq<Relationship>, related: seq<Relationship>, bucket: seq<Relationship>)
    returns (mitigations': seq<Relationship>, related': seq<Relationship>)
    requires forall r :: r in bucket ==> r.relationshipType.Some?
    ensures mitigations' == mitigations + Filter(bucket, Mitigates)
    ensures related' == related + Filter(bucket, NotMitigates)
  {
    mitigations', related' := mitigations, related;
    for j := 0 to |bucket|
      invariant mitigations' == mitigations + Filter(bucket[..j], Mitigates)
      invariant related' == related + Filter(bucket[..j], NotMitigates)
    {
      var r := bucket[j];
      assert r in bucket;
      AppendStep(mitigations, mitigations', bucket, j, Mitigates);
      AppendStep(related, related', bucket, j, NotMitigates);
      if r.relationshipType.value == "mitigates" {
        mitigations' := mitigations' + [r];
      } else {
        related' := related' + [r];
      }
    }
    assert bucket[..|bucket|] == bucket;
  }

  /** One more relationship extends the filtered accumulation by itself when
      it passes the test, and by nothing otherwise. */
  lemma AppendStep(base: seq<Relationship>, acc: seq<Relationship>, bucket: seq<Relationship>, j: nat,
                   p: Relationship -> bool)
    requires j < |bucket| && acc == base + Filter(bucket[..j], p)
    ensures (if p(bucket[j]) then acc + [bucket[j]] else acc) == base + Filter(bucket[..j + 1], p)
  {
    FilterSnoc(bucket, p, j);
  }

  /** The step of `map_relationships_to_techniques` for one technique. */
  method MapRelationshipsToTechnique(t: Technique, rels: seq<Relationship>,
                                     buckets: map<Option<string>, seq<Relationship>>)
    returns (u: Technique)
    requires forall r :: r in rels && r.targetRef == t.id ==> r.relationshipType.Some?
    requires BucketsOf(buckets, rels)
    ensures u == WithRelationships(t, rels)
  {
    u := t;
    if t.id in buckets {
      var bucket := buckets[t.id];
      forall r | r in bucket ensures r.relationshipType.Some? {
        BucketsPartition(rels, r, t.id);
        FilterKeeps(rels, TargetIs(t.id), r);
      }
      var mitigations, related := AppendBucket(t.mitigations, t.relatedRelationships, bucket);
      u := t.(mitigations := mitigations, relatedRelationships := related);
    } else {
      forall j | 0 <= j < |rels| ensures rels[j].targetRef != t.id {
        assert rels[j] in rels;
      }
      FilterEmpty(rels, TargetIs(t.id));
    }
  }

  /** `map_relationships_to_techniques`. */
  method MapRelationshipsToTechniques(techniques: array<Technique>, rels: seq<Relationship>)
    requires TypesReadable(techniques[..], rels)
    modifies techniques
    ensures forall i :: 0 <= i < techniques.Length ==> techniques[i] == WithRelationships(old(techniques[i]), rels)
  {
    ghost var ts := techniques[..];
    ghost var f := (t: Technique) => WithRelationships(t, rels);
    var buckets := PrepareRelationshipMapping(rels);
    MapSeqStart(ts, f);
    for i := 0 to techniques.Length
      invariant techniques[..] == MapSeq(ts[..i], f) + ts[i..]
    {
      MapSeqStep(ts, f, i, techniques[..]);
      TypesReadableAt(ts, rels, i);
      techniques[i] := MapRelationshipsToTechnique(techniques[i], rels, buckets);
    }
    MapSeqEnd(ts, f);
  }

  lemma TypesReadableAt(ts: seq<Technique>, rels: seq<Relationship>, i: nat)
    requires i < |ts| && TypesReadable(ts, rels)
    ensures forall r :: r in rels && r.targetRef == ts[i].id ==> r.relationshipType.Some?
  {
  }

  /** Relationships are only appended: the old lists are prefixes of the new
      ones, and the new entries are exactly the technique's bucket, split
      into mitigating and other relationships without loss. */
  lemma RelationshipsAppended(t: Technique, rels: seq<Relationship>)
    ensures var u := WithRelationships(t, rels);
            && t.mitigations <= u.mitigations
            && t.relatedRelationships <= u.relatedRelationships
            && |u.mitigations| + |u.relatedRelationships|
               == |t.mitigations| + |t.relatedRelationships| + |TargetedAt(rels, t.id)|
            && (forall r :: r in u.mitigations[|t.mitigations|..] ==> r in rels && r.targetRef == t.id && Mitigates(r))
            && (forall r :: r in u.relatedRelationships[|t.relatedRelationships|..] ==> r in rels && r.targetRef == t.id && !Mitigates(r))
  {
    var u := WithRelationships(t, rels);
    FilterSplit(TargetedAt(rels, t.id), Mitigates, NotMitigates);
    assert u.mitigations[|t.mitigations|..] == Filter(TargetedAt(rels, t.id), Mitigates);
    assert u.relatedRelationships[|t.relatedRelationships|..] == Filter(TargetedAt(rels, t.id), NotMitigates);
  }

  // ---- Groups --------------------------------------------------------------

  function GroupKey(g: Group): string { g.id }

  /** `{group['id']: group for group in groups}`. */
  function GroupMap(groups: seq<Group>): map<string, Group> {
    KeyedBy(groups, GroupKey)
  }

  /** The group reference built from the group the map holds for `groupId`. */
  function GroupRefOf(g: Group, groupId: string): GroupRef {
    GroupRef(g.id, g.name, groupId, g.aliases.GetOr([]), g.description.GetOr(""))
  }

  /** A related relationship yields a group when it is a "uses" edge out of a
      known intrusion set. */
  predicate Qualifies(r: Relationship, gmap: map<string, Group>) {
    && r.relationshipType == Some("uses")
    && r.sourceRef.Some?
    && "intrusion-set" <= r.sourceRef.value
    && r.sourceRef.value in gmap
  }

  /** The `groups` list derived from the related relationships, in order,
      duplicates kept. */
  function DerivedGroups(rels: seq<Relationship>, gmap: map<string, Group>): seq<GroupRef> {
    if rels == [] then []
    else
      var r := rels[|rels| - 1];
      DerivedGroups(rels[..|rels| - 1], gmap)
        + (if Qualifies(r, gmap) then [GroupRefOf(gmap[r.sourceRef.value], r.sourceRef.value)] else [])
  }

  function QualifiesIn(gmap: map<string, Group>): Relationship -> bool {
    (r: Relationship) => Qualifies(r, gmap)
  }

  /** One reference per qualifying relationship, each naming a known
      intrusion set whose map entry it copies; its `id` is the intrusion
      set's id, which is also its `group_id`. */
  lemma {:induction false} DerivedGroupsSpec(rels: seq<Relationship>, groups: seq<Group>)
    ensures var gmap := GroupMap(groups);
            var derived := DerivedGroups(rels, gmap);
            var qualifying := Filter(rels, QualifiesIn(gmap));
            && |derived| == |qualifying|
            && (forall k :: 0 <= k < |qualifying| ==>
                  Qualifies(qualifying[k], gmap) &&
                  derived[k] == GroupRefOf(gmap[qualifying[k].sourceRef.value], qualifying[k].sourceRef.value))
            && forall g :: g in derived ==>
                 && g.groupId in gmap && "intrusion-set" <= g.groupId
                 && g == GroupRefOf(gmap[g.groupId], g.groupId)
                 && g.id == g.groupId
  {
    var gmap := GroupMap(groups);
    if rels != [] {
      DerivedGroupsSpec(rels[..|rels| - 1], groups);
    }
  }

  /** `relationship['source_ref']` is read for every "uses" relationship, and
      `technique['related_relationships']` is iterated. */
  predicate SourcesReadable(t: Technique) {
    forall r :: r in t.relatedRelationships && r.relationshipType == Some("uses") ==> r.sourceRef.Some?
  }

  /** The inner loop of `map_groups_to_techniques` for one technique. */
  method CollectGroups(rels: seq<Relationship>, gmap: map<string, Group>) returns (refs: seq<GroupRef>)
    requires forall r :: r in rels && r.relationshipType == Some("uses") ==> r.sourceRef.Some?
    ensures refs == DerivedGroups(rels, gmap)
  {
    refs := [];
    for j := 0 to |rels|
      invariant refs == DerivedGroups(rels[..j], gmap)
    {
      assert rels[..j + 1][..j] == rels[..j];
      var r := rels[j];
      if r.relationshipType.Some? {
        if r.relationshipType.value == "uses" && "intrusion-set" <= r.sourceRef.value {
          var groupId := r.sourceRef.value;
          if groupId in gmap {
            refs := refs + [GroupRefOf(gmap[groupId], groupId)];
          }
        }
      }
    }
    assert rels[..|rels|] == rels;
  }

  /** A technique whose `groups` have been derived. */
  function WithGroups(t: Technique, gmap: map<string, Group>): Technique {
    t.(groups := DerivedGroups(t.relatedRelationships, gmap))
  }

  /** `map_groups_to_techniques`: every technique's `groups` is replaced by
      the references derived from its related relationships. */
  method MapGroupsToTechniques(techniques: array<Technique>, groups: seq<Group>)
    requires forall i :: 0 <= i < techniques.Length ==> SourcesReadable(techniques[i])
    modifies techniques
    ensures forall i :: 0 <= i < techniques.Length ==>
              techniques[i] == old(techniques[i]).(groups := DerivedGroups(old(techniques[i]).relatedRelationships, GroupMap(groups)))
  {
    ghost var ts := techniques[..];
    var gmap := GroupMap(groups);
    ghost var f := (t: Technique) => WithGroups(t, gmap);
    MapSeqStart(ts, f);
    for i := 0 to techniques.Length
      invariant techniques[..] == MapSeq(ts[..i], f) + ts[i..]
    {
      MapSeqStep(ts, f, i, techniques[..]);
      var refs := CollectGroups(techniques[i].relatedRelationships, gmap);
      techniques[i] := techniques[i].(groups := refs);
    }
    MapSeqEnd(ts, f);
  }

  // ---- Mitigations ---------------------------------------------------------

  function MitigationKey(m: Mitigation): string { m.id }

  /** `{mitigation['id']: mitigation for mitigation in mitigations}`. */
  function MitigationMap(mitigations: seq<Mitigation>): map<string, Mitigation> {
    KeyedBy(mitigations, MitigationKey)
  }

  /** A mitigation entry after the annotation: `mitigation_id` set from the
      course of action its `source_ref` names, if that one is known. */
  function Annotate(r: Relationship, mdict: map<string, Mitigation>): (a: Relationship)
    requires r.sourceRef.Some?
    ensures r.sourceRef.value in mdict ==> a == r.(mitigationId := Some(mdict[r.sourceRef.value].mitigationId))
    ensures r.sourceRef.value !in mdict ==> a == r
  {
    if r.sourceRef.value in mdict then r.(mitigationId := Some(mdict[r.sourceRef.value].mitigationId)) else r
  }

  /** `tech_mitigation['source_ref']` is read for every mitigation entry. */
  predicate SourcesPresent(ms: seq<Relationship>) {
    forall r :: r in ms ==> r.sourceRef.Some?
  }

  predicate MitigationSourcesReadable(t: Technique) {
    SourcesPresent(t.mitigations)
  }

  function Annotated(ms: seq<Relationship>, mdict: map<string, Mitigation>): (r: seq<Relationship>)
    requires SourcesPresent(ms)
    ensures |r| == |ms| && forall k :: 0 <= k < |ms| ==> r[k] == Annotate(ms[k], mdict)
  {
    seq(|ms|, k requires 0 <= k < |ms| => Annotate(ms[k], mdict))
  }

  /** The inner loop of `map_mitigations_to_techniques`: annotates one
      technique's mitigation entries in place. */
  method AnnotateMitigations(ms: seq<Relationship>, mdict: map<string, Mitigation>) returns (ms': seq<Relationship>)
    requires SourcesPresent(ms)
    ensures ms' == Annotated(ms, mdict)
  {
    ms' := ms;
    var j := 0;
    while j < |ms'|
      invariant 0 <= j <= |ms'| == |ms|
      invariant forall k :: 0 <= k < j ==> ms'[k] == Annotate(ms[k], mdict)
      invariant forall k :: j <= k < |ms'| ==> ms'[k] == ms[k]
    {
      assert ms[j] in ms;
      var source := ms'[j].sourceRef.value;
      if source in mdict {
        ms' := ms'[j := ms'[j].(mitigationId := Some(mdict[source].mitigationId))];
      }
      j := j + 1;
    }
  }

  /** A technique whose mitigation entries have been annotated (left as it
      is when one of them has no `source_ref`). */
  function WithMitigationIds(t: Technique, mdict: map<string, Mitigation>): Technique {
    if SourcesPresent(t.mitigations) then t.(mitigations := Annotated(t.mitigations, mdict)) else t
  }

  /** `map_mitigations_to_techniques`: annotates every mitigation entry of
      every technique in place. */
  method MapMitigationsToTechniques(techniques: array<Technique>, mitigations: seq<Mitigation>)
    requires forall i :: 0 <= i < techniques.Length ==> SourcesPresent(techniques[i].mitigations)
    modifies techniques
    ensures forall i :: 0 <= i < techniques.Length ==>
              techniques[i] == old(techniques[i]).(mitigations := Annotated(old(techniques[i]).mitigations, MitigationMap(mitigations)))
  {
    ghost var ts := techniques[..];
    var mdict := MitigationMap(mitigations);
    ghost var f := (t: Technique) => WithMitigationIds(t, mdict);
    MapSeqStart(ts, f);
    for i := 0 to techniques.Length
      invariant techniques[..] == MapSeq(ts[..i], f) + ts[i..]
    {
      MapSeqStep(ts, f, i, techniques[..]);
      var ms := AnnotateMitigations(techniques[i].mitigations, mdict);
      techniques[i] := techniques[i].(mitigations := ms);
    }
    MapSeqEnd(ts, f);
  }

  /** The annotation touches only `mitigation_id`, and only on entries whose
      source is a known course of action, which then carry the id of the last
      course of action with that STIX id. */
  lemma AnnotationSpec(ms: seq<Relationship>, mitigations: seq<Mitigation>, k: nat, j: nat)
    requires SourcesPresent(ms)
    requires k < |ms| && j < |mitigations|
    requires ms[k].sourceRef.value == mitigations[j].id
    requires forall l :: j < l < |mitigations| ==> mitigations[l].id != mitigations[j].id
    ensures Annotated(ms, MitigationMap(mitigations))[k] == ms[k].(mitigationId := Some(mitigations[j].mitigationId))
  {
    KeyedByLastWins(mitigations, MitigationKey, j);
  }

  /** An entry whose source is no known course of action stays as it was. */
  lemma UnknownSourceUntouched(ms: seq<Relationship>, mitigations: seq<Mitigation>, k: nat)
    requires SourcesPresent(ms)
    requires k < |ms|
    requires forall j :: 0 <= j < |mitigations| ==> mitigations[j].id != ms[k].sourceRef.value
    ensures Annotated(ms, MitigationMap(mitigations))[k] == ms[k]
  {
  }

  // ---- The whole mapping ---------------------------------------------------

  /** A technique after the three steps, in the order `map_all_data` runs them. */
  function Mapped(t: Technique, rels: seq<Relationship>, groups: seq<Group>, mitigations: seq<Mitigation>): Technique
    requires MitigationSourcesReadable(WithRelationships(t, rels))
  {
    var r := WithRelationships(t, rels);
    var g := r.(groups := DerivedGroups(r.relatedRelationships, GroupMap(groups)));
    g.(mitigations := Annotated(g.mitigations, MitigationMap(mitigations)))
  }

  /** `map_all_data`: relationships first, then groups from the related
      relationships as they stand after that, then mitigation ids. */
  method MapAllData(techniques: array<Technique>, rels: seq<Relationship>, groups: seq<Group>, mitigations: seq<Mitigation>)
    requires TypesReadable(techniques[..], rels)
    requires forall i :: 0 <= i < techniques.Length ==> SourcesReadable(WithRelationships(techniques[i], rels))
    requires forall i :: 0 <= i < techniques.Length ==> MitigationSourcesReadable(WithRelationships(techniques[i], rels))
    modifies techniques
    ensures forall i :: 0 <= i < techniques.Length ==> techniques[i] == Mapped(old(techniques[i]), rels, groups, mitigations)
  {
    MapRelationshipsToTechniques(techniques, rels);
    MapGroupsToTechniques(techniques, groups);
    MapMitigationsToTechniques(techniques, mitigations);
  }
}
