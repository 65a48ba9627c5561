/** The output optimiser: projects every mapped technique onto the fields the
    published file keeps, then interns the D3FEND references and authors of
    all techniques into two lookup tables, rewriting each list in place into
    the ids "1", "2", ... of the table. */
module Optimizer {
  import opened Common
  import opened Seqs
  import opened Attack
  import opened Interning
  import Mapper

  // ---- Projections ---------------------------------------------------------

  /** The four fields the output keeps of a group. */
  datatype GroupSummary = GroupSummary(id: string, name: string, aliases: seq<string>, description: string)

  /** The group reference a summary stands for when its id is its group id. */
  function RestoreGroup(s: GroupSummary): GroupRef {
    GroupRef(s.id, s.name, s.id, s.aliases, s.description)
  }

  /** `optimize_group_data`: keeps `id`, `name`, `aliases` and `description`
      and drops `group_id`, so the reference is recovered from its summary
      exactly when its group id repeats its id. */
  function OptimizeGroupData(g: GroupRef): (s: GroupSummary)
    ensures s.id == g.id && s.name == g.name && s.aliases == g.aliases && s.description == g.description
    ensures RestoreGroup(s) == g <==> g.groupId == g.id
  {
    GroupSummary(g.id, g.name, g.aliases, g.description)
  }

  /** A technique record as the optimiser writes it. */
  datatype OptimizedTechnique = OptimizedTechnique(
    kind: string,
    id: Option<string>,
    techniqueId: Option<string>,
    name: string,
    description: Option<string>,
    groups: seq<GroupSummary>,
    d3fend: Option<seq<D3fendEntry>>,
    allReferences: seq<string>,
    mitigations: seq<Relationship>)

  /** `optimize_technique_data`. */
  function OptimizeTechniqueData(t: Technique): (o: OptimizedTechnique)
    ensures |o.groups| == |t.groups| && forall i :: 0 <= i < |t.groups| ==> o.groups[i] == OptimizeGroupData(t.groups[i])
  {
    OptimizedTechnique("attack-pattern", t.id, t.techniqueId, t.name, t.description,
                       seq(|t.groups|, i requires 0 <= i < |t.groups| => OptimizeGroupData(t.groups[i])),
                       Some(t.d3fend.GetOr([])), t.allReferences.GetOr([]), t.mitigations)
  }

  /** The projection of a technique that went through the mapper loses none
      of its groups: every group reference the mapper derived is rebuilt
      from its summary, because its dropped `group_id` is its kept `id`. The
      record is an "attack-pattern" and always carries a `d3fend` list. */
  lemma MappedGroupsSurvive(t: Technique, rels: seq<Relationship>, groups: seq<Group>, mitigations: seq<Mitigation>)
    requires Mapper.MitigationSourcesReadable(Mapper.WithRelationships(t, rels))
    ensures var m := Mapper.Mapped(t, rels, groups, mitigations);
            var o := OptimizeTechniqueData(m);
            && o.kind == "attack-pattern" && o.d3fend.Some?
            && |o.groups| == |m.groups|
            && forall i :: 0 <= i < |m.groups| ==> RestoreGroup(o.groups[i]) == m.groups[i]
  {
    var m := Mapper.Mapped(t, rels, groups, mitigations);
    var r := Mapper.WithRelationships(t, rels);
    assert m.groups == Mapper.DerivedGroups(r.relatedRelationships, Mapper.GroupMap(groups));
    Mapper.DerivedGroupsSpec(r.relatedRelationships, groups);
    forall i | 0 <= i < |m.groups| ensures RestoreGroup(OptimizeTechniqueData(m).groups[i]) == m.groups[i] {
      assert m.groups[i] in m.groups;
    }
  }

  // ---- What the first pass meets -------------------------------------------

  /** The key a reference is interned under: the `url` of a record, the value
      itself otherwise. */
  function RefKey(r: Reference): string {
    match r
    case Cited(url, _) => url
    case Plain(text) => text
  }

  /** Authors are interned under themselves. */
  function AuthorKey(a: string): string {
    a
  }

  /** The references of an entry, none when it has no `references` key. */
  function RefsOf(e: D3fendEntry): seq<Reference> {
    e.references.GetOr([])
  }

  function AuthorsOf(e: D3fendEntry): seq<string> {
    e.authors.GetOr([])
  }

  /** The values of one technique's entries, none when it has no `d3fend` key. */
  function TechniqueItems<V>(t: OptimizedTechnique, part: D3fendEntry -> seq<V>): seq<V> {
    if t.d3fend.Some? then Flatten(t.d3fend.value, part) else []
  }

  function Part<V>(part: D3fendEntry -> seq<V>): OptimizedTechnique -> seq<V> {
    t => TechniqueItems(t, part)
  }

  /** Every reference (or author) the pass meets, in the order it meets them. */
  function AllItems<V>(ts: seq<OptimizedTechnique>, part: D3fendEntry -> seq<V>): seq<V> {
    Flatten(ts, Part(part))
  }

  // ---- The rewrite ---------------------------------------------------------

  /** The ids a list of values is rewritten to, given the first-seen order of
      all keys. */
  function IdsFor<V>(vs: seq<V>, key: V -> string, order: seq<string>): (ids: seq<string>)
    ensures |ids| == |vs| && forall j :: 0 <= j < |vs| ==> ids[j] == IdAt(order, key(vs[j]))
  {
    seq(|vs|, j requires 0 <= j < |vs| => IdAt(order, key(vs[j])))
  }

  lemma IdsForSnoc<V>(vs: seq<V>, key: V -> string, order: seq<string>, j: nat, ids: seq<string>)
    requires j < |vs| && ids == IdsFor(vs[..j], key, order)
    ensures ids + [IdAt(order, key(vs[j]))] == IdsFor(vs[..j + 1], key, order)
  {
  }

  /** A list of ids stored where the references were. */
  function AsRefs(ids: seq<string>): (rs: seq<Reference>)
    ensures |rs| == |ids| && forall j :: 0 <= j < |ids| ==> rs[j] == Plain(ids[j])
  {
    seq(|ids|, j requires 0 <= j < |ids| => Plain(ids[j]))
  }

  /** An entry after the pass: each present list replaced by the ids of its
      values, an absent one left absent. */
  function RewrittenEntry(e: D3fendEntry, refOrder: seq<string>, authorOrder: seq<string>): (r: D3fendEntry)
    ensures r.labelText == e.labelText
    ensures r.references.Some? == e.references.Some?
    ensures e.references.Some? ==> |r.references.value| == |e.references.value|
    ensures r.authors.Some? == e.authors.Some?
    ensures e.authors.Some? ==> |r.authors.value| == |e.authors.value|
  {
    e.(references := if e.references.Some? then Some(AsRefs(IdsFor(e.references.value, RefKey, refOrder))) else None,
       authors := if e.authors.Some? then Some(IdsFor(e.authors.value, AuthorKey, authorOrder)) else None)
  }

  function RewrittenEntries(es: seq<D3fendEntry>, refOrder: seq<string>, authorOrder: seq<string>): (r: seq<D3fendEntry>)
    ensures |r| == |es| && forall j :: 0 <= j < |es| ==> r[j] == RewrittenEntry(es[j], refOrder, authorOrder)
  {
    seq(|es|, j requires 0 <= j < |es| => RewrittenEntry(es[j], refOrder, authorOrder))
  }

  /** Rewriting the entry at `j` in place extends the rewritten prefix. */
  lemma RewrittenEntriesStep(es: seq<D3fendEntry>, refOrder: seq<string>, authorOrder: seq<string>, j: nat, cur: seq<D3fendEntry>)
    requires j < |es| && cur == RewrittenEntries(es[..j], refOrder, authorOrder) + es[j..]
    ensures j < |cur| && cur[j] == es[j]
    ensures cur[j := RewrittenEntry(es[j], refOrder, authorOrder)] == RewrittenEntries(es[..j + 1], refOrder, authorOrder) + es[j + 1..]
  {
  }

  /** A technique after the pass: only its `d3fend` entries change, one for
      one; a technique without `d3fend` is left as it is. */
  function RewrittenTechnique(t: OptimizedTechnique, refOrder: seq<string>, authorOrder: seq<string>): (r: OptimizedTechnique)
    ensures r.(d3fend := t.d3fend) == t
    ensures r.d3fend.Some? == t.d3fend.Some?
    ensures t.d3fend.Some? ==> |r.d3fend.value| == |t.d3fend.value|
  {
    if t.d3fend.Some? then t.(d3fend := Some(RewrittenEntries(t.d3fend.value, refOrder, authorOrder))) else t
  }

  // ---- The pass ------------------------------------------------------------

  /** The four locals of the pass: the two tables and their counters. */
  datatype Lookups = Lookups(refs: Table<Reference>, refCounter: nat, authors: Table<string>, authorCounter: nat)

  ghost predicate LookupsFor(l: Lookups, refsSeen: seq<Reference>, authorsSeen: seq<string>) {
    && Interned(l.refs, l.refCounter, refsSeen, RefKey)
    && Interned(l.authors, l.authorCounter, authorsSeen, AuthorKey)
  }

  /** The body of the innermost loop: interns one value and returns its id.
      `all` is everything the whole pass meets, of which `seen + [v]` is a
      prefix; the id returned is the id the key has at the end. */
  method InternOne<V>(v: V, key: V -> string, table: Table<V>, counter: nat, ghost seen: seq<V>, ghost all: seq<V>)
    returns (id: string, table': Table<V>, counter': nat)
    requires Interned(table, counter, seen, key) && seen + [v] <= all
    ensures Interned(table', counter', seen + [v], key)
    ensures id == IdAt(Order(all, key), key(v))
  {
    InternStep(table, counter, seen, key, v);
    var k := key(v);
    table', counter' := table, counter;
    if k !in table {
      counter' := counter + 1;
      table' := table[k := Slot(NatToString(counter'), v)];
    }
    id := table'[k].id;
    assert KeysOf(seen + [v], key)[|seen|] == k;
    IdFinal(seen + [v], all, key, k);
  }

  /** The innermost loop: interns `items` one by one and collects their ids. */
  method InternList<V>(items: seq<V>, key: V -> string, table: Table<V>, counter: nat,
                       ghost seen: seq<V>, ghost all: seq<V>)
    returns (ids: seq<string>, table': Table<V>, counter': nat)
    requires Interned(table, counter, seen, key) && seen + items <= all
    ensures Interned(table', counter', seen + items, key)
    ensures ids == IdsFor(items, key, Order(all, key))
  {
    ids, table', counter' := [], table, counter;
    ghost var order := Order(all, key);
    ghost var done := seen;
    assert seen + items[..0] == seen;
    for j := 0 to |items|
      invariant done == seen + items[..j]
      invariant Interned(table', counter', done, key)
      invariant ids == IdsFor(items[..j], key, order)
    {
      SnocStep(seen, items, j, all, done);
      IdsForSnoc(items, key, order, j, ids);
      var id;
      id, table', counter' := InternOne(items[j], key, table', counter', done, all);
      ids := ids + [id];
      done := done + [items[j]];
    }
    assert items[..|items|] == items;
  }

  /** The body of the loop over one technique's entries: interns the entry's
      references, then its authors, and rewrites the lists it has. */
  method OptimizeEntry(e: D3fendEntry, l: Lookups, ghost refsSeen: seq<Reference>, ghost authorsSeen: seq<string>,
                       ghost allRefs: seq<Reference>, ghost allAuthors: seq<string>)
    returns (e': D3fendEntry, l': Lookups)
    requires LookupsFor(l, refsSeen, authorsSeen)
    requires refsSeen + RefsOf(e) <= allRefs && authorsSeen + AuthorsOf(e) <= allAuthors
    ensures LookupsFor(l', refsSeen + RefsOf(e), authorsSeen + AuthorsOf(e))
    ensures e' == RewrittenEntry(e, Order(allRefs, RefKey), Order(allAuthors, AuthorKey))
  {
    e', l' := e, l;
    if e.references.Some? {
      var ids, table, counter := InternList(e.references.value, RefKey, l.refs, l.refCounter, refsSeen, allRefs);
      e' := e'.(references := Some(AsRefs(ids)));
      l' := l'.(refs := table, refCounter := counter);
    } else {
      assert refsSeen + RefsOf(e) == refsSeen;
    }
    if e.authors.Some? {
      var ids, table, counter := InternList(e.authors.value, AuthorKey, l.authors, l.authorCounter, authorsSeen, allAuthors);
      e' := e'.(authors := Some(ids));
      l' := l'.(authors := table, authorCounter := counter);
    } else {
      assert authorsSeen + AuthorsOf(e) == authorsSeen;
    }
  }

  /** One iteration of the loop over a technique's entries: the entry at `j`
      is rewritten in place and its lists interned. */
  method OptimizeEntryAt(es: seq<D3fendEntry>, j: nat, cur: seq<D3fendEntry>, l: Lookups,
                         ghost refsSeen: seq<Reference>, ghost authorsSeen: seq<string>,
                         ghost refsDone: seq<Reference>, ghost authorsDone: seq<string>,
                         ghost allRefs: seq<Reference>, ghost allAuthors: seq<string>)
    returns (cur': seq<D3fendEntry>, l': Lookups)
    requires j < |es|
    requires refsSeen + Flatten(es, RefsOf) <= allRefs && authorsSeen + Flatten(es, AuthorsOf) <= allAuthors
    requires refsDone == refsSeen + Flatten(es[..j], RefsOf) && authorsDone == authorsSeen + Flatten(es[..j], AuthorsOf)
    requires LookupsFor(l, refsDone, authorsDone)
    requires cur == RewrittenEntries(es[..j], Order(allRefs, RefKey), Order(allAuthors, AuthorKey)) + es[j..]
    ensures refsDone + RefsOf(es[j]) == refsSeen + Flatten(es[..j + 1], RefsOf)
    ensures authorsDone + AuthorsOf(es[j]) == authorsSeen + Flatten(es[..j + 1], AuthorsOf)
    ensures LookupsFor(l', refsDone + RefsOf(es[j]), authorsDone + AuthorsOf(es[j]))
    ensures cur' == RewrittenEntries(es[..j + 1], Order(allRefs, RefKey), Order(allAuthors, AuthorKey)) + es[j + 1..]
  {
    RewrittenEntriesStep(es, Order(allRefs, RefKey), Order(allAuthors, AuthorKey), j, cur);
    FlattenStep(refsSeen, es, RefsOf, j, allRefs, refsDone);
    FlattenStep(authorsSeen, es, AuthorsOf, j, allAuthors, authorsDone);
    var e;
    e, l' := OptimizeEntry(cur[j], l, refsDone, authorsDone, allRefs, allAuthors);
    cur' := cur[j := e];
  }

  /** The loop over one technique's `d3fend` entries, each rewritten in place. */
  method OptimizeEntries(es: seq<D3fendEntry>, l: Lookups, ghost refsSeen: seq<Reference>, ghost authorsSeen: seq<string>,
                         ghost allRefs: seq<Reference>, ghost allAuthors: seq<string>)
    returns (es': seq<D3fendEntry>, l': Lookups)
    requires LookupsFor(l, refsSeen, authorsSeen)
    requires refsSeen + Flatten(es, RefsOf) <= allRefs && authorsSeen + Flatten(es, AuthorsOf) <= allAuthors
    ensures LookupsFor(l', refsSeen + Flatten(es, RefsOf), authorsSeen + Flatten(es, AuthorsOf))
    ensures es' == RewrittenEntries(es, Order(allRefs, RefKey), Order(allAuthors, AuthorKey))
  {
    es', l' := es, l;
    ghost var refsDone, authorsDone := refsSeen, authorsSeen;
    EntriesStart(es, refsSeen, authorsSeen, Order(allRefs, RefKey), Order(allAuthors, AuthorKey));
    for j := 0 to |es|
      invariant refsDone == refsSeen + Flatten(es[..j], RefsOf) && authorsDone == authorsSeen + Flatten(es[..j], AuthorsOf)
      invariant LookupsFor(l', refsDone, authorsDone)
      invariant es' == RewrittenEntries(es[..j], Order(allRefs, RefKey), Order(allAuthors, AuthorKey)) + es[j..]
    {
      es', l' := OptimizeEntryAt(es, j, es', l', refsSeen, authorsSeen, refsDone, authorsDone, allRefs, allAuthors);
      refsDone, authorsDone := refsDone + RefsOf(es[j]), authorsDone + AuthorsOf(es[j]);
    }
    EntriesEnd(es, refsSeen, authorsSeen, Order(allRefs, RefKey), Order(allAuthors, AuthorKey));
  }

  lemma EntriesStart(es: seq<D3fendEntry>, refsSeen: seq<Reference>, authorsSeen: seq<string>,
                     refOrder: seq<string>, authorOrder: seq<string>)
    ensures refsSeen == refsSeen + Flatten(es[..0], RefsOf) && authorsSeen == authorsSeen + Flatten(es[..0], AuthorsOf)
    ensures es == RewrittenEntries(es[..0], refOrder, authorOrder) + es[0..]
  {
    assert es[..0] == [];
  }

  lemma EntriesEnd(es: seq<D3fendEntry>, refsSeen: seq<Reference>, authorsSeen: seq<string>,
                   refOrder: seq<string>, authorOrder: seq<string>)
    ensures refsSeen + Flatten(es[..|es|], RefsOf) == refsSeen + Flatten(es, RefsOf)
    ensures authorsSeen + Flatten(es[..|es|], AuthorsOf) == authorsSeen + Flatten(es, AuthorsOf)
    ensures RewrittenEntries(es[..|es|], refOrder, authorOrder) + es[|es|..] == RewrittenEntries(es, refOrder, authorOrder)
  {
    assert es[..|es|] == es;
  }

  /** The body of the loop over the techniques: a technique with `d3fend`
      entries has them rewritten, any other is left alone. */
  method OptimizeTechnique(t: OptimizedTechnique, l: Lookups, ghost refsSeen: seq<Reference>, ghost authorsSeen: seq<string>,
                           ghost allRefs: seq<Reference>, ghost allAuthors: seq<string>)
    returns (t': OptimizedTechnique, l': Lookups)
    requires LookupsFor(l, refsSeen, authorsSeen)
    requires refsSeen + TechniqueItems(t, RefsOf) <= allRefs && authorsSeen + TechniqueItems(t, AuthorsOf) <= allAuthors
    ensures LookupsFor(l', refsSeen + TechniqueItems(t, RefsOf), authorsSeen + TechniqueItems(t, AuthorsOf))
    ensures t' == RewrittenTechnique(t, Order(allRefs, RefKey), Order(allAuthors, AuthorKey))
  {
    t', l' := t, l;
    if t.d3fend.Some? {
      var es, next := OptimizeEntries(t.d3fend.value, l, refsSeen, authorsSeen, allRefs, allAuthors);
      t' := t.(d3fend := Some(es));
      l' := next;
    } else {
      assert refsSeen + TechniqueItems(t, RefsOf) == refsSeen;
      assert authorsSeen + TechniqueItems(t, AuthorsOf) == authorsSeen;
    }
  }

  /** What the pass has met after one more technique, and that it is still a
      prefix of everything it meets. */
  lemma AllItemsStep<V>(ts: seq<OptimizedTechnique>, part: D3fendEntry -> seq<V>, i: nat, seen: seq<V>)
    requires i < |ts| && seen == AllItems(ts[..i], part)
    ensures seen + TechniqueItems(ts[i], part) == AllItems(ts[..i + 1], part)
    ensures seen + TechniqueItems(ts[i], part) <= AllItems(ts, part)
  {
    FlattenSnoc(ts, Part(part), i);
    FlattenPrefix(ts, Part(part), i + 1);
    assert Part(part)(ts[i]) == TechniqueItems(ts[i], part);
  }

  /** The metadata record (`generated_at` is the clock reading, passed in). */
  datatype Metadata = Metadata(
    referenceLookup: map<string, Reference>,
    authorLookup: map<string, string>,
    generatedAt: string,
    version: string,
    techniqueCount: nat)

  datatype OptimizedData = OptimizedData(techniques: seq<OptimizedTechnique>, metadata: Metadata)

  /** `{v: k for k, v in author_lookup.items()}`: id to author. */
  function AuthorReverseLookup(table: Table<string>): map<string, string>
    requires forall k1, k2 :: k1 in table && k2 in table && table[k1].id == table[k2].id ==> k1 == k2
  {
    map k | k in table :: table[k].id := k
  }

  /** For authors, the first value seen under a key is the key itself. */
  lemma AuthorSlotsHoldKeys(table: Table<string>, counter: nat, all: seq<string>)
    requires Interned(table, counter, all, AuthorKey)
    ensures forall k :: k in table ==> table[k].data == k
  {
    forall k | k in table ensures table[k].data == k {
      var keys := KeysOf(all, AuthorKey);
      assert keys[IndexOf(keys, k)] == k;
    }
  }

  lemma AuthorReverseIsReverse(table: Table<string>)
    requires forall k1, k2 :: k1 in table && k2 in table && table[k1].id == table[k2].id ==> k1 == k2
    requires forall k :: k in table ==> table[k].data == k
    ensures AuthorReverseLookup(table) == ReverseLookup(table)
  {
    var a := AuthorReverseLookup(table);
    var r := ReverseLookup(table);
    forall id | id in a ensures id in r && a[id] == r[id] {
      var k :| k in table && table[k].id == id;
    }
    forall id | id in r ensures id in a {
      var k :| k in table && table[k].id == id;
    }
  }

  /** So mapping author ids back to keys is mapping them back to the stored
      authors: the published author lookup is the one `LookupFor` describes. */
  lemma AuthorReverseLookupIsLookup(table: Table<string>, counter: nat, all: seq<string>)
    requires Interned(table, counter, all, AuthorKey)
    ensures forall k1, k2 :: k1 in table && k2 in table && table[k1].id == table[k2].id ==> k1 == k2
    ensures AuthorReverseLookup(table) == LookupFor(all, AuthorKey)
  {
    ReverseLookupOfInterned(table, counter, all, AuthorKey);
    AuthorSlotsHoldKeys(table, counter, all);
    AuthorReverseIsReverse(table);
  }

  /** The reverse lookups and the metadata record built from the final tables. */
  method MakeMetadata(l: Lookups, ghost ts: seq<OptimizedTechnique>, generatedAt: string, techniqueCount: nat)
    returns (meta: Metadata)
    requires LookupsFor(l, AllItems(ts, RefsOf), AllItems(ts, AuthorsOf))
    ensures meta == Metadata(LookupFor(AllItems(ts, RefsOf), RefKey), LookupFor(AllItems(ts, AuthorsOf), AuthorKey),
                             generatedAt, "1.0", techniqueCount)
  {
    ReverseLookupOfInterned(l.refs, l.refCounter, AllItems(ts, RefsOf), RefKey);
    AuthorReverseLookupIsLookup(l.authors, l.authorCounter, AllItems(ts, AuthorsOf));
    meta := Metadata(ReverseLookup(l.refs), AuthorReverseLookup(l.authors), generatedAt, "1.0", techniqueCount);
  }

  /** The techniques after the pass, one for one. */
  function RewrittenTechniques(ts: seq<OptimizedTechnique>, refOrder: seq<string>, authorOrder: seq<string>)
    : (r: seq<OptimizedTechnique>)
    ensures |r| == |ts| && forall i :: 0 <= i < |ts| ==> r[i] == RewrittenTechnique(ts[i], refOrder, authorOrder)
  {
    seq(|ts|, i requires 0 <= i < |ts| => RewrittenTechnique(ts[i], refOrder, authorOrder))
  }

  /** One iteration of the loop over the techniques: the technique at `i` is
      rewritten in place. */
  method OptimizeTechniqueAt(techniques: array<OptimizedTechnique>, i: nat, l: Lookups, ghost ts: seq<OptimizedTechnique>,
                             ghost refsSeen: seq<Reference>, ghost authorsSeen: seq<string>)
    returns (l': Lookups)
    modifies techniques
    requires i < techniques.Length == |ts|
    requires refsSeen == AllItems(ts[..i], RefsOf) && authorsSeen == AllItems(ts[..i], AuthorsOf)
    requires LookupsFor(l, refsSeen, authorsSeen)
    requires techniques[..] == RewrittenTechniques(ts[..i], Order(AllItems(ts, RefsOf), RefKey), Order(AllItems(ts, AuthorsOf), AuthorKey)) + ts[i..]
    ensures refsSeen + TechniqueItems(ts[i], RefsOf) == AllItems(ts[..i + 1], RefsOf)
    ensures authorsSeen + TechniqueItems(ts[i], AuthorsOf) == AllItems(ts[..i + 1], AuthorsOf)
    ensures LookupsFor(l', refsSeen + TechniqueItems(ts[i], RefsOf), authorsSeen + TechniqueItems(ts[i], AuthorsOf))
    ensures techniques[..] == RewrittenTechniques(ts[..i + 1], Order(AllItems(ts, RefsOf), RefKey), Order(AllItems(ts, AuthorsOf), AuthorKey)) + ts[i + 1..]
  {
    ghost var refOrder, authorOrder := Order(AllItems(ts, RefsOf), RefKey), Order(AllItems(ts, AuthorsOf), AuthorKey);
    AllItemsStep(ts, RefsOf, i, refsSeen);
    AllItemsStep(ts, AuthorsOf, i, authorsSeen);
    RewrittenTechniquesStep(ts, refOrder, authorOrder, i, techniques[..]);
    var t;
    t, l' := OptimizeTechnique(techniques[i], l, refsSeen, authorsSeen, AllItems(ts, RefsOf), AllItems(ts, AuthorsOf));
    techniques[i] := t;
  }

  /** Rewriting the technique at `i` in place extends the rewritten prefix. */
  lemma RewrittenTechniquesStep(ts: seq<OptimizedTechnique>, refOrder: seq<string>, authorOrder: seq<string>, i: nat,
                                cur: seq<OptimizedTechnique>)
    requires i < |ts| && cur == RewrittenTechniques(ts[..i], refOrder, authorOrder) + ts[i..]
    ensures i < |cur| && cur[i] == ts[i]
    ensures cur[i := RewrittenTechnique(ts[i], refOrder, authorOrder)] == RewrittenTechniques(ts[..i + 1], refOrder, authorOrder) + ts[i + 1..]
  {
  }

  lemma TechniquesStart(ts: seq<OptimizedTechnique>, refOrder: seq<string>, authorOrder: seq<string>)
    ensures [] == AllItems(ts[..0], RefsOf) && [] == AllItems(ts[..0], AuthorsOf)
    ensures ts == RewrittenTechniques(ts[..0], refOrder, authorOrder) + ts[0..]
  {
    assert ts[..0] == [];
  }

  lemma TechniquesEnd(ts: seq<OptimizedTechnique>, refOrder: seq<string>, authorOrder: seq<string>)
    ensures AllItems(ts[..|ts|], RefsOf) == AllItems(ts, RefsOf) && AllItems(ts[..|ts|], AuthorsOf) == AllItems(ts, AuthorsOf)
    ensures RewrittenTechniques(ts[..|ts|], refOrder, authorOrder) + ts[|ts|..] == RewrittenTechniques(ts, refOrder, authorOrder)
  {
    assert ts[..|ts|] == ts;
  }

  /** The loop of `optimize_d3fend_references`: rewrites every technique in
      place and returns the final tables. */
  method RewriteAll(techniques: array<OptimizedTechnique>) returns (l: Lookups)
    modifies techniques
    ensures LookupsFor(l, AllItems(old(techniques[..]), RefsOf), AllItems(old(techniques[..]), AuthorsOf))
    ensures techniques[..] == RewrittenTechniques(old(techniques[..]), Order(AllItems(old(techniques[..]), RefsOf), RefKey),
                                                  Order(AllItems(old(techniques[..]), AuthorsOf), AuthorKey))
  {
    ghost var ts := techniques[..];
    InternedEmpty(RefKey);
    InternedEmpty(AuthorKey);
    l := Lookups(map[], 0, map[], 0);
    ghost var refsSeen: seq<Reference>, authorsSeen: seq<string> := [], [];
    TechniquesStart(ts, Order(AllItems(ts, RefsOf), RefKey), Order(AllItems(ts, AuthorsOf), AuthorKey));
    for i := 0 to techniques.Length
      invariant refsSeen == AllItems(ts[..i], RefsOf) && authorsSeen == AllItems(ts[..i], AuthorsOf)
      invariant LookupsFor(l, refsSeen, authorsSeen)
      invariant techniques[..] == RewrittenTechniques(ts[..i], Order(AllItems(ts, RefsOf), RefKey), Order(AllItems(ts, AuthorsOf), AuthorKey)) + ts[i..]
    {
      l := OptimizeTechniqueAt(techniques, i, l, ts, refsSeen, authorsSeen);
      refsSeen, authorsSeen := refsSeen + TechniqueItems(ts[i], RefsOf), authorsSeen + TechniqueItems(ts[i], AuthorsOf);
    }
    TechniquesEnd(ts, Order(AllItems(ts, RefsOf), RefKey), Order(AllItems(ts, AuthorsOf), AuthorKey));
  }

  /** `optimize_d3fend_references`: rewrites every technique's reference and
      author lists in place and returns the techniques with the reverse
      lookup tables. */
  method OptimizeD3fendReferences(techniques: array<OptimizedTechnique>, generatedAt: string)
    returns (data: OptimizedData)
    modifies techniques
    ensures var refs := AllItems(old(techniques[..]), RefsOf);
            var authors := AllItems(old(techniques[..]), AuthorsOf);
            && (forall i :: 0 <= i < techniques.Length ==>
                  techniques[i] == RewrittenTechnique(old(techniques[i]), Order(refs, RefKey), Order(authors, AuthorKey)))
            && data == OptimizedData(techniques[..], Metadata(LookupFor(refs, RefKey), LookupFor(authors, AuthorKey),
                                                             generatedAt, "1.0", techniques.Length))
  {
    ghost var ts := techniques[..];
    var l := RewriteAll(techniques);
    var meta := MakeMetadata(l, ts, generatedAt, techniques.Length);
    data := OptimizedData(techniques[..], meta);
  }

  /** `[optimize_technique_data(tech) for tech in mapped_techniques]`. */
  function Projected(mapped: seq<Technique>): (ts: seq<OptimizedTechnique>)
    ensures |ts| == |mapped| && forall i :: 0 <= i < |mapped| ==> ts[i] == OptimizeTechniqueData(mapped[i])
  {
    seq(|mapped|, i requires 0 <= i < |mapped| => OptimizeTechniqueData(mapped[i]))
  }

  /** The pipeline of `save_optimized_data` before the pruning and the write:
      project every technique, then intern across all of them. */
  method OptimizeAll(mapped: seq<Technique>, generatedAt: string) returns (data: OptimizedData)
    ensures var ts := Projected(mapped);
            var refs := AllItems(ts, RefsOf);
            var authors := AllItems(ts, AuthorsOf);
            && |data.techniques| == |mapped|
            && (forall i :: 0 <= i < |mapped| ==>
                  data.techniques[i] == RewrittenTechnique(ts[i], Order(refs, RefKey), Order(authors, AuthorKey)))
            && data.metadata == Metadata(LookupFor(refs, RefKey), LookupFor(authors, AuthorKey), generatedAt, "1.0", |mapped|)
  {
    var techniques := new OptimizedTechnique[|mapped|](i requires 0 <= i < |mapped| => OptimizeTechniqueData(mapped[i]));
    assert techniques[..] == Projected(mapped);
    data := OptimizeD3fendReferences(techniques, generatedAt);
  }

  // ---- What the pass promises ------------------------------------------------

  /** Where the pass finds the m-th reference of the j-th entry of the i-th
      technique. */
  lemma RefInAll(ts: seq<OptimizedTechnique>, i: nat, j: nat, m: nat)
    requires i < |ts| && ts[i].d3fend.Some? && j < |ts[i].d3fend.value|
    requires ts[i].d3fend.value[j].references.Some? && m < |ts[i].d3fend.value[j].references.value|
    ensures ts[i].d3fend.value[j].references.value[m] in AllItems(ts, RefsOf)
  {
    var es := ts[i].d3fend.value;
    var r := es[j].references.value[m];
    assert r in RefsOf(es[j]);
    FlattenMember(es, RefsOf, j, r);
    assert r in Part(RefsOf)(ts[i]);
    FlattenMember(ts, Part(RefsOf), i, r);
  }

  lemma AuthorInAll(ts: seq<OptimizedTechnique>, i: nat, j: nat, m: nat)
    requires i < |ts| && ts[i].d3fend.Some? && j < |ts[i].d3fend.value|
    requires ts[i].d3fend.value[j].authors.Some? && m < |ts[i].d3fend.value[j].authors.value|
    ensures ts[i].d3fend.value[j].authors.value[m] in AllItems(ts, AuthorsOf)
  {
    var es := ts[i].d3fend.value;
    var a := es[j].authors.value[m];
    assert a in AuthorsOf(es[j]);
    FlattenMember(es, AuthorsOf, j, a);
    assert a in Part(AuthorsOf)(ts[i]);
    FlattenMember(ts, Part(AuthorsOf), i, a);
  }

  /** Round trip for references: a rewritten reference is an id that the
      reference lookup maps to the first reference met with the same key. */
  lemma ReferenceRoundTrip(ts: seq<OptimizedTechnique>, i: nat, j: nat, m: nat)
    requires i < |ts| && ts[i].d3fend.Some? && j < |ts[i].d3fend.value|
    requires ts[i].d3fend.value[j].references.Some? && m < |ts[i].d3fend.value[j].references.value|
    ensures var refs := AllItems(ts, RefsOf);
            var authors := AllItems(ts, AuthorsOf);
            var r := ts[i].d3fend.value[j].references.value[m];
            var out := RewrittenTechnique(ts[i], Order(refs, RefKey), Order(authors, AuthorKey)).d3fend.value[j].references.value[m];
            var lookup := LookupFor(refs, RefKey);
            && out.Plain? && out.text in lookup
            && RefKey(lookup[out.text]) == RefKey(r)
            && lookup[out.text] == FirstWith(refs, RefKey, RefKey(r))
  {
    RefInAll(ts, i, j, m);
    LookupRoundTrip(AllItems(ts, RefsOf), RefKey, ts[i].d3fend.value[j].references.value[m]);
  }

  /** Round trip for authors: a rewritten author is an id that the author
      lookup maps back to that very author. */
  lemma AuthorRoundTrip(ts: seq<OptimizedTechnique>, i: nat, j: nat, m: nat)
    requires i < |ts| && ts[i].d3fend.Some? && j < |ts[i].d3fend.value|
    requires ts[i].d3fend.value[j].authors.Some? && m < |ts[i].d3fend.value[j].authors.value|
    ensures var refs := AllItems(ts, RefsOf);
            var authors := AllItems(ts, AuthorsOf);
            var a := ts[i].d3fend.value[j].authors.value[m];
            var out := RewrittenTechnique(ts[i], Order(refs, RefKey), Order(authors, AuthorKey)).d3fend.value[j].authors.value[m];
            var lookup := LookupFor(authors, AuthorKey);
            out in lookup && lookup[out] == a
  {
    AuthorInAll(ts, i, j, m);
    LookupRoundTrip(AllItems(ts, AuthorsOf), AuthorKey, ts[i].d3fend.value[j].authors.value[m]);
  }

  /** Two references anywhere in the input get the same id exactly when
      they have the same key. */
  lemma ReferenceIdsInjective(ts: seq<OptimizedTechnique>, r1: Reference, r2: Reference)
    requires r1 in AllItems(ts, RefsOf) && r2 in AllItems(ts, RefsOf)
    ensures var order := Order(AllItems(ts, RefsOf), RefKey);
            IdAt(order, RefKey(r1)) == IdAt(order, RefKey(r2)) <==> RefKey(r1) == RefKey(r2)
  {
    var all := AllItems(ts, RefsOf);
    OrderKeys(all, RefKey);
    IdAtInjective(Order(all, RefKey), RefKey(r1), RefKey(r2));
  }

  /** Two authors anywhere in the input get the same id exactly when they
      are the same author. */
  lemma AuthorIdsInjective(ts: seq<OptimizedTechnique>, a1: string, a2: string)
    requires a1 in AllItems(ts, AuthorsOf) && a2 in AllItems(ts, AuthorsOf)
    ensures var order := Order(AllItems(ts, AuthorsOf), AuthorKey);
            IdAt(order, a1) == IdAt(order, a2) <==> a1 == a2
  {
    var all := AllItems(ts, AuthorsOf);
    OrderKeys(all, AuthorKey);
    IdAtInjective(Order(all, AuthorKey), a1, a2);
  }

  /** The reference ids are "1" to "n" where n is the number of distinct
      reference keys in the input; likewise, with their own numbering, the
      author ids. */
  lemma LookupSizes(ts: seq<OptimizedTechnique>)
    ensures var refs := AllItems(ts, RefsOf);
            var order := Order(refs, RefKey);
            && Distinct(order)
            && (forall k :: k in order <==> exists r :: r in refs && RefKey(r) == k)
            && (forall j :: 1 <= j <= |order| ==> NatToString(j) in LookupFor(refs, RefKey))
            && (forall id :: id in LookupFor(refs, RefKey) ==> AllDigits(id) && 1 <= ParseNat(id) <= |order| && id == NatToString(ParseNat(id)))
    ensures var authors := AllItems(ts, AuthorsOf);
            var order := Order(authors, AuthorKey);
            && Distinct(order)
            && (forall a :: a in order <==> a in authors)
            && (forall j :: 1 <= j <= |order| ==> NatToString(j) in LookupFor(authors, AuthorKey))
            && (forall id :: id in LookupFor(authors, AuthorKey) ==> AllDigits(id) && 1 <= ParseNat(id) <= |order| && id == NatToString(ParseNat(id)))
  {
    OrderKeys(AllItems(ts, RefsOf), RefKey);
    LookupIds(AllItems(ts, RefsOf), RefKey);
    OrderKeys(AllItems(ts, AuthorsOf), AuthorKey);
    LookupIds(AllItems(ts, AuthorsOf), AuthorKey);
  }
}
