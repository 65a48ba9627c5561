/** Interning values into a lookup table with counter-numbered string ids, as
    the optimiser does for D3FEND references and authors: the first value
    seen under a key gets the next id ("1", "2", ...) and keeps it, and the
    table remembers that first value. */
module Interning {
  import opened Common
  import opened Seqs

  /** The keys of `vs`, in order. */
  function KeysOf<V>(vs: seq<V>, key: V -> string): (ks: seq<string>)
    ensures |ks| == |vs| && forall i :: 0 <= i < |vs| ==> ks[i] == key(vs[i])
  {
    seq(|vs|, i requires 0 <= i < |vs| => key(vs[i]))
  }

  lemma KeysOfConcat<V>(xs: seq<V>, ys: seq<V>, key: V -> string)
    ensures KeysOf(xs + ys, key) == KeysOf(xs, key) + KeysOf(ys, key)
  {
  }

  /** The distinct keys of `vs` in first-seen order. */
  function Order<V>(vs: seq<V>, key: V -> string): seq<string> {
    Dedupe(KeysOf(vs, key))
  }

  /** The id of key `k` when the keys were first seen in the order `order`:
      its 1-based position, written in decimal. */
  function IdAt(order: seq<string>, k: string): string {
    if k in order then NatToString(IndexOf(order, k) + 1) else ""
  }

  /** The first value of `vs` carrying the key `k`. */
  function FirstWith<V>(vs: seq<V>, key: V -> string, k: string): V
    requires k in KeysOf(vs, key)
  {
    vs[IndexOf(KeysOf(vs, key), k)]
  }

  /** A lookup table entry: `{'id': str(counter), 'data': value}`. */
  datatype Slot<V> = Slot(id: string, data: V)

  type Table<V> = map<string, Slot<V>>

  /** `table` and `counter` are what interning `seen` from an empty table
      and a zero counter leaves: one entry per distinct key, numbered in
      first-seen order and holding the first value with that key, and the
      counter at the number of distinct keys. */
  ghost predicate Interned<V>(table: Table<V>, counter: nat, seen: seq<V>, key: V -> string) {
    counter == |Order(seen, key)| && table == TableFor(seen, key)
  }

  /** The table interning `seen` builds. */
  ghost function TableFor<V>(seen: seq<V>, key: V -> string): (table: Table<V>)
    ensures forall k :: k in table <==> k in Order(seen, key)
  {
    var order := Order(seen, key);
    map k | k in order :: Slot(IdAt(order, k), FirstWith(seen, key, k))
  }

  lemma InternedEmpty<V>(key: V -> string)
    ensures Interned(map[], 0, [], key)
  {
    assert KeysOf([], key) == [];
  }

  /** Seeing one more value changes neither the id nor the first value of a
      key already seen. */
  lemma KnownKeyStable<V>(seen: seq<V>, key: V -> string, v: V, k: string)
    requires k in KeysOf(seen, key)
    ensures KeysOf(seen + [v], key) == KeysOf(seen, key) + [key(v)]
    ensures k in KeysOf(seen + [v], key) && k in Order(seen, key)
    ensures IdAt(Order(seen + [v], key), k) == IdAt(Order(seen, key), k)
    ensures FirstWith(seen + [v], key, k) == FirstWith(seen, key, k)
  {
    var keys := KeysOf(seen, key);
    KeysOfConcat(seen, [v], key);
    DedupeSnoc(keys, key(v));
    var order := Order(seen, key);
    if key(v) !in order {
      IndexOfAppend(order, [key(v)], k);
    }
    IndexOfAppend(keys, [key(v)], k);
  }

  /** A key seen for the first time gets the next number and the value. */
  lemma NewKey<V>(seen: seq<V>, key: V -> string, v: V)
    requires key(v) !in KeysOf(seen, key)
    ensures Order(seen + [v], key) == Order(seen, key) + [key(v)]
    ensures IdAt(Order(seen + [v], key), key(v)) == NatToString(|Order(seen, key)| + 1)
    ensures key(v) in KeysOf(seen + [v], key) && FirstWith(seen + [v], key, key(v)) == v
  {
    var keys := KeysOf(seen, key);
    KeysOfConcat(seen, [v], key);
    assert KeysOf(seen + [v], key) == keys + [key(v)];
    DedupeSnoc(keys, key(v));
    assert IndexOf(keys + [key(v)], key(v)) == |keys|;
  }

  /** Interning one more value: a new key gets the next counter value as its
      id, a known key changes nothing. */
  lemma InternStep<V>(table: Table<V>, counter: nat, seen: seq<V>, key: V -> string, v: V)
    requires Interned(table, counter, seen, key)
    ensures var k := key(v);
            var table' := if k in table then table else table[k := Slot(NatToString(counter + 1), v)];
            var counter' := if k in table then counter else counter + 1;
            Interned(table', counter', seen + [v], key)
  {
    if key(v) in table {
      KnownKeyStep(seen, key, v);
    } else {
      NewKeyStep(seen, key, v);
    }
  }

  lemma KnownKeyStep<V>(seen: seq<V>, key: V -> string, v: V)
    requires key(v) in Order(seen, key)
    ensures Order(seen + [v], key) == Order(seen, key)
    ensures TableFor(seen + [v], key) == TableFor(seen, key)
  {
    var k := key(v);
    KnownKeyStable(seen, key, v, k);
    DedupeSnoc(KeysOf(seen, key), k);
    var t := TableFor(seen, key);
    var t' := TableFor(seen + [v], key);
    forall k' | k' in t' ensures t'[k'] == t[k'] {
      KnownKeyStable(seen, key, v, k');
    }
  }

  lemma NewKeyStep<V>(seen: seq<V>, key: V -> string, v: V)
    requires key(v) !in Order(seen, key)
    ensures |Order(seen + [v], key)| == |Order(seen, key)| + 1
    ensures TableFor(seen + [v], key)
         == TableFor(seen, key)[key(v) := Slot(NatToString(|Order(seen, key)| + 1), v)]
  {
    var k := key(v);
    NewKey(seen, key, v);
    var t := TableFor(seen, key);
    var t' := TableFor(seen + [v], key);
    var u := t[k := Slot(NatToString(|Order(seen, key)| + 1), v)];
    forall k' | k' in t' ensures k' in u && t'[k'] == u[k'] {
      if k' != k {
        KnownKeyStable(seen, key, v, k');
      }
    }
    assert t' == u;
  }

  /** An id handed out while a prefix of `all` has been seen is the id the
      key has in the first-seen order of all of `all`. */
  lemma IdFinal<V>(prefix: seq<V>, all: seq<V>, key: V -> string, k: string)
    requires prefix <= all && k in KeysOf(prefix, key)
    ensures IdAt(Order(prefix, key), k) == IdAt(Order(all, key), k)
  {
    OrderPrefix(prefix, all, key);
    IndexOfPrefix(Order(prefix, key), Order(all, key), k);
  }

  /** The first-seen order of a prefix is a prefix of the first-seen order. */
  lemma OrderPrefix<V>(prefix: seq<V>, all: seq<V>, key: V -> string)
    requires prefix <= all
    ensures Order(prefix, key) <= Order(all, key)
  {
    var rest := all[|prefix|..];
    assert all == prefix + rest;
    KeysOfConcat(prefix, rest, key);
    DedupePrefix(KeysOf(prefix, key), KeysOf(rest, key));
  }

  /** Distinct keys get distinct ids, and every id is a number from 1 to the
      number of distinct keys. */
  lemma IdAtInjective(order: seq<string>, k1: string, k2: string)
    requires Distinct(order) && k1 in order && k2 in order
    ensures IdAt(order, k1) == IdAt(order, k2) <==> k1 == k2
  {
    NatToStringInjective(IndexOf(order, k1) + 1, IndexOf(order, k2) + 1);
  }

  lemma IdAtInjectiveAll(order: seq<string>)
    requires Distinct(order)
    ensures forall k1, k2 :: k1 in order && k2 in order && IdAt(order, k1) == IdAt(order, k2) ==> k1 == k2
  {
    forall k1, k2 | k1 in order && k2 in order && IdAt(order, k1) == IdAt(order, k2) ensures k1 == k2 {
      IdAtInjective(order, k1, k2);
    }
  }

  /** The reverse lookup the optimiser publishes: id to stored value,
      `{v['id']: v['data'] for v in lookup.values()}`. */
  function ReverseLookup<V>(table: Table<V>): map<string, V>
    requires forall k1, k2 :: k1 in table && k2 in table && table[k1].id == table[k2].id ==> k1 == k2
  {
    map k | k in table :: table[k].id := table[k].data
  }

  /** The reverse lookup after interning `all`: each distinct key's id
      mapped to the first value carrying that key. */
  function LookupFor<V>(all: seq<V>, key: V -> string): map<string, V> {
    var order := Order(all, key);
    IdAtInjectiveAll(order);
    map k | k in order :: IdAt(order, k) := FirstWith(all, key, k)
  }

  /** An interned table gives distinct keys distinct ids. */
  lemma InternedIdsDistinct<V>(table: Table<V>, counter: nat, all: seq<V>, key: V -> string)
    requires Interned(table, counter, all, key)
    ensures forall k1, k2 :: k1 in table && k2 in table && table[k1].id == table[k2].id ==> k1 == k2
  {
    IdAtInjectiveAll(Order(all, key));
  }

  /** Every entry of the table's reverse lookup is one `LookupFor` has. */
  lemma ReverseLookupInLookup<V>(table: Table<V>, counter: nat, all: seq<V>, key: V -> string)
    requires Interned(table, counter, all, key)
    requires forall k1, k2 :: k1 in table && k2 in table && table[k1].id == table[k2].id ==> k1 == k2
    ensures forall id :: id in ReverseLookup(table) ==> id in LookupFor(all, key) && ReverseLookup(table)[id] == LookupFor(all, key)[id]
  {
    var order := Order(all, key);
    IdAtInjectiveAll(order);
    var r := ReverseLookup(table);
    var l := LookupFor(all, key);
    forall id | id in r ensures id in l && r[id] == l[id] {
      var k :| k in table && table[k].id == id;
    }
  }

  /** Every id `LookupFor` has is an id of the table. */
  lemma LookupInReverseLookup<V>(table: Table<V>, counter: nat, all: seq<V>, key: V -> string)
    requires Interned(table, counter, all, key)
    requires forall k1, k2 :: k1 in table && k2 in table && table[k1].id == table[k2].id ==> k1 == k2
    ensures forall id :: id in LookupFor(all, key) ==> id in ReverseLookup(table)
  {
    var order := Order(all, key);
    IdAtInjectiveAll(order);
    var r := ReverseLookup(table);
    forall id | id in LookupFor(all, key) ensures id in r {
      var k :| k in order && IdAt(order, k) == id;
      assert table[k].id == id;
    }
  }

  /** The table's reverse lookup is the one `LookupFor` describes. */
  lemma ReverseLookupOfInterned<V>(table: Table<V>, counter: nat, all: seq<V>, key: V -> string)
    requires Interned(table, counter, all, key)
    ensures forall k1, k2 :: k1 in table && k2 in table && table[k1].id == table[k2].id ==> k1 == k2
    ensures ReverseLookup(table) == LookupFor(all, key)
  {
    InternedIdsDistinct(table, counter, all, key);
    ReverseLookupInLookup(table, counter, all, key);
    LookupInReverseLookup(table, counter, all, key);
  }

  /** The distinct keys are those of the values interned. */
  lemma OrderKeys<V>(all: seq<V>, key: V -> string)
    ensures forall k :: k in Order(all, key) <==> exists v :: v in all && key(v) == k
  {
    var order := Order(all, key);
    forall k | k in order ensures exists v :: v in all && key(v) == k {
      var i :| 0 <= i < |all| && KeysOf(all, key)[i] == k;
      assert all[i] in all;
    }
    forall v | v in all ensures key(v) in order {
      var i :| 0 <= i < |all| && all[i] == v;
      assert KeysOf(all, key)[i] == key(v);
    }
  }

  /** The published ids are "1" to "n", n the number of distinct keys: each
      of these numbers is an id, and every id is the decimal form of one. */
  lemma LookupIds<V>(all: seq<V>, key: V -> string)
    ensures forall j :: 1 <= j <= |Order(all, key)| ==> NatToString(j) in LookupFor(all, key)
    ensures forall id :: id in LookupFor(all, key) ==>
              AllDigits(id) && 1 <= ParseNat(id) <= |Order(all, key)| && id == NatToString(ParseNat(id))
  {
    var order := Order(all, key);
    var l := LookupFor(all, key);
    forall j | 1 <= j <= |order| ensures NatToString(j) in l {
      IndexOfDistinct(order, j - 1);
      assert IdAt(order, order[j - 1]) == NatToString(j);
    }
    forall id | id in l ensures AllDigits(id) && 1 <= ParseNat(id) <= |order| && id == NatToString(ParseNat(id)) {
      var k :| k in order && IdAt(order, k) == id;
      var n := IndexOf(order, k) + 1;
      assert id == NatToString(n);
      ParseNatToString(n);
      assert ParseNat(id) == n <= |order|;
    }
  }

  /** Round trip: looking up the id a value was given yields the first value
      seen with the same key. */
  lemma LookupRoundTrip<V>(all: seq<V>, key: V -> string, v: V)
    requires v in all
    ensures IdAt(Order(all, key), key(v)) in LookupFor(all, key)
    ensures var w := LookupFor(all, key)[IdAt(Order(all, key), key(v))];
            && key(w) == key(v)
            && w == FirstWith(all, key, key(v))
  {
    var order := Order(all, key);
    OrderKeys(all, key);
    assert key(v) in order;
    IdAtInjectiveAll(order);
    var l := LookupFor(all, key);
    assert l[IdAt(order, key(v))] == FirstWith(all, key, key(v));
    assert KeysOf(all, key)[IndexOf(KeysOf(all, key), key(v))] == key(v);
  }
}
