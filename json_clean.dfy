/** `clean_empty`, the pruning the optimiser runs over its output before the
    write: a recursive walk over JSON-like data that drops "empty" values
    from dictionaries and lists. */
module JsonClean {
  import opened Seqs

  /** The JSON-like values the optimiser writes. A dictionary is its list of
      members in insertion order. */
  datatype Json = Null | Bool(b: bool) | Int(i: int) | Str(s: string) | Arr(items: seq<Json>) | Obj(members: seq<Member>)

  datatype Member = Member(key: string, value: Json)

  /** `v in (None, "", [], {}, 0)`. Python compares with `==`, so `False`,
      which equals 0, is empty as well. */
  predicate IsEmpty(v: Json) {
    v == Null || v == Str("") || v == Arr([]) || v == Obj([]) || v == Int(0) || v == Bool(false)
  }

  predicate NotEmpty(v: Json) {
    !IsEmpty(v)
  }

  /** `clean_empty`: dictionaries keep a member when its value is not empty
      and its cleaned value is not empty either, storing the cleaned value;
      lists keep an item when the item itself is not empty, storing the
      cleaned item; anything else is returned as it is. */
  function CleanEmpty(v: Json): (r: Json)
    ensures r.Obj? <==> v.Obj?
    ensures r.Arr? <==> v.Arr?
    ensures r.Obj? ==> |r.members| <= |v.members|
    ensures r.Arr? ==> |r.items| <= |v.items|
    ensures !v.Obj? && !v.Arr? ==> r == v
  {
    match v
    case Obj(ms) => Obj(CleanMembers(ms))
    case Arr(items) => Arr(CleanItems(items))
    case _ => v
  }

  function CleanMembers(ms: seq<Member>): (r: seq<Member>)
    ensures |r| <= |ms|
  {
    if ms == [] then []
    else
      var m := ms[|ms| - 1];
      CleanMembers(ms[..|ms| - 1])
        + (if !IsEmpty(m.value) && !IsEmpty(CleanEmpty(m.value)) then [Member(m.key, CleanEmpty(m.value))] else [])
  }

  function CleanItems(items: seq<Json>): (r: seq<Json>)
    ensures |r| <= |items|
  {
    if items == [] then []
    else
      var item := items[|items| - 1];
      CleanItems(items[..|items| - 1]) + (if !IsEmpty(item) then [CleanEmpty(item)] else [])
  }

  // ---- What survives ---------------------------------------------------------

  /** A member survives the cleaning of a dictionary exactly when its value
      and its cleaned value are both non-empty, and then it carries the
      cleaned value under the same key. */
  lemma {:induction false} CleanMembersExactly(ms: seq<Member>, key: string, value: Json)
    ensures Member(key, value) in CleanMembers(ms) <==>
            exists m :: m in ms && m.key == key && !IsEmpty(m.value) && !IsEmpty(CleanEmpty(m.value))
                        && value == CleanEmpty(m.value)
  {
    if ms != [] {
      var init := ms[..|ms| - 1];
      var last := ms[|ms| - 1];
      CleanMembersExactly(init, key, value);
      assert ms == init + [last];
      if exists m :: m in ms && m.key == key && !IsEmpty(m.value) && !IsEmpty(CleanEmpty(m.value))
                     && value == CleanEmpty(m.value) {
        var m :| m in ms && m.key == key && !IsEmpty(m.value) && !IsEmpty(CleanEmpty(m.value))
                 && value == CleanEmpty(m.value);
        if m != last {
          assert m in init;
        }
      }
    }
  }

  /** The cleaned items of a list are the cleaned non-empty items, in order. */
  lemma {:induction false} CleanItemsFilter(items: seq<Json>)
    ensures |CleanItems(items)| == |Filter(items, NotEmpty)|
    ensures forall i :: 0 <= i < |CleanItems(items)| ==> CleanItems(items)[i] == CleanEmpty(Filter(items, NotEmpty)[i])
  {
    if items != [] {
      CleanItemsFilter(items[..|items| - 1]);
    }
  }

  // ---- Nothing empty is left in a dictionary ---------------------------------

  predicate EmptyScalar(v: Json) {
    v == Null || v == Str("") || v == Int(0) || v == Bool(false)
  }

  /** At every depth, no dictionary holds an empty value and no list holds
      an empty scalar. */
  predicate Pruned(v: Json) {
    match v
    case Obj(ms) => forall i :: 0 <= i < |ms| ==> !IsEmpty(ms[i].value) && Pruned(ms[i].value)
    case Arr(items) => forall i :: 0 <= i < |items| ==> !EmptyScalar(items[i]) && Pruned(items[i])
    case _ => true
  }

  lemma {:induction false} CleanPruned(v: Json)
    ensures Pruned(CleanEmpty(v))
  {
    match v
    case Obj(ms) => CleanMembersPruned(ms);
    case Arr(items) => CleanItemsPruned(items);
    case _ =>
  }

  lemma {:induction false} CleanMembersPruned(ms: seq<Member>)
    ensures forall i :: 0 <= i < |CleanMembers(ms)| ==>
              !IsEmpty(CleanMembers(ms)[i].value) && Pruned(CleanMembers(ms)[i].value)
  {
    if ms != [] {
      CleanMembersPruned(ms[..|ms| - 1]);
      CleanPruned(ms[|ms| - 1].value);
    }
  }

  lemma {:induction false} CleanItemsPruned(items: seq<Json>)
    ensures forall i :: 0 <= i < |CleanItems(items)| ==>
              !EmptyScalar(CleanItems(items)[i]) && Pruned(CleanItems(items)[i])
  {
    if items != [] {
      var item := items[|items| - 1];
      CleanItemsPruned(items[..|items| - 1]);
      CleanPruned(item);
    }
  }

  // ---- Values already clean ----------------------------------------------------

  /** At every depth, no dictionary value and no list item is empty. */
  predicate Settled(v: Json) {
    match v
    case Obj(ms) => forall i :: 0 <= i < |ms| ==> !IsEmpty(ms[i].value) && Settled(ms[i].value)
    case Arr(items) => forall i :: 0 <= i < |items| ==> !IsEmpty(items[i]) && Settled(items[i])
    case _ => true
  }

  /** Cleaning leaves a settled value as it is. */
  lemma {:induction false} CleanSettled(v: Json)
    requires Settled(v)
    ensures CleanEmpty(v) == v
  {
    match v
    case Obj(ms) => CleanMembersSettled(ms);
    case Arr(items) => CleanItemsSettled(items);
    case _ =>
  }

  lemma {:induction false} CleanMembersSettled(ms: seq<Member>)
    requires forall i :: 0 <= i < |ms| ==> !IsEmpty(ms[i].value) && Settled(ms[i].value)
    ensures CleanMembers(ms) == ms
  {
    if ms != [] {
      var last := ms[|ms| - 1];
      CleanMembersSettled(ms[..|ms| - 1]);
      CleanSettled(last.value);
      assert ms == ms[..|ms| - 1] + [last];
    }
  }

  lemma {:induction false} CleanItemsSettled(items: seq<Json>)
    requires forall i :: 0 <= i < |items| ==> !IsEmpty(items[i]) && Settled(items[i])
    ensures CleanItems(items) == items
  {
    if items != [] {
      var last := items[|items| - 1];
      CleanItemsSettled(items[..|items| - 1]);
      CleanSettled(last);
      assert items == items[..|items| - 1] + [last];
    }
  }

  // ---- Lists are filtered before cleaning --------------------------------------

  /** A list item that only becomes empty once cleaned is kept, so the result
      is not settled and a second cleaning changes it again. */
  lemma ListKeepsItemEmptiedByCleaning()
    ensures CleanEmpty(Arr([Arr([Null])])) == Arr([Arr([])])
    ensures !Settled(CleanEmpty(Arr([Arr([Null])])))
    ensures CleanEmpty(CleanEmpty(Arr([Arr([Null])]))) == Arr([])
  {
    assert [Arr([Null])][..0] == [];
    assert [Null][..0] == [];
    assert CleanItems([Null]) == [];
    assert CleanItems([Arr([Null])]) == [Arr([])];
    assert [Arr([])][..0] == [];
    assert CleanItems([Arr([])]) == [];
  }

  /** A dictionary value that becomes empty once cleaned is dropped. */
  lemma DictDropsValueEmptiedByCleaning()
    ensures CleanEmpty(Obj([Member("a", Arr([Null]))])) == Obj([])
  {
    assert [Member("a", Arr([Null]))][..0] == [];
    assert [Null][..0] == [];
    assert CleanItems([Null]) == [];
  }
}
