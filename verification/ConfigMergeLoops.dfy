/** The loops of `backend/src/configMerge.ts`, proved to compute the merge of module ConfigMerge. */
module ConfigMergeLoops {
  import opened Wrappers
  import opened ConfigMerge
  import opened ConfigMergeProofs

  /** A JavaScript `Map` from entry id to entry: the ids in insertion order, and what each holds. */
  datatype Index = Index(order: seq<string>, entries: map<string, Json>) {
    function Get(id: string): Side {
      if id in entries then Some(entries[id]) else None
    }
  }

  ghost predicate Indexes(index: Index, items: seq<Json>, key: string) {
    && Indexable(items, key)
    && index.order == Ids(items, key)
    && (forall id :: id in index.entries <==> id in index.order)
    && forall id :: index.Get(id) == Lookup(items, key, id)
  }

  /** Index a list by id; None when an entry has no id or an id repeats. */
  method IndexById(items: seq<Json>, key: string) returns (index: Option<Index>)
    ensures index.Some? <==> Indexable(items, key)
    ensures index.Some? ==> Indexes(index.value, items, key)
  {
    var found := Index([], map[]);
    for i := 0 to |items|
      invariant Indexes(found, items[..i], key)
    {
      var entry, before := items[i], items[..i];
      assert items[..i + 1] == before + [entry];
      match IdOf(entry, key)
      case None =>
        return None;
      case Some(id) =>
        if id in found.entries {
          assert exists j | 0 <= j < i :: found.order[j] == id;
          return None;
        }
        assert Ids(before + [entry], key) == found.order + [id];
        forall other
          ensures Lookup(before + [entry], key, other) == found.(entries := found.entries[id := entry]).Get(other)
        {
          LookupAppend(before, entry, key, other);
        }
        found := Index(found.order + [id], found.entries[id := entry]);
    }
    assert items[..|items|] == items;
    return Some(found);
  }

  method MergeListLoop(base: Side, ours: Side, theirs: Side, key: string) returns (merged: Merged)
    ensures merged == MergeList(base, ours, theirs, key)
  {
    if (base.Some? && !base.value.Arr?) || (ours.Some? && !ours.value.Arr?) || (theirs.Some? && !theirs.value.Arr?) {
      return MergeAtomic(base, ours, theirs);
    }
    var b := IndexById(Items(base), key);
    var o := IndexById(Items(ours), key);
    var t := IndexById(Items(theirs), key);
    NotListShaped(base, ours, theirs, key);
    if b.None? || o.None? || t.None? {
      return MergeAtomic(base, ours, theirs);
    }
    var entries := MergeIndexed(b.value, o.value, t.value, Items(base), Items(ours), Items(theirs), key);
    merged := if entries.None? then Conflict else Value(Some(Arr(entries.value)));
  }

  lemma NotListShaped(base: Side, ours: Side, theirs: Side, key: string)
    requires (base.Some? ==> base.value.Arr?) && (ours.Some? ==> ours.value.Arr?) && (theirs.Some? ==> theirs.value.Arr?)
    ensures AllListShaped(base, ours, theirs, key)
       <==> Indexable(Items(base), key) && Indexable(Items(ours), key) && Indexable(Items(theirs), key)
  {
  }

  method MergeIndexed(b: Index, o: Index, t: Index,
                      ghost base: seq<Json>, ghost ours: seq<Json>, ghost theirs: seq<Json>, ghost key: string)
    returns (merged: Option<seq<Json>>)
    requires Indexes(b, base, key) && Indexes(o, ours, key) && Indexes(t, theirs, key)
    ensures merged == MergeEntries(MergeOrder(Ids(base, key), Ids(ours, key), Ids(theirs, key)), base, ours, theirs, key)
  {
    var order := CollectOrder(b.order, o.order, t.order);
    merged := MergeEntriesLoop(order, b, o, t, base, ours, theirs, key);
  }

  method MergeEntriesLoop(order: seq<string>, b: Index, o: Index, t: Index,
                          ghost base: seq<Json>, ghost ours: seq<Json>, ghost theirs: seq<Json>, ghost key: string)
    returns (merged: Option<seq<Json>>)
    requires Indexes(b, base, key) && Indexes(o, ours, key) && Indexes(t, theirs, key)
    ensures merged == MergeEntries(order, base, ours, theirs, key)
  {
    var entries: seq<Json> := [];
    for i := 0 to |order|
      invariant MergeEntries(order[..i], base, ours, theirs, key) == Some(entries)
    {
      var id := order[i];
      assert order[..i + 1][..i] == order[..i];
      var entry := MergeAtomic(b.Get(id), o.Get(id), t.Get(id));
      assert entry == MergedEntry(base, ours, theirs, key, id);
      if entry.Conflict? {
        EntriesConflict(order, base, ours, theirs, key);
        return None;
      }
      if entry.value.Some? {
        entries := entries + [entry.value.value];
      }
    }
    assert order[..|order|] == order;
    return Some(entries);
  }

  /** Theirs, then what only we have, then base ids not seen yet. */
  method CollectOrder(base: seq<string>, ours: seq<string>, theirs: seq<string>) returns (order: seq<string>)
    requires Distinct(base)
    ensures order == MergeOrder(base, ours, theirs)
  {
    order := theirs + Without(ours, theirs);
    ghost var known := order;
    for i := 0 to |base|
      invariant order == known + Without(base[..i], known)
    {
      assert base[..i + 1][..i] == base[..i];
      assert base[i] !in base[..i];
      if base[i] !in order {
        order := order + [base[i]];
      }
    }
    assert base[..|base|] == base;
  }

  method MergeRecordLoop(fields: map<string, MergeSpec>, base: Side, ours: Side, theirs: Side)
    returns (merged: Merged)
    ensures merged == MergeRecord(fields, base, ours, theirs)
    decreases Record(fields), 1
  {
    if !RecordShaped(base) || !RecordShaped(ours) || !RecordShaped(theirs) {
      return MergeAtomic(base, ours, theirs);
    }
    var pending := AllFieldNames(base, ours, theirs);
    ghost var done: set<string> := {};
    var result: map<string, Json> := map[];
    while pending != {}
      invariant done + pending == AllFieldNames(base, ours, theirs) && done !! pending
      invariant forall name | name in done :: MergeField(fields, name, base, ours, theirs).Value?
      invariant result == MergedFields(fields, done, base, ours, theirs)
      decreases pending
    {
      var name :| name in pending;
      var value := MergeFieldLoop(fields, name, base, ours, theirs);
      if value.Conflict? {
        return Conflict;
      }
      MergedFieldsGrow(fields, done, name, base, ours, theirs);
      if value.value.Some? {
        result := result[name := value.value.value];
      }
      pending, done := pending - {name}, done + {name};
    }
    assert done == AllFieldNames(base, ours, theirs);
    return Value(Some(Obj(result)));
  }

  lemma MergedFieldsGrow(fields: map<string, MergeSpec>, names: set<string>, name: string,
                         base: Side, ours: Side, theirs: Side)
    requires forall other | other in names + {name} :: MergeField(fields, other, base, ours, theirs).Value?
    requires name !in names
    ensures var before := MergedFields(fields, names, base, ours, theirs);
            var value := MergeField(fields, name, base, ours, theirs).value;
            MergedFields(fields, names + {name}, base, ours, theirs)
            == if value.Some? then before[name := value.value] else before
  {
  }

  method MergeFieldLoop(fields: map<string, MergeSpec>, name: string, base: Side, ours: Side, theirs: Side)
    returns (merged: Merged)
    ensures merged == MergeField(fields, name, base, ours, theirs)
    decreases Record(fields), 0
  {
    var b, o, t := Field(base, name), Field(ours, name), Field(theirs, name);
    if name in fields {
      merged := MergeWithLoop(fields[name], b, o, t);
    } else {
      merged := MergeAtomic(b, o, t);
    }
  }

  method MergeWithLoop(spec: MergeSpec, base: Side, ours: Side, theirs: Side) returns (merged: Merged)
    ensures merged == MergeWith(spec, base, ours, theirs)
    decreases spec, 2
  {
    match spec
    case Atomic => merged := MergeAtomic(base, ours, theirs);
    case List(key) => merged := MergeListLoop(base, ours, theirs, key);
    case Record(fields) => merged := MergeRecordLoop(fields, base, ours, theirs);
  }
}
