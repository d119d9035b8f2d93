/**
 * What an editor may rely on when the three-way merge accepts or refuses a save.
 *
 * The merge is described unit by unit: a unit is the whole value, one entry of a list found by its
 * id, or a unit of one field of a record. `At` reads a unit, absent included.
 */
module ConfigMergeProofs {
  import opened Wrappers
  import opened ConfigMerge

  datatype Unit = Whole | Entry(key: string, id: string) | Under(field: string, inner: Unit)

  function At(side: Side, unit: Unit): Side
    decreases unit
  {
    match unit
    case Whole => side
    case Entry(key, id) => Lookup(Items(side), key, id)
    case Under(field, inner) => At(Field(side, field), inner)
  }

  /** The units of a merge: as fine as the spec allows, whole where a side has not the right shape. */
  predicate IsUnit(spec: MergeSpec, base: Side, ours: Side, theirs: Side, unit: Unit)
    decreases unit
  {
    match spec
    case Atomic => unit.Whole?
    case List(key) =>
      if AllListShaped(base, ours, theirs, key) then unit.Entry? && unit.key == key else unit.Whole?
    case Record(fields) =>
      if AllRecordShaped(base, ours, theirs)
      then
        && unit.Under?
        && IsUnit(SubSpec(fields, unit.field), Field(base, unit.field), Field(ours, unit.field),
                  Field(theirs, unit.field), unit.inner)
      else unit.Whole?
  }

  /** Both sides changed the unit, and differently. */
  predicate Clash(base: Side, ours: Side, theirs: Side) {
    ours != base && theirs != base && ours != theirs
  }

  predicate ClashAt(base: Side, ours: Side, theirs: Side, unit: Unit) {
    Clash(At(base, unit), At(ours, unit), At(theirs, unit))
  }

  // ---------------------------------------------------------------------------
  // Lists
  // ---------------------------------------------------------------------------

  /** `Lookup` finds exactly the entry whose position holds the id. */
  lemma {:induction false} LookupFinds(items: seq<Json>, key: string, i: nat)
    requires Indexable(items, key) && i < |items|
    ensures Lookup(items, key, Ids(items, key)[i]) == Some(items[i])
  {
    if i > 0 {
      assert IdOf(items[0], key) != IdOf(items[i], key);
      LookupFinds(items[1..], key, i - 1);
    }
  }

  lemma {:induction false} LookupPresent(items: seq<Json>, key: string, id: string)
    requires Indexable(items, key)
    ensures Lookup(items, key, id).Some? <==> id in Ids(items, key)
    ensures Lookup(items, key, id).Some? ==>
              Lookup(items, key, id).value in items && IdOf(Lookup(items, key, id).value, key) == Some(id)
  {
    if items != [] {
      var rest := items[1..];
      LookupPresent(rest, key, id);
      assert Ids(items, key) == [Ids(items, key)[0]] + Ids(rest, key);
    }
  }

  lemma MergeOrderDistinct(base: seq<string>, ours: seq<string>, theirs: seq<string>)
    requires Distinct(base) && Distinct(ours) && Distinct(theirs)
    ensures Distinct(MergeOrder(base, ours, theirs))
  {
    WithoutDistinct(ours, theirs);
    var known := theirs + Without(ours, theirs);
    ConcatDistinct(theirs, Without(ours, theirs));
    WithoutDistinct(base, known);
    ConcatDistinct(known, Without(base, known));
  }

  lemma ConcatDistinct(left: seq<string>, right: seq<string>)
    requires Distinct(left) && Distinct(right)
    requires forall id | id in right :: id !in left
    ensures Distinct(left + right)
  {
    forall i, j | 0 <= i < j < |left + right|
      ensures (left + right)[i] != (left + right)[j]
    {
      if i < |left| <= j {
        assert right[j - |left|] in right;
      }
    }
  }

  lemma {:induction false} WithoutDistinct(ids: seq<string>, known: seq<string>)
    requires Distinct(ids)
    ensures Distinct(Without(ids, known))
  {
    if ids != [] {
      WithoutDistinct(ids[..|ids| - 1], known);
    }
  }

  /** The ids of `order` that survive the merge, in that order. */
  function Surviving(order: seq<string>, base: seq<Json>, ours: seq<Json>, theirs: seq<Json>, key: string)
    : seq<string>
  {
    if order == [] then []
    else
      var id := order[|order| - 1];
      var rest := Surviving(order[..|order| - 1], base, ours, theirs, key);
      if MergedEntry(base, ours, theirs, key, id) == Value(None) then rest else rest + [id]
  }

  function MergedEntry(base: seq<Json>, ours: seq<Json>, theirs: seq<Json>, key: string, id: string): Merged {
    MergeAtomic(Lookup(base, key, id), Lookup(ours, key, id), Lookup(theirs, key, id))
  }

  /** The fold over the order conflicts exactly when one id does. */
  lemma {:induction false} EntriesConflict(
    order: seq<string>, base: seq<Json>, ours: seq<Json>, theirs: seq<Json>, key: string)
    ensures MergeEntries(order, base, ours, theirs, key).None?
       <==> exists id :: id in order && MergedEntry(base, ours, theirs, key, id).Conflict?
  {
    if order != [] {
      var init, last := order[..|order| - 1], order[|order| - 1];
      assert order == init + [last];
      EntriesConflict(init, base, ours, theirs, key);
      assert last in order;
      assert forall id | id in order :: id in init || id == last;
    }
  }

  /** A fold that succeeds yields, for each surviving id in order, its merged entry. */
  lemma {:induction false} EntriesMerge(
    order: seq<string>, base: seq<Json>, ours: seq<Json>, theirs: seq<Json>, key: string)
    requires Indexable(base, key) && Indexable(ours, key) && Indexable(theirs, key)
    requires Distinct(order)
    requires MergeEntries(order, base, ours, theirs, key).Some?
    ensures var merged := MergeEntries(order, base, ours, theirs, key).value;
            && Indexable(merged, key)
            && Ids(merged, key) == Surviving(order, base, ours, theirs, key)
            && (forall id | id in Ids(merged, key) :: id in order)
            && forall id | id in order :: Value(Lookup(merged, key, id)) == MergedEntry(base, ours, theirs, key, id)
  {
    if order != [] {
      var init, last := order[..|order| - 1], order[|order| - 1];
      assert order == init + [last];
      EntriesMerge(init, base, ours, theirs, key);
      var before := MergeEntries(init, base, ours, theirs, key).value;
      var merged := MergeEntries(order, base, ours, theirs, key).value;
      var entry := MergedEntry(base, ours, theirs, key, last);
      LookupPresent(before, key, last);
      if entry.value.None? {
        assert merged == before;
      } else {
        MergedEntryId(base, ours, theirs, key, last);
        assert merged == before + [entry.value.value];
        assert Ids(merged, key) == Ids(before, key) + [last];
        forall id | id in order
          ensures Value(Lookup(merged, key, id)) == MergedEntry(base, ours, theirs, key, id)
        {
          LookupAppend(before, entry.value.value, key, id);
        }
      }
    }
  }

  lemma MergedEntryId(base: seq<Json>, ours: seq<Json>, theirs: seq<Json>, key: string, id: string)
    requires Indexable(base, key) && Indexable(ours, key) && Indexable(theirs, key)
    requires MergedEntry(base, ours, theirs, key, id).Value?
    requires MergedEntry(base, ours, theirs, key, id).value.Some?
    ensures IdOf(MergedEntry(base, ours, theirs, key, id).value.value, key) == Some(id)
  {
    LookupPresent(ours, key, id);
    LookupPresent(theirs, key, id);
  }

  lemma {:induction false} LookupAppend(items: seq<Json>, entry: Json, key: string, id: string)
    ensures Lookup(items + [entry], key, id) ==
            if Lookup(items, key, id).Some? then Lookup(items, key, id)
            else if IdOf(entry, key) == Some(id) then Some(entry) else None
  {
    if items != [] {
      assert (items + [entry])[1..] == items[1..] + [entry];
      LookupAppend(items[1..], entry, key, id);
    }
  }

  /** Everything the list merge yields, in one place. */
  lemma MergedListFacts(base: Side, ours: Side, theirs: Side, key: string)
    requires AllListShaped(base, ours, theirs, key)
    ensures var order := MergeOrder(Ids(Items(base), key), Ids(Items(ours), key), Ids(Items(theirs), key));
            && Distinct(order)
            && (MergeList(base, ours, theirs, key).Conflict?
                <==> exists id :: id in order
                               && MergedEntry(Items(base), Items(ours), Items(theirs), key, id).Conflict?)
    ensures MergeList(base, ours, theirs, key).Value? ==>
              var merged := MergeList(base, ours, theirs, key).value;
              var order := MergeOrder(Ids(Items(base), key), Ids(Items(ours), key), Ids(Items(theirs), key));
              && merged.Some? && ListShaped(merged, key) && merged.value.Arr?
              && Ids(Items(merged), key) == Surviving(order, Items(base), Items(ours), Items(theirs), key)
              && forall id :: Value(Lookup(Items(merged), key, id))
                              == MergedEntry(Items(base), Items(ours), Items(theirs), key, id)
  {
    var b, o, t := Items(base), Items(ours), Items(theirs);
    var order := MergeOrder(Ids(b, key), Ids(o, key), Ids(t, key));
    MergeOrderDistinct(Ids(b, key), Ids(o, key), Ids(t, key));
    EntriesConflict(order, b, o, t, key);
    if MergeList(base, ours, theirs, key).Value? {
      EntriesMerge(order, b, o, t, key);
      var merged := MergeList(base, ours, theirs, key).value;
      forall id
        ensures Value(Lookup(Items(merged), key, id)) == MergedEntry(b, o, t, key, id)
      {
        LookupPresent(b, key, id);
        LookupPresent(o, key, id);
        LookupPresent(t, key, id);
        LookupPresent(Items(merged), key, id);
      }
    }
  }

  /** Field by field, what a record merge yields. */
  lemma MergedRecordFacts(fields: map<string, MergeSpec>, base: Side, ours: Side, theirs: Side)
    requires AllRecordShaped(base, ours, theirs)
    requires MergeRecord(fields, base, ours, theirs).Value?
    ensures var merged := MergeRecord(fields, base, ours, theirs).value;
            && merged.Some? && merged.value.Obj?
            && FieldNames(merged) <= AllFieldNames(base, ours, theirs)
            && forall name | name in AllFieldNames(base, ours, theirs) ::
                 MergeField(fields, name, base, ours, theirs) == Value(Field(merged, name))
  {
    var names := AllFieldNames(base, ours, theirs);
    var result := MergedFields(fields, names, base, ours, theirs);
    assert MergeRecord(fields, base, ours, theirs).value == Some(Obj(result));
  }

  // ---------------------------------------------------------------------------
  // When the merge conflicts
  // ---------------------------------------------------------------------------

  lemma ListConflictHasClash(base: Side, ours: Side, theirs: Side, key: string) returns (id: string)
    requires AllListShaped(base, ours, theirs, key)
    requires MergeList(base, ours, theirs, key).Conflict?
    ensures ClashAt(base, ours, theirs, Entry(key, id))
  {
    MergedListFacts(base, ours, theirs, key);
    id :| MergedEntry(Items(base), Items(ours), Items(theirs), key, id).Conflict?;
    EntryClash(base, ours, theirs, key, id);
  }

  lemma EntryClash(base: Side, ours: Side, theirs: Side, key: string, id: string)
    ensures MergedEntry(Items(base), Items(ours), Items(theirs), key, id).Conflict?
       <==> ClashAt(base, ours, theirs, Entry(key, id))
  {
  }

  /** A refused merge names a unit that both sides changed, and differently. */
  lemma {:induction false} ConflictHasClash(spec: MergeSpec, base: Side, ours: Side, theirs: Side)
    returns (unit: Unit)
    requires MergeWith(spec, base, ours, theirs).Conflict?
    ensures IsUnit(spec, base, ours, theirs, unit) && ClashAt(base, ours, theirs, unit)
    decreases spec
  {
    unit := Whole;
    match spec
    case Atomic =>
    case List(key) =>
      if AllListShaped(base, ours, theirs, key) {
        var id := ListConflictHasClash(base, ours, theirs, key);
        unit := Entry(key, id);
      }
    case Record(fields) =>
      if AllRecordShaped(base, ours, theirs) {
        var name :| name in AllFieldNames(base, ours, theirs)
                 && MergeField(fields, name, base, ours, theirs).Conflict?;
        if name in fields {
          var inner := ConflictHasClash(fields[name], Field(base, name), Field(ours, name), Field(theirs, name));
          unit := Under(name, inner);
          assert ClashAt(base, ours, theirs, unit);
        } else {
          unit := Under(name, Whole);
          assert ClashAt(Field(base, name), Field(ours, name), Field(theirs, name), Whole);
        }
      }
  }

  /** A unit that both sides changed differently is never merged over. */
  lemma {:induction false} ClashConflicts(spec: MergeSpec, base: Side, ours: Side, theirs: Side, unit: Unit)
    requires IsUnit(spec, base, ours, theirs, unit) && ClashAt(base, ours, theirs, unit)
    ensures MergeWith(spec, base, ours, theirs).Conflict?
    decreases unit
  {
    match spec
    case Atomic =>
    case List(key) =>
      if AllListShaped(base, ours, theirs, key) {
        MergedListFacts(base, ours, theirs, key);
        LookupPresent(Items(base), key, unit.id);
        LookupPresent(Items(ours), key, unit.id);
        LookupPresent(Items(theirs), key, unit.id);
        assert MergedEntry(Items(base), Items(ours), Items(theirs), key, unit.id).Conflict?;
      }
    case Record(fields) =>
      if AllRecordShaped(base, ours, theirs) {
        var name := unit.field;
        ClashConflicts(SubSpec(fields, name), Field(base, name), Field(ours, name), Field(theirs, name), unit.inner);
        assert MergeField(fields, name, base, ours, theirs).Conflict?;
        assert name in AllFieldNames(base, ours, theirs);
      }
  }

  /** The merge refuses exactly the edits in which some unit differs pairwise on all three sides. */
  lemma ConflictIffClash(spec: MergeSpec, base: Side, ours: Side, theirs: Side)
    ensures MergeWith(spec, base, ours, theirs).Conflict?
       <==> exists unit :: IsUnit(spec, base, ours, theirs, unit) && ClashAt(base, ours, theirs, unit)
  {
    if MergeWith(spec, base, ours, theirs).Conflict? {
      var unit := ConflictHasClash(spec, base, ours, theirs);
    }
    forall unit | IsUnit(spec, base, ours, theirs, unit) && ClashAt(base, ours, theirs, unit)
      ensures MergeWith(spec, base, ours, theirs).Conflict?
    {
      ClashConflicts(spec, base, ours, theirs, unit);
    }
  }

  // ---------------------------------------------------------------------------
  // What an accepted merge holds
  // ---------------------------------------------------------------------------

  /** Each unit of the result is our change, their change, or what nobody changed. */
  lemma {:induction false} CarriesBothSides(
    spec: MergeSpec, base: Side, ours: Side, theirs: Side, unit: Unit)
    requires MergeWith(spec, base, ours, theirs).Value?
    requires IsUnit(spec, base, ours, theirs, unit)
    ensures var merged := At(MergeWith(spec, base, ours, theirs).value, unit);
            && (At(ours, unit) != At(base, unit) ==> merged == At(ours, unit))
            && (At(theirs, unit) != At(base, unit) ==> merged == At(theirs, unit))
            && (At(ours, unit) == At(base, unit) == At(theirs, unit) ==> merged == At(base, unit))
    decreases unit
  {
    match spec
    case Atomic =>
    case List(key) =>
      if AllListShaped(base, ours, theirs, key) {
        MergedListFacts(base, ours, theirs, key);
        var merged := MergeList(base, ours, theirs, key).value;
        assert Value(Lookup(Items(merged), key, unit.id))
            == MergedEntry(Items(base), Items(ours), Items(theirs), key, unit.id);
      }
    case Record(fields) =>
      if AllRecordShaped(base, ours, theirs) {
        var name := unit.field;
        MergedRecordFacts(fields, base, ours, theirs);
        if name in AllFieldNames(base, ours, theirs) {
          CarriesBothSides(SubSpec(fields, name), Field(base, name), Field(ours, name), Field(theirs, name), unit.inner);
        }
      }
  }

  /** A list in a record stays a list, an empty one when every entry is gone. */
  lemma ListFieldsStay(fields: map<string, MergeSpec>, base: Side, ours: Side, theirs: Side, name: string)
    requires AllRecordShaped(base, ours, theirs) && MergeRecord(fields, base, ours, theirs).Value?
    requires name in fields && fields[name].List?
    requires AllListShaped(Field(base, name), Field(ours, name), Field(theirs, name), fields[name].key)
    requires Field(base, name).Some? || Field(ours, name).Some? || Field(theirs, name).Some?
    ensures var merged := Field(MergeRecord(fields, base, ours, theirs).value, name); merged.Some? && merged.value.Arr?
  {
    MergedRecordFacts(fields, base, ours, theirs);
    assert name in AllFieldNames(base, ours, theirs);
    assert MergeField(fields, name, base, ours, theirs)
        == MergeList(Field(base, name), Field(ours, name), Field(theirs, name), fields[name].key);
    MergedListFacts(Field(base, name), Field(ours, name), Field(theirs, name), fields[name].key);
  }

  /** A merge changes only what its author read: where it departs from theirs, theirs is the base. */
  lemma MergeNeverOverwritesBlindly(spec: MergeSpec, base: Side, ours: Side, theirs: Side, unit: Unit)
    requires MergeWith(spec, base, ours, theirs).Value?
    requires IsUnit(spec, base, ours, theirs, unit)
    ensures At(MergeWith(spec, base, ours, theirs).value, unit) != At(theirs, unit)
            ==> At(theirs, unit) == At(base, unit)
  {
    CarriesBothSides(spec, base, ours, theirs, unit);
  }

  /** A value whose lists, at every depth the spec reaches, have one entry per id. */
  predicate WellIndexed(spec: MergeSpec, side: Side)
    decreases spec
  {
    match spec
    case Atomic => true
    case List(key) => ListShaped(side, key)
    case Record(fields) =>
      RecordShaped(side) && forall name | name in fields :: WellIndexed(fields[name], Field(side, name))
  }

  /** Merging values with distinct ids gives a value with distinct ids, nested lists included. */
  lemma {:induction false} MergeKeepsIdsDistinct(spec: MergeSpec, base: Side, ours: Side, theirs: Side)
    requires WellIndexed(spec, base) && WellIndexed(spec, ours) && WellIndexed(spec, theirs)
    requires MergeWith(spec, base, ours, theirs).Value?
    ensures WellIndexed(spec, MergeWith(spec, base, ours, theirs).value)
    decreases spec
  {
    match spec
    case Atomic =>
    case List(key) => MergedListFacts(base, ours, theirs, key);
    case Record(fields) =>
      MergedRecordFacts(fields, base, ours, theirs);
      var merged := MergeRecord(fields, base, ours, theirs).value;
      forall name | name in fields
        ensures WellIndexed(fields[name], Field(merged, name))
      {
        if name in AllFieldNames(base, ours, theirs) {
          MergeKeepsIdsDistinct(fields[name], Field(base, name), Field(ours, name), Field(theirs, name));
        }
      }
  }

  /** The ids of `ids` that `kept` holds, in the order of `ids`. */
  function KeepIn(ids: seq<string>, kept: set<string>): seq<string> {
    if ids == [] then []
    else
      var rest := KeepIn(ids[..|ids| - 1], kept);
      if ids[|ids| - 1] in kept then rest + [ids[|ids| - 1]] else rest
  }

  lemma WhoSurvives(base: Side, ours: Side, theirs: Side, key: string, id: string)
    requires AllListShaped(base, ours, theirs, key)
    requires MergeList(base, ours, theirs, key).Value?
    ensures var merged := Items(MergeList(base, ours, theirs, key).value);
            var entry := MergedEntry(Items(base), Items(ours), Items(theirs), key, id);
            && Indexable(merged, key) && (id in Ids(merged, key) <==> entry != Value(None))
            && (id !in Ids(Items(ours), key) && id !in Ids(Items(theirs), key) ==> entry == Value(None))
  {
    MergedListFacts(base, ours, theirs, key);
    LookupPresent(Items(MergeList(base, ours, theirs, key).value), key, id);
    LookupPresent(Items(ours), key, id);
    LookupPresent(Items(theirs), key, id);
  }

  /** The surviving entries: theirs first in their order, then the ones only we have in our order. */
  lemma MergedListOrder(base: Side, ours: Side, theirs: Side, key: string)
    requires AllListShaped(base, ours, theirs, key)
    requires MergeList(base, ours, theirs, key).Value?
    ensures var merged := Items(MergeList(base, ours, theirs, key).value);
            && Indexable(merged, key)
            && var kept := set id | id in Ids(merged, key);
               var ourIds, theirIds := Ids(Items(ours), key), Ids(Items(theirs), key);
               Ids(merged, key) == KeepIn(theirIds, kept) + KeepIn(Without(ourIds, theirIds), kept)
  {
    MergedListFacts(base, ours, theirs, key);
    var b, o, t := Items(base), Items(ours), Items(theirs);
    var bIds, oIds, tIds := Ids(b, key), Ids(o, key), Ids(t, key);
    var merged := Items(MergeList(base, ours, theirs, key).value);
    var kept := set id | id in Ids(merged, key);
    var added := Without(oIds, tIds);
    var dropped := Without(bIds, tIds + added);
    SurvivingConcat(tIds + added, dropped, b, o, t, key);
    SurvivingConcat(tIds, added, b, o, t, key);
    forall id
      ensures id in kept <==> MergedEntry(b, o, t, key, id) != Value(None)
      ensures id in dropped ==> MergedEntry(b, o, t, key, id) == Value(None)
    {
      WhoSurvives(base, ours, theirs, key, id);
    }
    SurvivingNone(dropped, b, o, t, key);
    SurvivingKeeps(tIds, b, o, t, key, kept);
    SurvivingKeeps(added, b, o, t, key, kept);
  }

  lemma {:induction false} SurvivingConcat(
    left: seq<string>, right: seq<string>, base: seq<Json>, ours: seq<Json>, theirs: seq<Json>, key: string)
    ensures Surviving(left + right, base, ours, theirs, key)
         == Surviving(left, base, ours, theirs, key) + Surviving(right, base, ours, theirs, key)
  {
    if right == [] {
      assert left + right == left;
    } else {
      var init := right[..|right| - 1];
      assert (left + right)[..|left + right| - 1] == left + init;
      SurvivingConcat(left, init, base, ours, theirs, key);
    }
  }

  lemma {:induction false} SurvivingNone(
    order: seq<string>, base: seq<Json>, ours: seq<Json>, theirs: seq<Json>, key: string)
    requires forall id | id in order :: MergedEntry(base, ours, theirs, key, id) == Value(None)
    ensures Surviving(order, base, ours, theirs, key) == []
  {
    if order != [] {
      SurvivingNone(order[..|order| - 1], base, ours, theirs, key);
    }
  }

  lemma {:induction false} SurvivingKeeps(
    order: seq<string>, base: seq<Json>, ours: seq<Json>, theirs: seq<Json>, key: string, kept: set<string>)
    requires forall id | id in order :: id in kept <==> MergedEntry(base, ours, theirs, key, id) != Value(None)
    ensures Surviving(order, base, ours, theirs, key) == KeepIn(order, kept)
  {
    if order != [] {
      SurvivingKeeps(order[..|order| - 1], base, ours, theirs, key, kept);
    }
  }

  // ---------------------------------------------------------------------------
  // Symmetry and re-merging
  // ---------------------------------------------------------------------------

  lemma {:induction false} UnitsSymmetric(spec: MergeSpec, base: Side, ours: Side, theirs: Side, unit: Unit)
    ensures IsUnit(spec, base, ours, theirs, unit) == IsUnit(spec, base, theirs, ours, unit)
    decreases unit
  {
    if spec.Record? && AllRecordShaped(base, ours, theirs) && unit.Under? {
      var name := unit.field;
      UnitsSymmetric(SubSpec(spec.fields, name), Field(base, name), Field(ours, name), Field(theirs, name), unit.inner);
    }
  }

  /** Who saves first does not matter: the same edits conflict, and each unit ends up the same. */
  lemma MergeSymmetric(spec: MergeSpec, base: Side, ours: Side, theirs: Side)
    ensures MergeWith(spec, base, ours, theirs).Conflict? == MergeWith(spec, base, theirs, ours).Conflict?
    ensures MergeWith(spec, base, ours, theirs).Value? ==>
              forall unit | IsUnit(spec, base, ours, theirs, unit) ::
                At(MergeWith(spec, base, ours, theirs).value, unit)
                == At(MergeWith(spec, base, theirs, ours).value, unit)
  {
    if MergeWith(spec, base, ours, theirs).Conflict? {
      var unit := ConflictHasClash(spec, base, ours, theirs);
      UnitsSymmetric(spec, base, ours, theirs, unit);
      ClashConflicts(spec, base, theirs, ours, unit);
    } else if MergeWith(spec, base, theirs, ours).Conflict? {
      var unit := ConflictHasClash(spec, base, theirs, ours);
      UnitsSymmetric(spec, base, theirs, ours, unit);
      ClashConflicts(spec, base, ours, theirs, unit);
    } else {
      forall unit | IsUnit(spec, base, ours, theirs, unit)
        ensures At(MergeWith(spec, base, ours, theirs).value, unit)
             == At(MergeWith(spec, base, theirs, ours).value, unit)
      {
        UnitsSymmetric(spec, base, ours, theirs, unit);
        CarriesBothSides(spec, base, ours, theirs, unit);
        CarriesBothSides(spec, base, theirs, ours, unit);
      }
    }
  }

  /** Merging the same edit once more into the result changes nothing, order included. */
  lemma {:induction false} RemergeIsIdempotent(spec: MergeSpec, base: Side, ours: Side, theirs: Side)
    requires MergeWith(spec, base, ours, theirs).Value?
    ensures var merged := MergeWith(spec, base, ours, theirs).value;
            MergeWith(spec, base, ours, merged) == Value(merged)
    decreases spec
  {
    var merged := MergeWith(spec, base, ours, theirs).value;
    match spec
    case Atomic =>
    case List(key) =>
      if AllListShaped(base, ours, theirs, key) {
        RemergeList(base, ours, theirs, key);
      }
    case Record(fields) =>
      if AllRecordShaped(base, ours, theirs) {
        MergedRecordFacts(fields, base, ours, theirs);
        forall name | name in AllFieldNames(base, ours, merged)
          ensures MergeField(fields, name, base, ours, merged) == Value(Field(merged, name))
        {
          if name in fields {
            RemergeIsIdempotent(fields[name], Field(base, name), Field(ours, name), Field(theirs, name));
          }
        }
        RemergedRecord(fields, base, ours, merged);
      }
  }

  /** A record each of whose fields merges into itself does. */
  lemma RemergedRecord(fields: map<string, MergeSpec>, base: Side, ours: Side, merged: Side)
    requires AllRecordShaped(base, ours, merged) && merged.Some?
    requires FieldNames(merged) <= AllFieldNames(base, ours, merged)
    requires forall name | name in AllFieldNames(base, ours, merged) ::
               MergeField(fields, name, base, ours, merged) == Value(Field(merged, name))
    ensures MergeRecord(fields, base, ours, merged) == Value(merged)
  {
    MergedRecordFacts(fields, base, ours, merged);
    SameFields(MergeRecord(fields, base, ours, merged).value, merged);
  }

  lemma SameFields(left: Side, right: Side)
    requires left.Some? && left.value.Obj? && right.Some? && right.value.Obj?
    requires forall name :: Field(left, name) == Field(right, name)
    ensures left == right
  {
    var l, r := left.value.fields, right.value.fields;
    forall name
      ensures name in l <==> name in r
      ensures name in l ==> l[name] == r[name]
    {
      assert Field(left, name) == Field(right, name);
    }
    assert l == r;
  }

  /** Once merged in, an entry stays: merging ours into the result gives the result's own entry. */
  lemma RemergedEntry(base: seq<Json>, ours: seq<Json>, theirs: seq<Json>, merged: seq<Json>, key: string, id: string)
    requires Value(Lookup(merged, key, id)) == MergedEntry(base, ours, theirs, key, id)
    ensures MergedEntry(base, ours, merged, key, id) == Value(Lookup(merged, key, id))
  {
  }

  /** The ids that survive a merge into a list that already holds it are that list's, in its order. */
  lemma RemergedOrder(base: seq<Json>, ours: seq<Json>, merged: seq<Json>, key: string)
    requires Indexable(base, key) && Indexable(ours, key) && Indexable(merged, key)
    requires forall id :: MergedEntry(base, ours, merged, key, id) == Value(Lookup(merged, key, id))
    ensures Surviving(MergeOrder(Ids(base, key), Ids(ours, key), Ids(merged, key)), base, ours, merged, key)
         == Ids(merged, key)
  {
    var mIds := Ids(merged, key);
    var added := Without(Ids(ours, key), mIds);
    var dropped := Without(Ids(base, key), mIds + added);
    SurvivingConcat(mIds + added, dropped, base, ours, merged, key);
    SurvivingConcat(mIds, added, base, ours, merged, key);
    forall id | id in added || id in dropped
      ensures MergedEntry(base, ours, merged, key, id) == Value(None)
    {
      LookupPresent(merged, key, id);
    }
    SurvivingNone(added, base, ours, merged, key);
    SurvivingNone(dropped, base, ours, merged, key);
    forall i | 0 <= i < |mIds|
      ensures MergedEntry(base, ours, merged, key, mIds[i]).value.Some?
    {
      LookupPresent(merged, key, mIds[i]);
    }
    SurvivingAll(mIds, base, ours, merged, key);
  }

  lemma RemergedEntries(base: Side, ours: Side, theirs: Side, key: string)
    requires AllListShaped(base, ours, theirs, key)
    requires MergeList(base, ours, theirs, key).Value?
    ensures var merged := MergeList(base, ours, theirs, key).value;
            && merged.Some? && merged.value.Arr? && ListShaped(merged, key)
            && forall id :: MergedEntry(Items(base), Items(ours), Items(merged), key, id)
                            == Value(Lookup(Items(merged), key, id))
  {
    MergedListFacts(base, ours, theirs, key);
    var merged := MergeList(base, ours, theirs, key).value;
    forall id
      ensures MergedEntry(Items(base), Items(ours), Items(merged), key, id) == Value(Lookup(Items(merged), key, id))
    {
      RemergedEntry(Items(base), Items(ours), Items(theirs), Items(merged), key, id);
    }
  }

  lemma RemergeList(base: Side, ours: Side, theirs: Side, key: string)
    requires AllListShaped(base, ours, theirs, key)
    requires MergeList(base, ours, theirs, key).Value?
    ensures var merged := MergeList(base, ours, theirs, key).value;
            MergeList(base, ours, merged, key) == Value(merged)
  {
    RemergedEntries(base, ours, theirs, key);
    MergedIntoItself(base, ours, MergeList(base, ours, theirs, key).value, key);
  }

  lemma MergedIntoItself(base: Side, ours: Side, merged: Side, key: string)
    requires AllListShaped(base, ours, merged, key) && merged.Some?
    requires forall id :: MergedEntry(Items(base), Items(ours), Items(merged), key, id) == Value(Lookup(Items(merged), key, id))
    ensures MergeList(base, ours, merged, key) == Value(merged)
  {
    MergedListFacts(base, ours, merged, key);
    RemergedOrder(Items(base), Items(ours), Items(merged), key);
    SameEntries(Items(MergeList(base, ours, merged, key).value), Items(merged), key);
  }

  lemma {:induction false} SurvivingAll(
    order: seq<string>, base: seq<Json>, ours: seq<Json>, theirs: seq<Json>, key: string)
    requires forall i | 0 <= i < |order| :: MergedEntry(base, ours, theirs, key, order[i]) != Value(None)
    ensures Surviving(order, base, ours, theirs, key) == order
  {
    if order != [] {
      SurvivingAll(order[..|order| - 1], base, ours, theirs, key);
    }
  }

  /** A list is determined by its ids in order and what each id stands for. */
  lemma SameEntries(left: seq<Json>, right: seq<Json>, key: string)
    requires Indexable(left, key) && Indexable(right, key)
    requires Ids(left, key) == Ids(right, key)
    requires forall id :: Lookup(left, key, id) == Lookup(right, key, id)
    ensures left == right
  {
    forall i | 0 <= i < |left|
      ensures left[i] == right[i]
    {
      LookupFinds(left, key, i);
      LookupFinds(right, key, i);
    }
  }
}
