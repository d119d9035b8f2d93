/**
 * Three-way merge of a config file for concurrent edits (`backend/src/configMerge.ts`).
 *
 * These functions say what the merge is. `ConfigMergeLoops` has the loops that compute them, and
 * `ConfigMergeProofs` what an editor may rely on.
 */
module ConfigMerge {
  import opened Wrappers

  /**
   * A JSON value. A number is kept as its canonical text, which is both what the source compares
   * and what it uses as an id; an object is a map, because the source ignores key order and reads
   * a field whose value is `undefined` as absent.
   */
  datatype Json =
    | Null
    | Bool(b: bool)
    | Num(text: string)
    | Str(s: string)
    | Arr(items: seq<Json>)
    | Obj(fields: map<string, Json>)

  /** A side of the merge: a value, or absent. */
  type Side = Option<Json>

  datatype MergeSpec =
    | Atomic
    | List(key: string)
    | Record(fields: map<string, MergeSpec>)

  datatype Merged = Conflict | Value(value: Side)

  datatype ConfigFile = Fleet | Vehicles | Formations | Scenes | Rules | Codebook | Notify | Reports

  /** How each file splits into independently mergeable units; `fleet.json` has no entry. */
  function MergeSpecs(file: ConfigFile): Option<MergeSpec> {
    match file
    case Fleet => None
    case Vehicles => Some(List("deviceId"))
    case Formations => Some(List("formationId"))
    case Scenes => Some(List("sceneId"))
    case Codebook => Some(List("code"))
    case Notify => Some(Record(map["channels" := List("id"), "groups" := Record(map[])]))
    case Reports => Some(Record(map["schedules" := List("id")]))
    case Rules => Some(Record(map[]))
  }

  // ---------------------------------------------------------------------------
  // Reading a side
  // ---------------------------------------------------------------------------

  function Field(side: Side, name: string): Side {
    if side.Some? && side.value.Obj? && name in side.value.fields
    then Some(side.value.fields[name]) else None
  }

  function FieldNames(side: Side): set<string> {
    if side.Some? && side.value.Obj? then side.value.fields.Keys else {}
  }

  function Items(side: Side): seq<Json> {
    if side.Some? && side.value.Arr? then side.value.items else []
  }

  /** An entry's id: the text of a string or number under `key`; anything else has none. */
  function IdOf(entry: Json, key: string): Option<string> {
    match Field(Some(entry), key)
    case Some(Str(s)) => Some(s)
    case Some(Num(text)) => Some(text)
    case _ => None
  }

  /** Every entry has an id and no id repeats, so entries can be matched across sides. */
  predicate Indexable(items: seq<Json>, key: string) {
    && (forall i | 0 <= i < |items| :: IdOf(items[i], key).Some?)
    && (forall i, j | 0 <= i < j < |items| :: IdOf(items[i], key) != IdOf(items[j], key))
  }

  function Ids(items: seq<Json>, key: string): (ids: seq<string>)
    requires Indexable(items, key)
    ensures |ids| == |items|
    ensures forall i | 0 <= i < |ids| :: IdOf(items[i], key) == Some(ids[i])
    ensures forall i, j | 0 <= i < j < |ids| :: ids[i] != ids[j]
  {
    seq(|items|, i requires 0 <= i < |items| => IdOf(items[i], key).value)
  }

  /** The entry that carries `id`, or absent. */
  function Lookup(items: seq<Json>, key: string, id: string): Side {
    if items == [] then None
    else if IdOf(items[0], key) == Some(id) then Some(items[0])
    else Lookup(items[1..], key, id)
  }

  predicate ListShaped(side: Side, key: string) {
    side.None? || (side.value.Arr? && Indexable(side.value.items, key))
  }

  predicate RecordShaped(side: Side) {
    side.None? || side.value.Obj?
  }

  predicate AllListShaped(base: Side, ours: Side, theirs: Side, key: string) {
    ListShaped(base, key) && ListShaped(ours, key) && ListShaped(theirs, key)
  }

  predicate AllRecordShaped(base: Side, ours: Side, theirs: Side) {
    RecordShaped(base) && RecordShaped(ours) && RecordShaped(theirs)
  }

  // ---------------------------------------------------------------------------
  // The merge
  // ---------------------------------------------------------------------------

  function MergeAtomic(base: Side, ours: Side, theirs: Side): Merged {
    if ours == base then Value(theirs)
    else if theirs == base then Value(ours)
    else if ours == theirs then Value(ours)
    else Conflict
  }

  function Without(ids: seq<string>, known: seq<string>): (kept: seq<string>)
    ensures forall id :: id in kept <==> id in ids && id !in known
  {
    if ids == [] then []
    else
      var last := ids[|ids| - 1];
      var rest := Without(ids[..|ids| - 1], known);
      if last in known then rest else rest + [last]
  }

  /** Their entries in their order, then the ones only we have, then the ones only the base has. */
  function MergeOrder(base: seq<string>, ours: seq<string>, theirs: seq<string>): (order: seq<string>)
    ensures forall id :: id in order <==> id in base || id in ours || id in theirs
  {
    var known := theirs + Without(ours, theirs);
    known + Without(base, known)
  }

  /** The merged entries of `order`, or None when one of them conflicts. */
  function MergeEntries(order: seq<string>, base: seq<Json>, ours: seq<Json>, theirs: seq<Json>, key: string)
    : Option<seq<Json>>
  {
    if order == [] then Some([])
    else
      var id := order[|order| - 1];
      var entry := MergeAtomic(Lookup(base, key, id), Lookup(ours, key, id), Lookup(theirs, key, id));
      match MergeEntries(order[..|order| - 1], base, ours, theirs, key)
      case None => None
      case Some(merged) =>
        if entry.Conflict? then None
        else if entry.value.None? then Some(merged)
        else Some(merged + [entry.value.value])
  }

  function MergeList(base: Side, ours: Side, theirs: Side, key: string): Merged {
    if !AllListShaped(base, ours, theirs, key) then MergeAtomic(base, ours, theirs)
    else
      var b, o, t := Items(base), Items(ours), Items(theirs);
      match MergeEntries(MergeOrder(Ids(b, key), Ids(o, key), Ids(t, key)), b, o, t, key)
      case None => Conflict
      case Some(merged) => Value(Some(Arr(merged)))
  }

  function SubSpec(fields: map<string, MergeSpec>, name: string): MergeSpec {
    if name in fields then fields[name] else Atomic
  }

  function MergeField(fields: map<string, MergeSpec>, name: string, base: Side, ours: Side, theirs: Side): Merged
    decreases Record(fields), 0
  {
    var b, o, t := Field(base, name), Field(ours, name), Field(theirs, name);
    if name in fields then MergeWith(fields[name], b, o, t) else MergeAtomic(b, o, t)
  }

  function AllFieldNames(base: Side, ours: Side, theirs: Side): set<string> {
    FieldNames(theirs) + FieldNames(ours) + FieldNames(base)
  }

  /** The merged value of each of `names`, fields that end up absent left out. */
  function MergedFields(fields: map<string, MergeSpec>, names: set<string>, base: Side, ours: Side, theirs: Side)
    : map<string, Json>
    requires forall name | name in names :: MergeField(fields, name, base, ours, theirs).Value?
    decreases Record(fields), 1
  {
    map name | name in names && MergeField(fields, name, base, ours, theirs).value.Some?
      :: MergeField(fields, name, base, ours, theirs).value.value
  }

  function MergeRecord(fields: map<string, MergeSpec>, base: Side, ours: Side, theirs: Side): Merged
    decreases Record(fields), 2
  {
    if !AllRecordShaped(base, ours, theirs) then MergeAtomic(base, ours, theirs)
    else
      var names := AllFieldNames(base, ours, theirs);
      if exists name | name in names :: MergeField(fields, name, base, ours, theirs).Conflict? then Conflict
      else Value(Some(Obj(MergedFields(fields, names, base, ours, theirs))))
  }

  function MergeWith(spec: MergeSpec, base: Side, ours: Side, theirs: Side): Merged
    decreases spec, 3
  {
    match spec
    case Atomic => MergeAtomic(base, ours, theirs)
    case List(key) => MergeList(base, ours, theirs, key)
    case Record(fields) => MergeRecord(fields, base, ours, theirs)
  }
}
