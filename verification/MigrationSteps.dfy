/**
 * The migration runner (`backend/src/migrations/runner.ts`) and the shipped list (`backend/src/migrations/index.ts`).
 *
 * A run may be cut short anywhere: the process dies, or an `up` throws. There is no transaction over
 * an `up` and its marker, so what a cut leaves behind is part of the step.
 */
module MigrationSteps {
  datatype Value = Null | Text(text: string) | Number(number: int) | Flag(flag: bool)

  type Row = map<string, Value>

  /** The collections of the database, apart from the markers. */
  type Data = map<string, seq<Row>>

  /** `leaves(d, x)`: an `up` that started on `d` and did not finish may leave `x`. */
  datatype Migration = Migration(version: int, up: Data -> Data, leaves: (Data, Data) -> bool)

  /** `markers` lists the recorded versions in the order they were first recorded. */
  datatype Db = Db(data: Data, markers: seq<nat>)

  const CORE_COLLECTIONS := ["device_latest", "alerts", "users"]

  predicate LooksPreexisting(data: Data) {
    exists name <- CORE_COLLECTIONS :: name in data
  }

  predicate WellFormed(list: seq<Migration>) {
    forall i | 0 <= i < |list| :: list[i].version == i + 1
  }

  function CurrentVersion(markers: seq<nat>): nat {
    if markers == [] then 0
    else
      var rest := CurrentVersion(markers[..|markers| - 1]);
      if markers[|markers| - 1] > rest then markers[|markers| - 1] else rest
  }

  function Record(db: Db, version: nat): Db {
    if version in db.markers then db else db.(markers := db.markers + [version])
  }

  /** Only a database without markers is baselined. */
  predicate Baselines(db: Db, list: seq<Migration>) {
    CurrentVersion(db.markers) == 0 && LooksPreexisting(db.data) && list != []
  }

  function StartVersion(db: Db, list: seq<Migration>): nat {
    if Baselines(db, list) then 1 else CurrentVersion(db.markers)
  }

  function Started(db: Db, list: seq<Migration>): Db {
    if Baselines(db, list) then Record(db, 1) else db
  }

  /** The migrations past a version, in order. */
  function Past(list: seq<Migration>, version: int): seq<Migration> {
    if list == [] then []
    else
      var front := Past(list[..|list| - 1], version);
      if list[|list| - 1].version > version then front + [list[|list| - 1]] else front
  }

  /** The first `done` pending migrations carried out, markers included. */
  function Advance(db: Db, pending: seq<Migration>, done: nat): Db
    requires done <= |pending|
    requires forall i | 0 <= i < |pending| :: pending[i].version >= 0
  {
    if done == 0 then db
    else
      var before := Advance(db, pending, done - 1);
      Record(before.(data := pending[done - 1].up(before.data)), pending[done - 1].version)
  }

  /** How a run ends: whole, before its first write, between two migrations, inside an `up`, or between an `up` and its marker. */
  datatype Cut = Whole | AtOnce | Before(done: nat) | During(done: nat, left: Data) | After(done: nat)

  datatype Outcome = Finished(version: nat) | Refused | Malformed | Interrupted

  predicate Possible(db: Db, list: seq<Migration>, cut: Cut) {
    WellFormed(list) && StartVersion(db, list) <= |list| ==>
      var pending := Past(list, StartVersion(db, list));
      PastVersions(list, StartVersion(db, list));
      match cut
      case Before(done) => done <= |pending|
      case During(done, left) =>
        done < |pending| && pending[done].leaves(Advance(Started(db, list), pending, done).data, left)
      case After(done) => done < |pending|
      case _ => true
  }

  lemma {:induction false} PastVersions(list: seq<Migration>, version: nat)
    ensures forall i | 0 <= i < |Past(list, version)| :: Past(list, version)[i].version > version
  {
    if list != [] { PastVersions(list[..|list| - 1], version); }
  }

  function RunMigrations(db: Db, list: seq<Migration>, cut: Cut): (r: (Db, Outcome))
    requires Possible(db, list, cut)
  {
    if !WellFormed(list) then (db, Malformed)
    else if cut == AtOnce then (db, Interrupted)
    else
      var version := StartVersion(db, list);
      var started := Started(db, list);
      if version > |list| then (started, Refused)
      else
        var pending := Past(list, version);
        PastVersions(list, version);
        if cut.Before? then (Advance(started, pending, cut.done), Interrupted)
        else if cut.During? then (Advance(started, pending, cut.done).(data := cut.left), Interrupted)
        else if cut.After? then
          var before := Advance(started, pending, cut.done);
          (before.(data := pending[cut.done].up(before.data)), Interrupted)
        else (Advance(started, pending, |pending|), Finished(version + |pending|))
  }

  predicate PossibleRuns(db: Db, list: seq<Migration>, cuts: seq<Cut>)
    decreases |cuts|, 0
  {
    cuts == [] ||
    (PossibleRuns(db, list, cuts[..|cuts| - 1]) && Possible(Runs(db, list, cuts[..|cuts| - 1]), list, cuts[|cuts| - 1]))
  }

  /** The database after that many starts of the process. */
  function Runs(db: Db, list: seq<Migration>, cuts: seq<Cut>): Db
    requires PossibleRuns(db, list, cuts)
    decreases |cuts|, 1
  {
    if cuts == [] then db else RunMigrations(Runs(db, list, cuts[..|cuts| - 1]), list, cuts[|cuts| - 1]).0
  }

  // What precedes a run on every connect.

  /** The collections `ensureMongoCollections` creates where they are missing. */
  const COLLECTIONS := ["telemetry_ts", "telemetry_hourly", "telemetry_hourly_runs", "device_latest", "alerts",
                        "users", "audit_log", "notify_log", "sessions", "rbac"]

  /** The missing ones among `names` created. */
  function WithCollections(data: Data, names: seq<string>): Data {
    data + map name | name in names && name !in data :: []
  }

  function SetUp(data: Data): Data {
    WithCollections(data, COLLECTIONS)
  }

  /**
   * A connect: it dies while creating collections, having created some; or it goes on to the runner. A
   * reconnect of a process that has migrated creates what is missing and stops there.
   */
  datatype Connect = SetUpOnly(created: seq<string>) | Migrated(cut: Cut)

  predicate PossibleConnect(db: Db, list: seq<Migration>, connect: Connect) {
    match connect
    case SetUpOnly(created) => forall name <- created :: name in COLLECTIONS
    case Migrated(cut) => Possible(db.(data := SetUp(db.data)), list, cut)
  }

  function Connected(db: Db, list: seq<Migration>, connect: Connect): Db
    requires PossibleConnect(db, list, connect)
  {
    match connect
    case SetUpOnly(created) => db.(data := WithCollections(db.data, created))
    case Migrated(cut) => RunMigrations(db.(data := SetUp(db.data)), list, cut).0
  }

  predicate PossibleConnects(db: Db, list: seq<Migration>, connects: seq<Connect>)
    decreases |connects|, 0
  {
    connects == [] ||
    (PossibleConnects(db, list, connects[..|connects| - 1])
     && PossibleConnect(Connects(db, list, connects[..|connects| - 1]), list, connects[|connects| - 1]))
  }

  /** The database after that many connects. */
  function Connects(db: Db, list: seq<Migration>, connects: seq<Connect>): Db
    requires PossibleConnects(db, list, connects)
    decreases |connects|, 1
  {
    if connects == [] then db
    else Connected(Connects(db, list, connects[..|connects| - 1]), list, connects[|connects| - 1])
  }

  // The shipped list.

  function IfNull(row: Row, field: string, other: Value): Row {
    if field in row && row[field] != Null then row else row[field := other]
  }

  /** A default taken from another field; without that field there is nothing to take. */
  function IfNullFrom(row: Row, field: string, source: string): Row {
    if source in row then IfNull(row, field, row[source]) else row
  }

  function ExpandUser(row: Row): Row {
    var enabled := IfNull(row, "enabled", Flag(true));
    var versioned := IfNull(enabled, "tokenVersion", Number(0));
    var named := IfNullFrom(versioned, "displayName", "username");
    var reachable := IfNull(IfNull(named, "email", Null), "phone", Null);
    IfNullFrom(IfNull(reachable, "lastLoginAt", Null), "passwordUpdatedAt", "createdAt")
  }

  function AddLockout(row: Row): Row {
    IfNull(IfNull(row, "failedAttempts", Number(0)), "lockedUntil", Null)
  }

  function AddAck(row: Row): Row {
    IfNull(IfNull(IfNull(row, "ackedBy", Null), "ackedAt", Null), "comment", Null)
  }

  function FillRows(rows: seq<Row>, marker: string, fill: Row -> Row): (r: seq<Row>)
    ensures |r| == |rows|
  {
    seq(|rows|, i requires 0 <= i < |rows| => if marker in rows[i] then rows[i] else fill(rows[i]))
  }

  /** `updateMany` over the rows of one collection that lack the marker field. */
  function Backfill(data: Data, collection: string, marker: string, fill: Row -> Row): Data {
    if collection in data then data[collection := FillRows(data[collection], marker, fill)] else data
  }

  /** An interrupted `updateMany`: some of the rows are done. */
  predicate Backfilled(before: Data, after: Data, collection: string, marker: string, fill: Row -> Row) {
    if collection !in before then after == before
    else
      && collection in after
      && |after[collection]| == |before[collection]|
      && after == before[collection := after[collection]]
      && forall i | 0 <= i < |before[collection]| ::
           after[collection][i] == before[collection][i]
           || after[collection][i] == FillRows(before[collection], marker, fill)[i]
  }

  function BackfillMigration(version: int, collection: string, marker: string, fill: Row -> Row): Migration {
    Migration(
      version,
      data => Backfill(data, collection, marker, fill),
      (before, after) => Backfilled(before, after, collection, marker, fill))
  }

  function Shipped(): seq<Migration> {
    [Migration(1, data => data, (before, after) => after == before),
     BackfillMigration(2, "users", "tokenVersion", ExpandUser),
     BackfillMigration(3, "users", "failedAttempts", AddLockout),
     BackfillMigration(4, "alerts", "ackedBy", AddAck)]
  }
}
