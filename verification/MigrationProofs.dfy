/** Interrupted migration runs, repeated until one completes, end where a single clean run would (`backend/src/migrations/runner.ts`). */
module MigrationProofs {
  import opened MigrationSteps

  /** What `types.ts` asks of an `up`: done again on its own full or partial result, it changes nothing more. */
  ghost predicate Absorbs(migration: Migration) {
    && (forall before {:trigger migration.up(migration.up(before))} ::
          migration.up(migration.up(before)) == migration.up(before))
    && (forall before, after {:trigger migration.leaves(before, after)} | migration.leaves(before, after) ::
          migration.up(after) == migration.up(before))
  }

  /** What lets the first migration be baselined: it does not create a core collection before it is done. */
  ghost predicate CreatesCoreLast(migration: Migration) {
    forall before, after | migration.leaves(before, after) && !LooksPreexisting(before) && LooksPreexisting(after) ::
      after == migration.up(before)
  }

  /** What interrupted runs that start at a version need; only runs from the first migration need it created last. */
  ghost predicate CrashSafeFrom(list: seq<Migration>, start: nat) {
    && WellFormed(list)
    && (forall i | 0 <= i < |list| :: Absorbs(list[i]))
    && (list != [] && start == 0 ==> CreatesCoreLast(list[0]))
  }

  ghost predicate CrashSafe(list: seq<Migration>) {
    CrashSafeFrom(list, 0)
  }

  /** Each migration once, in order. */
  function Fold(list: seq<Migration>, data: Data): Data {
    if list == [] then data else list[|list| - 1].up(Fold(list[..|list| - 1], data))
  }

  function Upto(version: nat): (markers: seq<nat>)
    ensures |markers| == version && forall i | 0 <= i < version :: markers[i] == i + 1
  {
    if version == 0 then [] else Upto(version - 1) + [version]
  }

  lemma {:induction false} UptoCurrent(version: nat)
    ensures CurrentVersion(Upto(version)) == version && forall v <- Upto(version) :: v <= version
  {
    if version > 0 {
      UptoCurrent(version - 1);
      assert Upto(version)[..version - 1] == Upto(version - 1);
    }
  }

  lemma {:induction false} PastIsASuffix(list: seq<Migration>, version: nat)
    requires WellFormed(list) && version <= |list|
    ensures Past(list, version) == list[version..]
  {
    if |list| > version {
      PastIsASuffix(list[..|list| - 1], version);
      assert list[version..] == list[..|list| - 1][version..] + [list[|list| - 1]];
    } else {
      PastNothing(list, version);
    }
  }

  lemma {:induction false} PastNothing(list: seq<Migration>, version: nat)
    requires WellFormed(list) && |list| <= version
    ensures Past(list, version) == []
  {
    if list != [] { PastNothing(list[..|list| - 1], version); }
  }

  // Where a run can be.

  /** The data a clean run from `origin` has after the migrations up to `version`. */
  function Clean(list: seq<Migration>, origin: Data, start: nat, version: nat): Data
    requires start <= version <= |list|
  {
    Fold(list[start..version], origin)
  }

  lemma CleanNext(list: seq<Migration>, origin: Data, start: nat, version: nat)
    requires start <= version < |list|
    ensures Clean(list, origin, start, version + 1) == list[version].up(Clean(list, origin, start, version))
  {
    assert list[start..version + 1][..version - start] == list[start..version];
  }

  /** The data is what a clean run has at this version, or the next `up` will make it so. */
  predicate Near(list: seq<Migration>, origin: Data, start: nat, version: nat, data: Data)
    requires start <= version <= |list|
  {
    var clean := Clean(list, origin, start, version);
    if version == |list| then data == clean else list[version].up(data) == list[version].up(clean)
  }

  lemma NearNext(list: seq<Migration>, origin: Data, start: nat, version: nat, data: Data)
    requires start <= version < |list| && Near(list, origin, start, version, data)
    ensures list[version].up(data) == Clean(list, origin, start, version + 1)
    ensures Near(list, origin, start, version + 1, list[version].up(data))
  {
    CleanNext(list, origin, start, version);
  }

  /** A database with the markers up to a version and the data near it. */
  predicate At(db: Db, list: seq<Migration>, origin: Data, start: nat, version: nat) {
    start <= version <= |list| && db.markers == Upto(version) && Near(list, origin, start, version, db.data)
  }

  lemma OneMoreStaysNear(before: Db, list: seq<Migration>, origin: Data, start: nat, version: nat)
    requires WellFormed(list) && version < |list| && At(before, list, origin, start, version)
    ensures At(Record(before.(data := list[version].up(before.data)), list[version].version), list, origin, start, version + 1)
  {
    NearNext(list, origin, start, version, before.data);
  }

  /** `pending` are the migrations of the list from `version` on. */
  ghost predicate IsRest(pending: seq<Migration>, list: seq<Migration>, version: nat) {
    && version + |pending| == |list|
    && forall i | 0 <= i < |pending| :: pending[i] == list[version + i] && pending[i].version == version + i + 1
  }

  lemma AdvanceOne(db: Db, list: seq<Migration>, pending: seq<Migration>, version: nat, done: nat)
    requires WellFormed(list) && IsRest(pending, list, version) && done < |pending|
    ensures var before, migration := Advance(db, pending, done), list[version + done];
            Advance(db, pending, done + 1) == Record(before.(data := migration.up(before.data)), migration.version)
  {}

  lemma OneMoreStaysAt(
    db: Db, list: seq<Migration>, pending: seq<Migration>, origin: Data, start: nat, version: nat, done: nat)
    requires WellFormed(list) && IsRest(pending, list, version) && done < |pending|
    requires At(Advance(db, pending, done), list, origin, start, version + done)
    ensures At(Advance(db, pending, done + 1), list, origin, start, version + done + 1)
  {
    AdvanceOne(db, list, pending, version, done);
    OneMoreStaysNear(Advance(db, pending, done), list, origin, start, version + done);
  }

  lemma {:induction false} AdvanceStaysAt(
    db: Db, list: seq<Migration>, pending: seq<Migration>, origin: Data, start: nat, version: nat, done: nat)
    requires WellFormed(list) && At(db, list, origin, start, version) && IsRest(pending, list, version) && done <= |pending|
    ensures At(Advance(db, pending, done), list, origin, start, version + done)
    decreases done
  {
    if done > 0 {
      AdvanceStaysAt(db, list, pending, origin, start, version, done - 1);
      OneMoreStaysAt(db, list, pending, origin, start, version, done - 1);
    }
  }

  lemma AdvanceStaysNear(db: Db, list: seq<Migration>, origin: Data, start: nat, version: nat, done: nat)
    requires WellFormed(list) && At(db, list, origin, start, version) && version + done <= |list|
    ensures At(Advance(db, list[version..], done), list, origin, start, version + done)
  {
    AdvanceStaysAt(db, list, list[version..], origin, start, version, done);
  }

  /**
   * Between runs, from a database at `origin` whose first run starts at `start`: with markers, the data
   * is near their version; without, the first `up` would still give its clean result, and only a
   * finished one has left core collections.
   */
  ghost predicate Underway(db: Db, list: seq<Migration>, origin: Db, start: nat)
    requires start <= |list| && list != []
  {
    if db.markers != [] then At(db, list, origin.data, start, |db.markers|)
    else if start > 0 then db == origin
    else
      list[0].up(db.data) == list[0].up(origin.data)
      && (LooksPreexisting(db.data) ==> db.data == list[0].up(origin.data))
  }

  /** The first run's starting point. */
  predicate StartsAt(origin: Db, list: seq<Migration>, start: nat) {
    start == StartVersion(origin, list) && start <= |list| && origin.markers == Upto(|origin.markers|) && list != []
  }

  lemma StartIsKnown(origin: Db, list: seq<Migration>, start: nat)
    requires StartsAt(origin, list, start)
    ensures start == if origin.markers != [] then |origin.markers| else if LooksPreexisting(origin.data) then 1 else 0
  {
    UptoCurrent(|origin.markers|);
  }

  lemma VersionIsKnown(db: Db, list: seq<Migration>)
    requires list != [] && db.markers == Upto(|db.markers|)
    ensures StartVersion(db, list)
            == if db.markers != [] then |db.markers| else if LooksPreexisting(db.data) then 1 else 0
    ensures Started(db, list) == if db.markers == [] && LooksPreexisting(db.data) then Db(db.data, [1]) else db
  {
    UptoCurrent(|db.markers|);
  }

  lemma UnmarkedStartIsNear(db: Db, list: seq<Migration>, origin: Db, start: nat)
    requires StartsAt(origin, list, start) && Underway(db, list, origin, start) && db.markers == []
    ensures At(Started(db, list), list, origin.data, start, StartVersion(db, list))
  {
    assert Upto(0) == [] && Upto(1) == [1];
    VersionIsKnown(db, list);
    StartIsKnown(origin, list, start);
    if start == 0 && LooksPreexisting(db.data) {
      CleanNext(list, origin.data, 0, 0);
    }
  }

  /** Whatever was left behind, the next start takes up where the data is as in a clean run, or will be after the next `up`. */
  lemma StartIsNear(db: Db, list: seq<Migration>, origin: Db, start: nat)
    requires StartsAt(origin, list, start) && Underway(db, list, origin, start)
    ensures At(Started(db, list), list, origin.data, start, StartVersion(db, list))
  {
    if db.markers == [] {
      UnmarkedStartIsNear(db, list, origin, start);
    } else {
      VersionIsKnown(db, list);
    }
  }

  /** The state after `done` whole migrations of a run. */
  lemma AdvancedIsAt(db: Db, list: seq<Migration>, origin: Db, start: nat, done: nat)
    requires WellFormed(list) && StartsAt(origin, list, start) && Underway(db, list, origin, start)
    requires StartVersion(db, list) + done <= |list|
    ensures At(Advance(Started(db, list), list[StartVersion(db, list)..], done), list, origin.data, start,
               StartVersion(db, list) + done)
  {
    StartIsNear(db, list, origin, start);
    AdvanceStaysNear(Started(db, list), list, origin.data, start, StartVersion(db, list), done);
  }

  /** Nothing recorded yet means the run began without markers and has not finished its first migration. */
  lemma NotYetMarked(db: Db, list: seq<Migration>, origin: Db, start: nat)
    requires WellFormed(list) && StartsAt(origin, list, start) && Underway(db, list, origin, start)
    requires StartVersion(db, list) == 0
    ensures db.markers == [] && start == 0 && Started(db, list) == db && !LooksPreexisting(db.data)
    ensures Advance(Started(db, list), list[0..], 0) == db
  {
    StartIsNear(db, list, origin, start);
    UptoCurrent(|db.markers|);
  }

  lemma AdvancedIsUnderway(db: Db, list: seq<Migration>, origin: Db, start: nat, done: nat)
    requires WellFormed(list) && StartsAt(origin, list, start) && Underway(db, list, origin, start)
    requires StartVersion(db, list) + done <= |list|
    ensures Underway(Advance(Started(db, list), list[StartVersion(db, list)..], done), list, origin, start)
  {
    AdvancedIsAt(db, list, origin, start, done);
    if StartVersion(db, list) + done > 0 {
    } else {
      NotYetMarked(db, list, origin, start);
    }
  }

  /** An interrupted `up`, or one whose marker was not written, leaves the data near the same version. */
  lemma LeftoverStaysAt(before: Db, list: seq<Migration>, origin: Data, start: nat, version: nat, left: Data)
    requires At(before, list, origin, start, version) && version < |list| && Absorbs(list[version])
    requires list[version].leaves(before.data, left) || left == list[version].up(before.data)
    ensures At(before.(data := left), list, origin, start, version)
  {
    assert list[version].up(left) == list[version].up(before.data);
  }

  lemma FirstLeftover(db: Db, list: seq<Migration>, origin: Db, left: Data)
    requires list != [] && Absorbs(list[0]) && CreatesCoreLast(list[0])
    requires db.markers == [] && Underway(db, list, origin, 0) && !LooksPreexisting(db.data)
    requires list[0].leaves(db.data, left) || left == list[0].up(db.data)
    ensures Underway(db.(data := left), list, origin, 0)
  {
    assert list[0].up(left) == list[0].up(db.data);
  }

  lemma LeftLaterIsUnderway(before: Db, list: seq<Migration>, origin: Db, start: nat, version: nat, left: Data)
    requires CrashSafeFrom(list, start) && StartsAt(origin, list, start) && 0 < version < |list|
    requires At(before, list, origin.data, start, version)
    requires list[version].leaves(before.data, left) || left == list[version].up(before.data)
    ensures Underway(before.(data := left), list, origin, start)
  {
    LeftoverStaysAt(before, list, origin.data, start, version, left);
  }

  lemma LeftFirstIsUnderway(db: Db, list: seq<Migration>, origin: Db, left: Data)
    requires CrashSafeFrom(list, 0) && list != []
    requires db.markers == [] && Underway(db, list, origin, 0) && !LooksPreexisting(db.data)
    requires list[0].leaves(db.data, left) || left == list[0].up(db.data)
    ensures Underway(db.(data := left), list, origin, 0)
  {
    FirstLeftover(db, list, origin, left);
  }

  /** The database after `done` whole migrations of a run. */
  function AfterWhole(db: Db, list: seq<Migration>, done: nat): Db
    requires WellFormed(list) && StartVersion(db, list) + done <= |list|
  {
    Advance(Started(db, list), list[StartVersion(db, list)..], done)
  }

  lemma LeftBetweenIsUnderway(db: Db, list: seq<Migration>, origin: Db, start: nat, done: nat, left: Data)
    requires CrashSafeFrom(list, start) && StartsAt(origin, list, start) && Underway(db, list, origin, start)
    requires 0 < StartVersion(db, list) + done < |list|
    requires var before, migration := AfterWhole(db, list, done), list[StartVersion(db, list) + done];
             migration.leaves(before.data, left) || left == migration.up(before.data)
    ensures Underway(AfterWhole(db, list, done).(data := left), list, origin, start)
  {
    AdvancedIsAt(db, list, origin, start, done);
    LeftLaterIsUnderway(AfterWhole(db, list, done), list, origin, start, StartVersion(db, list) + done, left);
  }

  lemma LeftInsideIsUnderway(db: Db, list: seq<Migration>, origin: Db, start: nat, done: nat, left: Data)
    requires CrashSafeFrom(list, start) && StartsAt(origin, list, start) && Underway(db, list, origin, start)
    requires StartVersion(db, list) + done < |list|
    requires var before, migration := AfterWhole(db, list, done), list[StartVersion(db, list) + done];
             migration.leaves(before.data, left) || left == migration.up(before.data)
    ensures Underway(AfterWhole(db, list, done).(data := left), list, origin, start)
  {
    if StartVersion(db, list) + done > 0 {
      LeftBetweenIsUnderway(db, list, origin, start, done, left);
    } else {
      NotYetMarked(db, list, origin, start);
      LeftFirstIsUnderway(db, list, origin, left);
    }
  }

  /** A run cut inside an `up`, or before its marker, has done `cut.done` migrations and left data behind. */
  lemma RunLeavesInside(db: Db, list: seq<Migration>, cut: Cut) returns (left: Data)
    requires WellFormed(list) && StartVersion(db, list) <= |list| && Possible(db, list, cut)
    requires cut.During? || cut.After?
    ensures StartVersion(db, list) + cut.done < |list|
    ensures var before := Advance(Started(db, list), list[StartVersion(db, list)..], cut.done);
            var migration := list[StartVersion(db, list) + cut.done];
            && (migration.leaves(before.data, left) || left == migration.up(before.data))
            && RunMigrations(db, list, cut).0 == before.(data := left)
  {
    var version := StartVersion(db, list);
    PastIsASuffix(list, version);
    left := if cut.During? then cut.left
            else list[version + cut.done].up(Advance(Started(db, list), list[version..], cut.done).data);
  }

  /** A run that stops between two migrations, or completes, has done a number of them whole. */
  lemma RunLeavesBetween(db: Db, list: seq<Migration>, cut: Cut) returns (done: nat)
    requires WellFormed(list) && StartVersion(db, list) <= |list| && Possible(db, list, cut)
    requires cut.Before? || cut.Whole?
    ensures StartVersion(db, list) + done <= |list|
    ensures RunMigrations(db, list, cut).0 == Advance(Started(db, list), list[StartVersion(db, list)..], done)
  {
    PastIsASuffix(list, StartVersion(db, list));
    done := if cut.Before? then cut.done else |list| - StartVersion(db, list);
  }

  lemma StartsWithin(db: Db, list: seq<Migration>, origin: Db, start: nat)
    requires StartsAt(origin, list, start) && Underway(db, list, origin, start)
    ensures StartVersion(db, list) <= |list|
  {
    StartIsNear(db, list, origin, start);
  }

  lemma CutStaysUnderway(db: Db, list: seq<Migration>, origin: Db, start: nat, cut: Cut)
    requires CrashSafeFrom(list, start) && StartsAt(origin, list, start) && Underway(db, list, origin, start)
    requires Possible(db, list, cut)
    ensures Underway(RunMigrations(db, list, cut).0, list, origin, start)
  {
    StartsWithin(db, list, origin, start);
    if cut.During? || cut.After? {
      var left := RunLeavesInside(db, list, cut);
      LeftInsideIsUnderway(db, list, origin, start, cut.done, left);
    } else if cut != AtOnce {
      var done := RunLeavesBetween(db, list, cut);
      AdvancedIsUnderway(db, list, origin, start, done);
    }
  }

  lemma {:induction false} RunsStayUnderway(db: Db, list: seq<Migration>, cuts: seq<Cut>, start: nat)
    requires CrashSafeFrom(list, start) && StartsAt(db, list, start) && PossibleRuns(db, list, cuts)
    ensures Underway(Runs(db, list, cuts), list, db, start)
    decreases |cuts|
  {
    if cuts == [] {
      StartIsKnown(db, list, start);
    } else {
      RunsStayUnderway(db, list, cuts[..|cuts| - 1], start);
      CutStaysUnderway(Runs(db, list, cuts[..|cuts| - 1]), list, db, start, cuts[|cuts| - 1]);
    }
  }

  lemma AtTheEnd(db: Db, list: seq<Migration>, origin: Data, start: nat)
    requires At(db, list, origin, start, |list|)
    ensures db == Db(Fold(list[start..], origin), Upto(|list|))
  {
    assert list[..|list|] == list;
  }

  lemma {:induction false} WholeRunFinishes(db: Db, list: seq<Migration>)
    requires WellFormed(list) && StartVersion(db, list) <= |list|
    ensures RunMigrations(db, list, Whole)
            == (Advance(Started(db, list), list[StartVersion(db, list)..], |list| - StartVersion(db, list)), Finished(|list|))
  {
    PastIsASuffix(list, StartVersion(db, list));
  }

  lemma {:induction false} NothingToMigrate(db: Db, cuts: seq<Cut>)
    requires PossibleRuns(db, [], cuts) && db.markers == []
    ensures Runs(db, [], cuts) == db && RunMigrations(db, [], Whole) == (db, Finished(0))
    decreases |cuts|
  {
    if cuts != [] { NothingToMigrate(db, cuts[..|cuts| - 1]); }
  }

  /**
   * After any number of runs cut short before, inside or after an `up`, one run that completes leaves
   * the data of a single clean run and exactly the markers 1 to latest, in order.
   */
  lemma InterruptedRunsConverge(db: Db, list: seq<Migration>, cuts: seq<Cut>)
    requires CrashSafeFrom(list, StartVersion(db, list)) && PossibleRuns(db, list, cuts)
    requires db.markers == Upto(|db.markers|) && |db.markers| <= |list|
    ensures StartVersion(db, list) <= |list|
    ensures RunMigrations(Runs(db, list, cuts), list, Whole)
            == (Db(Fold(list[StartVersion(db, list)..], db.data), Upto(|list|)), Finished(|list|))
  {
    if list == [] {
      NothingToMigrate(db, cuts);
    } else {
      VersionIsKnown(db, list);
      MigratesToTheEnd(db, list, cuts, StartVersion(db, list));
    }
  }

  lemma MigratesToTheEnd(db: Db, list: seq<Migration>, cuts: seq<Cut>, start: nat)
    requires CrashSafeFrom(list, start) && StartsAt(db, list, start) && PossibleRuns(db, list, cuts)
    ensures RunMigrations(Runs(db, list, cuts), list, Whole)
            == (Db(Fold(list[start..], db.data), Upto(|list|)), Finished(|list|))
  {
    RunsStayUnderway(db, list, cuts, start);
    var now := Runs(db, list, cuts);
    StartsWithin(now, list, db, start);
    WholeRunFinishes(now, list);
    LastRunIsClean(now, list, db, start);
  }

  lemma {:induction false} LastRunIsClean(now: Db, list: seq<Migration>, origin: Db, start: nat)
    requires WellFormed(list) && StartsAt(origin, list, start) && Underway(now, list, origin, start)
    requires StartVersion(now, list) <= |list|
    ensures Advance(Started(now, list), list[StartVersion(now, list)..], |list| - StartVersion(now, list))
            == Db(Fold(list[start..], origin.data), Upto(|list|))
  {
    AdvancedIsAt(now, list, origin, start, |list| - StartVersion(now, list));
    AtTheEnd(Advance(Started(now, list), list[StartVersion(now, list)..], |list| - StartVersion(now, list)),
      list, origin.data, start);
  }

  /** A database some newer release has marked is refused whatever else it holds, and is not touched. */
  lemma NewerDatabasesAreRefused(db: Db, list: seq<Migration>, cut: Cut)
    requires WellFormed(list) && cut != AtOnce && (exists marker <- db.markers :: marker > |list|)
    ensures Possible(db, list, cut) && RunMigrations(db, list, cut) == (db, Refused)
  {
    var marker :| marker in db.markers && marker > |list|;
    CurrentIsHighest(db.markers, marker);
  }

  lemma {:induction false} CurrentIsHighest(markers: seq<nat>, marker: nat)
    requires marker in markers
    ensures CurrentVersion(markers) >= marker
  {
    if markers[|markers| - 1] != marker {
      assert markers == markers[..|markers| - 1] + [markers[|markers| - 1]];
      CurrentIsHighest(markers[..|markers| - 1], marker);
    }
  }

  /**
   * The runner alone, on a database without core collections: a first migration that dies after creating
   * one is taken for an old database's and skipped. A server's connect has created them all before.
   */
  lemma EarlyCoreCollectionIsBaselined(first: Migration, data: Data, left: Data)
    requires first.version == 1 && !LooksPreexisting(data) && first.leaves(data, left)
    requires LooksPreexisting(left) && left != first.up(data)
    ensures var db := Db(data, []);
            PossibleRuns(db, [first], [During(0, left)])
            && RunMigrations(Runs(db, [first], [During(0, left)]), [first], Whole) == (Db(left, [1]), Finished(1))
            && left != Fold([first], data)
  {
    var db, list := Db(data, []), [first];
    PastIsASuffix(list, 0);
    PastIsASuffix(list, 1);
    assert list[0..] == list && list[1..] == [];
    assert [During(0, left)][..0] == [];
    assert PossibleRuns(db, list, []);
    assert Runs(db, list, [During(0, left)]) == Db(left, []);
    assert Baselines(Db(left, []), list) && Started(Db(left, []), list) == Db(left, [1]);
    assert Past(list, 1) == [];
    assert list[..0] == [];
  }

  // The shipped list.

  lemma BackfillAbsorbs(version: int, collection: string, marker: string, fill: Row -> Row)
    requires forall row :: marker in fill(row)
    ensures Absorbs(BackfillMigration(version, collection, marker, fill))
  {
    var migration := BackfillMigration(version, collection, marker, fill);
    forall before ensures migration.up(migration.up(before)) == migration.up(before) {
      FillTwice(before, Backfill(before, collection, marker, fill), collection, marker, fill);
    }
    forall before, after | migration.leaves(before, after) ensures migration.up(after) == migration.up(before) {
      FillTwice(before, after, collection, marker, fill);
    }
  }

  lemma FillTwice(before: Data, after: Data, collection: string, marker: string, fill: Row -> Row)
    requires forall row :: marker in fill(row)
    requires Backfilled(before, after, collection, marker, fill)
    ensures Backfill(after, collection, marker, fill) == Backfill(before, collection, marker, fill)
  {
    if collection in before {
      assert FillRows(after[collection], marker, fill) == FillRows(before[collection], marker, fill);
    }
  }

  /** The shipped migrations meet the conditions, whatever the rows hold. */
  lemma ShippedListIsCrashSafe()
    ensures CrashSafe(Shipped())
  {
    BackfillAbsorbs(2, "users", "tokenVersion", ExpandUser);
    BackfillAbsorbs(3, "users", "failedAttempts", AddLockout);
    BackfillAbsorbs(4, "alerts", "ackedBy", AddAck);
  }

  /** A row only gains what it lacked: every value that was there and not null stays. */
  predicate OnlyGains(row: Row, after: Row) {
    forall field | field in row && row[field] != Null :: field in after && after[field] == row[field]
  }

  lemma IfNullGains(row: Row, field: string, other: Value)
    ensures OnlyGains(row, IfNull(row, field, other)) && field in IfNull(row, field, other)
    ensures row.Keys <= IfNull(row, field, other).Keys
  {}

  lemma IfNullFromGains(row: Row, field: string, source: string)
    ensures OnlyGains(row, IfNullFrom(row, field, source)) && row.Keys <= IfNullFrom(row, field, source).Keys
    ensures source in row ==> field in IfNullFrom(row, field, source)
  {}

  /** The user migration gives a row every new field it can, and overwrites no value. */
  lemma ExpandUserFillsGaps(row: Row)
    ensures OnlyGains(row, ExpandUser(row))
    ensures {"enabled", "tokenVersion", "email", "phone", "lastLoginAt"} <= ExpandUser(row).Keys
    ensures "username" in row ==> "displayName" in ExpandUser(row)
    ensures "createdAt" in row ==> "passwordUpdatedAt" in ExpandUser(row)
  {
    var enabled := IfNull(row, "enabled", Flag(true));
    var versioned := IfNull(enabled, "tokenVersion", Number(0));
    var named := IfNullFrom(versioned, "displayName", "username");
    var mailed := IfNull(named, "email", Null);
    var reachable := IfNull(mailed, "phone", Null);
    var seen := IfNull(reachable, "lastLoginAt", Null);
    IfNullGains(row, "enabled", Flag(true));
    IfNullGains(enabled, "tokenVersion", Number(0));
    IfNullFromGains(versioned, "displayName", "username");
    IfNullGains(named, "email", Null);
    IfNullGains(mailed, "phone", Null);
    IfNullGains(reachable, "lastLoginAt", Null);
    IfNullFromGains(seen, "passwordUpdatedAt", "createdAt");
  }

  /** The field keeps a value it has, and else gets this one. */
  predicate Gets(row: Row, after: Row, field: string, other: Value) {
    field in after && after[field] == if field in row && row[field] != Null then row[field] else other
  }

  predicate SameAt(row: Row, after: Row, field: string) {
    (field in after <==> field in row) && (field in row ==> after[field] == row[field])
  }

  ghost predicate SameOutside(row: Row, after: Row, fields: set<string>) {
    forall field | field !in fields :: SameAt(row, after, field)
  }

  lemma IfNullAt(row: Row, filled: string, other: Value, field: string)
    ensures if field == filled then Gets(row, IfNull(row, filled, other), field, other)
            else SameAt(row, IfNull(row, filled, other), field)
  {}

  lemma IfNullFromAt(row: Row, filled: string, source: string, field: string)
    ensures if field == filled && source in row then Gets(row, IfNullFrom(row, filled, source), field, row[source])
            else SameAt(row, IfNullFrom(row, filled, source), field)
  {}

  /** The first two fields, told at one field. */
  lemma EnabledAt(row: Row, field: string)
    ensures var after := IfNull(IfNull(row, "enabled", Flag(true)), "tokenVersion", Number(0));
            && (field == "enabled" ==> Gets(row, after, field, Flag(true)))
            && (field == "tokenVersion" ==> Gets(row, after, field, Number(0)))
            && (field != "enabled" && field != "tokenVersion" ==> SameAt(row, after, field))
  {
    IfNullAt(row, "enabled", Flag(true), field);
    IfNullAt(IfNull(row, "enabled", Flag(true)), "tokenVersion", Number(0), field);
  }

  lemma ReachableAt(row: Row, field: string)
    ensures var after := IfNull(IfNull(IfNull(row, "email", Null), "phone", Null), "lastLoginAt", Null);
            if field == "email" || field == "phone" || field == "lastLoginAt" then Gets(row, after, field, Null)
            else SameAt(row, after, field)
  {
    var mailed := IfNull(row, "email", Null);
    IfNullAt(row, "email", Null, field);
    IfNullAt(mailed, "phone", Null, field);
    IfNullAt(IfNull(mailed, "phone", Null), "lastLoginAt", Null, field);
  }

  /** What the user migration makes of one field. */
  lemma ExpandedAt(row: Row, field: string)
    ensures var after := ExpandUser(row);
            if field == "enabled" then Gets(row, after, field, Flag(true))
            else if field == "tokenVersion" then Gets(row, after, field, Number(0))
            else if field == "email" || field == "phone" || field == "lastLoginAt" then Gets(row, after, field, Null)
            else if field == "displayName" && "username" in row then Gets(row, after, field, row["username"])
            else if field == "passwordUpdatedAt" && "createdAt" in row then Gets(row, after, field, row["createdAt"])
            else SameAt(row, after, field)
  {
    var versioned := IfNull(IfNull(row, "enabled", Flag(true)), "tokenVersion", Number(0));
    var named := IfNullFrom(versioned, "displayName", "username");
    var seen := IfNull(IfNull(IfNull(named, "email", Null), "phone", Null), "lastLoginAt", Null);
    assert ExpandUser(row) == IfNullFrom(seen, "passwordUpdatedAt", "createdAt");
    EnabledAt(row, field);
    EnabledAt(row, "username");
    EnabledAt(row, "createdAt");
    IfNullFromAt(versioned, "displayName", "username", field);
    IfNullFromAt(versioned, "displayName", "username", "createdAt");
    ReachableAt(named, field);
    ReachableAt(named, "createdAt");
    IfNullFromAt(seen, "passwordUpdatedAt", "createdAt", field);
  }

  /**
   * A user from before the user migration is enabled, has token version 0, is shown by the user name, took the
   * password at creation, and has no mail, phone or login yet; values already there stay.
   */
  lemma ExpandedUserHas(row: Row)
    ensures var after := ExpandUser(row);
            && Gets(row, after, "enabled", Flag(true)) && Gets(row, after, "tokenVersion", Number(0))
            && Gets(row, after, "email", Null) && Gets(row, after, "phone", Null) && Gets(row, after, "lastLoginAt", Null)
            && ("username" in row ==> Gets(row, after, "displayName", row["username"]))
            && ("createdAt" in row ==> Gets(row, after, "passwordUpdatedAt", row["createdAt"]))
            && SameOutside(row, after, {"enabled", "tokenVersion", "displayName", "email", "phone", "lastLoginAt", "passwordUpdatedAt"})
            && ("username" !in row ==> SameAt(row, after, "displayName"))
            && ("createdAt" !in row ==> SameAt(row, after, "passwordUpdatedAt"))
  {
    ExpandedAt(row, "enabled");
    ExpandedAt(row, "tokenVersion");
    ExpandedAt(row, "email");
    ExpandedAt(row, "phone");
    ExpandedAt(row, "lastLoginAt");
    ExpandedAt(row, "displayName");
    ExpandedAt(row, "passwordUpdatedAt");
    forall field | field !in {"enabled", "tokenVersion", "displayName", "email", "phone", "lastLoginAt", "passwordUpdatedAt"}
      ensures SameAt(row, ExpandUser(row), field)
    {
      ExpandedAt(row, field);
    }
  }

  /** The other two count no failures and know no lock, and know no acknowledgement. */
  lemma BackfilledRowsHave(row: Row)
    ensures var after := AddLockout(row);
            && Gets(row, after, "failedAttempts", Number(0)) && Gets(row, after, "lockedUntil", Null)
            && SameOutside(row, after, {"failedAttempts", "lockedUntil"})
    ensures var after := AddAck(row);
            && Gets(row, after, "ackedBy", Null) && Gets(row, after, "ackedAt", Null) && Gets(row, after, "comment", Null)
            && SameOutside(row, after, {"ackedBy", "ackedAt", "comment"})
  {}

  /** What the shipped list makes of a user: each migration fills in the rows that lack its first field. */
  function MigratedUser(row: Row): Row {
    var expanded := if "tokenVersion" in row then row else ExpandUser(row);
    if "failedAttempts" in expanded then expanded else AddLockout(expanded)
  }

  function MigratedAlert(row: Row): Row {
    if "ackedBy" in row then row else AddAck(row)
  }

  lemma FoldPrefix(list: seq<Migration>, n: nat, data: Data)
    requires n < |list|
    ensures Fold(list[..n + 1], data) == list[n].up(Fold(list[..n], data))
  {
    assert list[..n + 1][..n] == list[..n];
  }

  lemma BackfillUp(version: int, collection: string, marker: string, fill: Row -> Row, data: Data)
    ensures BackfillMigration(version, collection, marker, fill).up(data) == Backfill(data, collection, marker, fill)
  {}

  lemma FoldFour(list: seq<Migration>, data: Data)
    requires |list| == 4
    ensures Fold(list, data) == list[3].up(list[2].up(list[1].up(list[0].up(data))))
  {
    FoldPrefix(list, 0, data);
    FoldPrefix(list, 1, data);
    FoldPrefix(list, 2, data);
    FoldPrefix(list, 3, data);
    assert list[..4] == list && list[..0] == [];
  }

  lemma ShippedFolds(data: Data)
    ensures var two := Backfill(data, "users", "tokenVersion", ExpandUser);
            Fold(Shipped(), data) == Backfill(Backfill(two, "users", "failedAttempts", AddLockout), "alerts", "ackedBy", AddAck)
  {
    var two := Backfill(data, "users", "tokenVersion", ExpandUser);
    FoldFour(Shipped(), data);
    BackfillUp(2, "users", "tokenVersion", ExpandUser, data);
    BackfillUp(3, "users", "failedAttempts", AddLockout, two);
    BackfillUp(4, "alerts", "ackedBy", AddAck, Backfill(two, "users", "failedAttempts", AddLockout));
  }

  /** A backfill changes one collection, row by row. */
  lemma BackfillsRows(data: Data, collection: string, marker: string, fill: Row -> Row)
    ensures var after := Backfill(data, collection, marker, fill);
            && after.Keys == data.Keys && (forall name | name in data && name != collection :: after[name] == data[name])
            && (collection in data ==>
                  && |after[collection]| == |data[collection]|
                  && forall i | 0 <= i < |data[collection]| ::
                       after[collection][i] == if marker in data[collection][i] then data[collection][i] else fill(data[collection][i]))
  {}

  /** The whole list changes the users and the alerts, row by row, and no other collection. */
  lemma ShippedMigratesRows(data: Data)
    ensures var after := Fold(Shipped(), data);
            && after.Keys == data.Keys
            && (forall name | name in data && name != "users" && name != "alerts" :: after[name] == data[name])
            && ("users" in data ==>
                  && |after["users"]| == |data["users"]|
                  && forall i | 0 <= i < |data["users"]| :: after["users"][i] == MigratedUser(data["users"][i]))
            && ("alerts" in data ==>
                  && |after["alerts"]| == |data["alerts"]|
                  && forall i | 0 <= i < |data["alerts"]| :: after["alerts"][i] == MigratedAlert(data["alerts"][i]))
  {
    var two := Backfill(data, "users", "tokenVersion", ExpandUser);
    var three := Backfill(two, "users", "failedAttempts", AddLockout);
    ShippedFolds(data);
    BackfillsRows(data, "users", "tokenVersion", ExpandUser);
    BackfillsRows(two, "users", "failedAttempts", AddLockout);
    BackfillsRows(three, "alerts", "ackedBy", AddAck);
  }

  /** The lockout and acknowledgement migrations do the same with their own fields. */
  lemma BackfillsFillGaps(row: Row)
    ensures OnlyGains(row, AddLockout(row)) && {"failedAttempts", "lockedUntil"} <= AddLockout(row).Keys
    ensures OnlyGains(row, AddAck(row)) && {"ackedBy", "ackedAt", "comment"} <= AddAck(row).Keys
  {
    var counted, acked := IfNull(row, "failedAttempts", Number(0)), IfNull(row, "ackedBy", Null);
    var dated := IfNull(acked, "ackedAt", Null);
    IfNullGains(row, "failedAttempts", Number(0));
    IfNullGains(counted, "lockedUntil", Null);
    IfNullGains(row, "ackedBy", Null);
    IfNullGains(acked, "ackedAt", Null);
    IfNullGains(dated, "comment", Null);
  }
}
