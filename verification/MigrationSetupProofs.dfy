/**
 * Migrations as a connect runs them, after `ensureMongoCollections` (`backend/src/persistence.ts`,
 * `openMongoSession`). That step creates the core collections, so the runner finds them in every
 * database: one without markers is always taken for an old one, and the first migration never runs.
 */
module MigrationSetupProofs {
  import opened MigrationSteps
  import opened MigrationProofs

  /** Neither an `up` nor what an interrupted one leaves drops a collection. */
  ghost predicate KeepsCollections(migration: Migration) {
    && (forall before: Data :: before.Keys <= migration.up(before).Keys)
    && (forall before: Data, after: Data | migration.leaves(before, after) :: before.Keys <= after.Keys)
  }

  ghost predicate AllKeepCollections(list: seq<Migration>) {
    forall i | 0 <= i < |list| :: KeepsCollections(list[i])
  }

  predicate IsSetUp(data: Data) {
    forall name <- COLLECTIONS :: name in data
  }

  lemma SetUpIsDone(data: Data, created: seq<string>)
    requires IsSetUp(data) && forall name <- created :: name in COLLECTIONS
    ensures WithCollections(data, created) == data
  {}

  /** Creating some of the collections first changes nothing about the whole set. */
  lemma SetUpCompletes(data: Data, created: seq<string>)
    requires forall name <- created :: name in COLLECTIONS
    ensures SetUp(WithCollections(data, created)) == SetUp(data) && IsSetUp(SetUp(data))
  {}

  lemma SetUpLooksPreexisting(data: Data)
    ensures LooksPreexisting(SetUp(data))
  {
    assert "alerts" == COLLECTIONS[4] && "alerts" in SetUp(data);
    assert "alerts" == CORE_COLLECTIONS[1] && "alerts" in CORE_COLLECTIONS;
  }

  lemma {:induction false} AdvanceKeepsCollections(db: Db, pending: seq<Migration>, done: nat)
    requires done <= |pending| && forall i | 0 <= i < |pending| :: pending[i].version >= 0
    requires AllKeepCollections(pending)
    ensures db.data.Keys <= Advance(db, pending, done).data.Keys
    decreases done
  {
    if done > 0 {
      AdvanceKeepsCollections(db, pending, done - 1);
      assert KeepsCollections(pending[done - 1]);
    }
  }

  lemma {:induction false} PastKeepsCollections(list: seq<Migration>, version: nat)
    requires AllKeepCollections(list)
    ensures AllKeepCollections(Past(list, version))
  {
    if list != [] {
      PastKeepsCollections(list[..|list| - 1], version);
    }
  }

  lemma RunKeepsCollections(db: Db, list: seq<Migration>, cut: Cut)
    requires AllKeepCollections(list) && Possible(db, list, cut)
    ensures db.data.Keys <= RunMigrations(db, list, cut).0.data.Keys
  {
    var version := StartVersion(db, list);
    if WellFormed(list) && cut != AtOnce && version <= |list| {
      var pending := Past(list, version);
      PastVersions(list, version);
      PastKeepsCollections(list, version);
      var done := if cut.Whole? then |pending| else cut.done;
      AdvanceKeepsCollections(Started(db, list), pending, done);
      if cut.During? || cut.After? { assert KeepsCollections(pending[done]); }
    }
  }

  /** From a database that is set up, connects are runs: the ones that only set up change nothing. */
  ghost predicate RunsFromSetUp(db: Db, now: Db, list: seq<Migration>, cuts: seq<Cut>) {
    var origin := db.(data := SetUp(db.data));
    PossibleRuns(origin, list, cuts) && now == Runs(origin, list, cuts) && IsSetUp(now.data)
  }

  /** Until the runner is first reached, only some collections have been created. */
  ghost predicate Unreached(db: Db, now: Db) {
    now.markers == db.markers && SetUp(now.data) == SetUp(db.data)
  }

  lemma NextRun(origin: Db, list: seq<Migration>, cuts: seq<Cut>, cut: Cut)
    requires PossibleRuns(origin, list, cuts) && Possible(Runs(origin, list, cuts), list, cut)
    ensures PossibleRuns(origin, list, cuts + [cut])
    ensures Runs(origin, list, cuts + [cut]) == RunMigrations(Runs(origin, list, cuts), list, cut).0
  {
    assert (cuts + [cut])[..|cuts|] == cuts;
  }

  lemma {:induction false} ConnectsAreRuns(db: Db, list: seq<Migration>, connects: seq<Connect>) returns (cuts: seq<Cut>)
    requires AllKeepCollections(list) && PossibleConnects(db, list, connects)
    ensures var now := Connects(db, list, connects);
            RunsFromSetUp(db, now, list, cuts) || (cuts == [] && Unreached(db, now))
    decreases |connects|
  {
    cuts := [];
    if connects != [] {
      var init, last := connects[..|connects| - 1], connects[|connects| - 1];
      var before := ConnectsAreRuns(db, list, init);
      cuts := NextConnect(db, Connects(db, list, init), list, before, last);
    }
  }

  lemma NextConnect(db: Db, now: Db, list: seq<Migration>, before: seq<Cut>, last: Connect) returns (cuts: seq<Cut>)
    requires AllKeepCollections(list) && PossibleConnect(now, list, last)
    requires RunsFromSetUp(db, now, list, before) || (before == [] && Unreached(db, now))
    ensures var next := Connected(now, list, last);
            RunsFromSetUp(db, next, list, cuts) || (cuts == [] && Unreached(db, next))
  {
    var origin := db.(data := SetUp(db.data));
    match last
    case SetUpOnly(created) =>
      cuts := before;
      SetUpCompletes(now.data, created);
      if IsSetUp(now.data) { SetUpIsDone(now.data, created); }
    case Migrated(cut) =>
      cuts := before + [cut];
      SetUpCompletes(now.data, []);
      if RunsFromSetUp(db, now, list, before) {
        SetUpIsDone(now.data, COLLECTIONS);
      }
      NextRun(origin, list, before, cut);
      RunKeepsCollections(now.(data := SetUp(now.data)), list, cut);
  }

  /**
   * After any number of connects cut short while setting up or migrating, one whole connect leaves each
   * migration carried out once, in order, on the database as first set up, and exactly the markers 1 to
   * latest; except that a database found without markers never gets the first migration.
   */
  lemma InterruptedConnectsConverge(db: Db, list: seq<Migration>, connects: seq<Connect>)
    requires list != [] && CrashSafeFrom(list, 1) && AllKeepCollections(list)
    requires PossibleConnects(db, list, connects)
    requires db.markers == Upto(|db.markers|) && |db.markers| <= |list|
    ensures var first := if db.markers == [] then 1 else |db.markers|;
            && PossibleConnect(Connects(db, list, connects), list, Migrated(Whole))
            && Connected(Connects(db, list, connects), list, Migrated(Whole))
               == Db(Fold(list[first..], SetUp(db.data)), Upto(|list|))
  {
    var origin := db.(data := SetUp(db.data));
    var now := Connects(db, list, connects);
    var cuts := ConnectsAreRuns(db, list, connects);
    SetUpLooksPreexisting(db.data);
    VersionIsKnown(origin, list);
    InterruptedRunsConverge(origin, list, cuts);
    if RunsFromSetUp(db, now, list, cuts) {
      SetUpIsDone(now.data, COLLECTIONS);
    }
  }

  lemma {:induction false} FoldFirst(list: seq<Migration>, data: Data)
    requires list != []
    ensures Fold(list, data) == Fold(list[1..], list[0].up(data))
  {
    if |list| > 1 {
      var init := list[..|list| - 1];
      FoldFirst(init, data);
      assert list[1..][..|list| - 2] == init[1..];
    }
  }

  lemma WholeFromUnmarked(list: seq<Migration>, data: Data)
    requires WellFormed(list) && list != [] && LooksPreexisting(data)
    requires CrashSafeFrom(list, 1)
    ensures RunMigrations(Db(data, []), list, Whole).0 == Db(Fold(list[1..], data), Upto(|list|))
  {
    var db := Db(data, []);
    assert Upto(0) == [];
    VersionIsKnown(db, list);
    assert PossibleRuns(db, list, []) && Runs(db, list, []) == db;
    InterruptedRunsConverge(db, list, []);
  }

  /** What a whole run of this list from an unmarked database leaves is each migration once, in order. */
  ghost predicate FoldsWhole(list: seq<Migration>, data: Data) {
    RunMigrations(Db(data, []), list, Whole).0.data == Fold(list, data)
  }

  /** The migrations after the first, whatever they are. */
  ghost predicate Continues(list: seq<Migration>, first: Migration) {
    list != [] && list[0] == first && CrashSafeFrom(list, 1)
  }

  /**
   * Skipping the first migration does no harm, whatever migrations follow it, if and only if its `up`
   * would have changed nothing in the database as set up.
   */
  lemma SkippingTheFirstIsHarmlessIff(first: Migration, data: Data)
    requires first.version == 1 && Absorbs(first)
    ensures (forall list | Continues(list, first) :: FoldsWhole(list, SetUp(data)))
       <==> first.up(SetUp(data)) == SetUp(data)
  {
    SetUpLooksPreexisting(data);
    if first.up(SetUp(data)) == SetUp(data) {
      forall list | Continues(list, first) ensures FoldsWhole(list, SetUp(data)) {
        WholeFromUnmarked(list, SetUp(data));
        FoldFirst(list, SetUp(data));
      }
    } else {
      assert Continues([first], first);
      WholeFromUnmarked([first], SetUp(data));
      assert [first][1..] == [] && [first][..0] == [];
      assert !FoldsWhole([first], SetUp(data));
    }
  }

  lemma BackfillKeepsCollections(version: int, collection: string, marker: string, fill: Row -> Row)
    ensures KeepsCollections(BackfillMigration(version, collection, marker, fill))
  {}

  /** The shipped first migration does nothing, so the shipped list loses nothing by it. */
  lemma ShippedConnectsConverge(data: Data, connects: seq<Connect>)
    requires PossibleConnects(Db(data, []), Shipped(), connects)
    ensures var db := Db(data, []);
            && PossibleConnect(Connects(db, Shipped(), connects), Shipped(), Migrated(Whole))
            && Connected(Connects(db, Shipped(), connects), Shipped(), Migrated(Whole))
               == Db(Fold(Shipped(), SetUp(data)), Upto(4))
  {
    ShippedListIsCrashSafe();
    BackfillKeepsCollections(2, "users", "tokenVersion", ExpandUser);
    BackfillKeepsCollections(3, "users", "failedAttempts", AddLockout);
    BackfillKeepsCollections(4, "alerts", "ackedBy", AddAck);
    assert Upto(0) == [];
    InterruptedConnectsConverge(Db(data, []), Shipped(), connects);
    FoldFirst(Shipped(), SetUp(data));
  }
}
