/** The runner as it works on the database, marker by marker (`backend/src/migrations/runner.ts`). */
module MigrationRunner {
  import opened MigrationSteps

  class Database {
    var data: Data
    var markers: seq<nat>

    function State(): Db
      reads this
    {
      Db(data, markers)
    }

    constructor (data: Data, markers: seq<nat>)
      ensures State() == Db(data, markers)
    {
      this.data, this.markers := data, markers;
    }

    /** Create the missing collections among `names`, one by one. */
    method CreateMissing(names: seq<string>)
      modifies `data
      ensures State() == old(State()).(data := WithCollections(old(data), names))
    {
      for i := 0 to |names|
        invariant data == WithCollections(old(data), names[..i])
      {
        assert names[..i + 1] == names[..i] + [names[i]];
        OneMoreCollection(old(data), names[..i], names[i]);
        if names[i] !in data { data := data[names[i] := []]; }
      }
      assert names[..|names|] == names;
    }

    method EnsureMongoCollections()
      modifies `data
      ensures State() == old(State()).(data := SetUp(old(data)))
    {
      CreateMissing(COLLECTIONS);
    }

    method HighestMarker() returns (version: nat)
      ensures version == CurrentVersion(markers)
    {
      version := 0;
      for i := 0 to |markers|
        invariant version == CurrentVersion(markers[..i])
      {
        assert markers[..i + 1][..i] == markers[..i];
        if markers[i] > version { version := markers[i]; }
      }
      assert markers[..|markers|] == markers;
    }

    method RecordApplied(version: nat)
      modifies `markers
      ensures State() == Record(old(State()), version)
    {
      if version !in markers { markers := markers + [version]; }
    }

    method BaselineIfPreexisting(list: seq<Migration>) returns (version: nat)
      requires CurrentVersion(markers) == 0 && WellFormed(list)
      modifies `markers
      ensures version == StartVersion(old(State()), list)
      ensures State() == Started(old(State()), list)
    {
      if !LooksPreexisting(data) || list == [] { return 0; }
      RecordApplied(1);
      version := 1;
    }

    method PendingPast(list: seq<Migration>, version: nat) returns (pending: seq<Migration>)
      ensures pending == Past(list, version)
    {
      pending := [];
      for i := 0 to |list|
        invariant pending == Past(list[..i], version)
      {
        assert list[..i + 1][..i] == list[..i];
        if list[i].version > version { pending := pending + [list[i]]; }
      }
      assert list[..|list|] == list;
    }

    /** The loop over the pending migrations, cut where the step says. */
    method ApplyPending(pending: seq<Migration>, cut: Cut)
      requires cut != AtOnce && forall i | 0 <= i < |pending| :: pending[i].version >= 0
      requires cut.Before? ==> cut.done <= |pending|
      requires cut.During? || cut.After? ==> cut.done < |pending|
      modifies this
      ensures cut.Before? ==> State() == Advance(old(State()), pending, cut.done)
      ensures cut.During? ==> State() == Advance(old(State()), pending, cut.done).(data := cut.left)
      ensures cut.After? ==> var before := Advance(old(State()), pending, cut.done);
                             State() == before.(data := pending[cut.done].up(before.data))
      ensures cut.Whole? ==> State() == Advance(old(State()), pending, |pending|)
    {
      for i := 0 to |pending|
        invariant State() == Advance(old(State()), pending, i)
        invariant cut.Before? || cut.During? || cut.After? ==> i <= cut.done
      {
        if cut == Before(i) { return; }
        if cut.During? && cut.done == i {
          data := cut.left;
          return;
        }
        data := pending[i].up(data);
        if cut == After(i) { return; }
        RecordApplied(pending[i].version);
      }
    }

    method RunMigrations(list: seq<Migration>, cut: Cut) returns (outcome: Outcome)
      requires Possible(State(), list, cut)
      modifies this
      ensures (State(), outcome) == MigrationSteps.RunMigrations(old(State()), list, cut)
    {
      if exists i | 0 <= i < |list| :: list[i].version != i + 1 { return Malformed; }
      if cut == AtOnce { return Interrupted; }
      var version := HighestMarker();
      if version == 0 { version := BaselineIfPreexisting(list); }
      if version > |list| { return Refused; }
      var pending := PendingPast(list, version);
      PastVersions(list, version);
      ApplyPending(pending, cut);
      outcome := if cut.Whole? then Finished(version + |pending|) else Interrupted;
    }
  }

  lemma OneMoreCollection(data: Data, names: seq<string>, name: string)
    ensures var before := WithCollections(data, names);
            WithCollections(data, names + [name]) == if name in before then before else before[name := []]
  {}
}
