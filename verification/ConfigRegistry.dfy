/** The `ConfigRegistry` class itself: its fields, its loops, and what each method does to its state. */
module ConfigRegistry {
  import opened Wrappers
  import opened ConfigMerge
  import opened ConfigSteps
  import ConfigMergeLoops

  class ConfigRegistry {
    const world: World
    // On disk.
    var files: Files
    var lastGood: Files
    var assets: Assets
    // In the process.
    var loaded: bool
    var inEffect: Files
    var fileVersions: Files
    var versionTexts: map<ConfigFile, seq<Text>>
    var issues: seq<Option<ConfigFile>>

    /** The registry's state as a value. */
    function State(): Registry
      reads this
    {
      Registry(files, lastGood, assets, loaded, inEffect, fileVersions, versionTexts, issues)
    }

    constructor (world: World, files: Files, lastGood: Files, assets: Assets)
      ensures this.world == world
      ensures State() == Registry(files, lastGood, assets, false, map[], map[], map[], [])
    {
      this.world, this.files, this.lastGood, this.assets := world, files, lastGood, assets;
      loaded, inEffect, fileVersions, versionTexts, issues := false, map[], map[], map[], [];
    }

    /** Load the files on disk, isolating a broken one instead of failing as a whole. */
    method LoadWithFallback() returns (result: Option<Loaded>)
      ensures result == Load(world, State())
    {
      var current := files;
      if world.builds(current, assets) {
        return Some(Loaded(current, current, []));
      }
      var attempts := Attempts(Changed(current, lastGood));
      for i := 0 to |attempts|
        invariant FirstThatBuilds(world, current, lastGood, assets, attempts)
               == FirstThatBuilds(world, current, lastGood, assets, attempts[i..])
      {
        var raw := Revert(current, lastGood, attempts[i]);
        if world.builds(raw, assets) {
          return Some(Loaded(raw, current, attempts[i]));
        }
        assert attempts[i..][1..] == attempts[i + 1..];
      }
      return None;
    }

    /** Apply a loaded configuration, remember the versions on disk, and save what loaded as it is. */
    method CommitLoaded(load: Loaded)
      modifies this
      ensures State() == Commit(old(State()), load)
    {
      var histories := RememberVersions(load.current);
      SaveLastGood(load);
      loaded, inEffect, fileVersions, versionTexts, issues := true, load.raw, load.current, histories, OnFiles(load.reverted);
    }

    method RememberVersions(current: Files) returns (histories: map<ConfigFile, seq<Text>>)
      ensures histories == Histories(versionTexts, current)
    {
      histories := map[];
      for i := 0 to |FILES|
        invariant histories.Keys == set file | file in FILES[..i]
        invariant forall file | file in histories ::
                    histories[file] == Remember(HistoryOf(versionTexts, file), TextOf(current, file))
      {
        var history := RememberText(HistoryOf(versionTexts, FILES[i]), TextOf(current, FILES[i]));
        histories := histories[FILES[i] := history];
        assert FILES[..i + 1] == FILES[..i] + [FILES[i]];
      }
      assert FILES[..|FILES|] == FILES;
    }

    /** Move a text to the newest end of its file's history, dropping the oldest ones past the bound. */
    method RememberText(history: seq<Text>, text: Text) returns (kept: seq<Text>)
      ensures kept == Remember(history, text)
    {
      kept := WithoutText(history, text) + [text];
      ghost var full := kept;
      while |kept| > VERSION_HISTORY
        invariant kept == full || (VERSION_HISTORY <= |kept| <= |full| && kept == full[|full| - |kept|..])
      {
        kept := kept[1..];
      }
    }

    method SaveLastGood(load: Loaded)
      modifies `lastGood
      ensures lastGood == SavedLastGood(old(lastGood), load, FILES)
    {
      for i := 0 to |FILES|
        invariant lastGood == SavedLastGood(old(lastGood), load, FILES[..i])
      {
        assert FILES[..i + 1][..i] == FILES[..i];
        if TextOf(load.raw, FILES[i]) == TextOf(load.current, FILES[i]) {
          lastGood := Put(lastGood, FILES[i], TextOf(load.current, FILES[i]));
        }
      }
      assert FILES[..|FILES|] == FILES;
    }

    /** Re-read the configuration; false when nothing loadable could be assembled. */
    method ReloadInternal() returns (didReload: bool)
      modifies this
      ensures State() == Reload(world, old(State()))
      ensures didReload == Load(world, old(State())).Some?
    {
      var result := LoadWithFallback();
      match result
      case Some(load) =>
        CommitLoaded(load);
        didReload := true;
      case None =>
        issues := [None];
        didReload := false;
    }

    /** Merge our edit with the file as it is now; None when there is no base or the edits overlap. */
    method MergeConcurrentEditNow(file: ConfigFile, ours: Json, base: Text, current: Text) returns (merged: Option<Json>)
      ensures merged == MergeConcurrentEdit(world, State(), file, ours, base, current)
    {
      merged := MergeUnderNow(MergeSpecs(file), file, ours, base, current);
    }

    method MergeUnderNow(spec: Option<MergeSpec>, file: ConfigFile, ours: Json, base: Text, current: Text)
      returns (merged: Option<Json>)
      ensures merged == MergeUnder(world, State(), spec, file, ours, base, current)
    {
      if spec.None? || base !in HistoryOf(versionTexts, file) {
        return None;
      }
      var b, t := Read(world, file, base), Read(world, file, current);
      if b.None? || t.None? {
        return None;
      }
      merged := MergeReadingsNow(file, spec.value, b.value, ours, t.value);
    }

    method MergeReadingsNow(file: ConfigFile, spec: MergeSpec, base: Json, ours: Json, theirs: Json)
      returns (merged: Option<Json>)
      ensures merged == MergeReadings(world, file, spec, base, ours, theirs)
    {
      var result := ConfigMergeLoops.MergeWithLoop(spec, Some(base), Some(ours), Some(theirs));
      if result.Conflict? || result.value.None? {
        return None;
      }
      return world.normalize(file, result.value.value);
    }

    /** The value to put on disk: as sent, or merged when the file moved on since `expected`. */
    method ChooseValue(file: ConfigFile, value: Json, expected: Option<Text>) returns (chosen: Option<Json>)
      ensures chosen == ToWrite(world, State(), file, value, expected)
    {
      var previous := TextOf(files, file);
      if expected.Some? && previous != expected.value {
        chosen := MergeConcurrentEditNow(file, value, expected.value, previous);
      } else {
        chosen := Some(value);
      }
    }

    /** Write one file and make it take effect, or put the previous text back. */
    method WriteConfigAndApply(file: ConfigFile, value: Json, expected: Option<Text>) returns (outcome: Outcome)
      modifies this
      ensures (State(), outcome) == Write(world, old(State()), file, value, expected)
    {
      var chosen := ChooseValue(file, value, expected);
      if chosen.None? {
        return Conflicted;
      }
      outcome := ApplyValue(file, chosen.value);
    }

    method ApplyValue(file: ConfigFile, written: Json) returns (outcome: Outcome)
      modifies this
      ensures (State(), outcome) == WriteValue(world, old(State()), file, written)
    {
      var previous := TextOf(files, file);
      files := files[file := world.render(written)];
      var result := LoadWithFallback();
      if result.Some? && file !in result.value.reverted {
        CommitLoaded(result.value);
        return Saved;
      }
      RestoreFile(file, previous);
      PutBack(old(files), file, world.render(written));
      return NotApplied;
    }

    method RestoreFile(file: ConfigFile, previous: Text)
      modifies `files
      ensures files == Put(old(files), file, previous)
    {
      files := Put(files, file, previous);
    }

    /** Store an uploaded scene asset and make it take effect, or put the previous bytes back. */
    method StoreSceneAsset(path: string, bytes: string) returns (outcome: Outcome)
      modifies this
      ensures State() == WriteAsset(world, old(State()), path, bytes).0
      ensures outcome == WriteAsset(world, old(State()), path, bytes).1
    {
      if !loaded {
        return NotLoaded;
      }
      var previous := if path in assets then Some(assets[path]) else None;
      assets := assets[path := bytes];
      var degradedBefore := issues;
      var result := LoadWithFallback();
      if result.Some? && forall file | file in result.value.reverted :: Some(file) in degradedBefore {
        CommitLoaded(result.value);
        return Saved;
      }
      WithdrawAsset(path, previous, old(assets), bytes);
      return NotApplied;
    }

    /** Put back what an upload replaced. */
    method WithdrawAsset(path: string, previous: Option<string>, ghost before: Assets, ghost bytes: string)
      requires previous == if path in before then Some(before[path]) else None
      requires assets == before[path := bytes]
      modifies `assets
      ensures assets == before
    {
      assets := if previous.None? then assets - {path} else assets[path := previous.value];
    }
  }
}
