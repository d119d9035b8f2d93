/** What the config registry promises over any run of reloads, saves, uploads, hand edits and restarts. */
module ConfigProofs {
  import opened Wrappers
  import opened ConfigMerge
  import opened ConfigMergeProofs
  import opened ConfigSteps

  // ---------------------------------------------------------------------------
  // Loading with fallback
  // ---------------------------------------------------------------------------

  lemma {:induction false} RevertText(current: Files, lastGood: Files, files: seq<ConfigFile>, file: ConfigFile)
    ensures TextOf(Revert(current, lastGood, files), file)
         == if file in files then TextOf(lastGood, file) else TextOf(current, file)
  {
    if files != [] {
      var init, last := files[..|files| - 1], files[|files| - 1];
      RevertText(current, lastGood, init, file);
      assert files == init + [last];
    }
  }

  lemma {:induction false} SavedText(lastGood: Files, loaded: Loaded, files: seq<ConfigFile>, file: ConfigFile)
    ensures TextOf(SavedLastGood(lastGood, loaded, files), file)
         == if file in files && TextOf(loaded.raw, file) == TextOf(loaded.current, file)
            then TextOf(loaded.current, file) else TextOf(lastGood, file)
  {
    if files != [] {
      var init, last := files[..|files| - 1], files[|files| - 1];
      SavedText(lastGood, loaded, init, file);
      assert files == init + [last];
    }
  }

  /** The attempt that loaded: it builds, and none before it did. */
  lemma {:induction false} FirstAttempt(
    w: World, current: Files, lastGood: Files, assets: Assets, attempts: seq<seq<ConfigFile>>) returns (i: nat)
    requires FirstThatBuilds(w, current, lastGood, assets, attempts).Some?
    ensures i < |attempts|
    ensures var loaded := FirstThatBuilds(w, current, lastGood, assets, attempts).value;
            && loaded.reverted == attempts[i] && loaded.current == current
            && loaded.raw == Revert(current, lastGood, attempts[i]) && w.builds(loaded.raw, assets)
    ensures forall j | 0 <= j < i :: !w.builds(Revert(current, lastGood, attempts[j]), assets)
  {
    i := 0;
    if !w.builds(Revert(current, lastGood, attempts[0]), assets) {
      var j := FirstAttempt(w, current, lastGood, assets, attempts[1..]);
      i := j + 1;
    }
  }

  lemma {:induction false} NoAttemptBuilds(
    w: World, current: Files, lastGood: Files, assets: Assets, attempts: seq<seq<ConfigFile>>)
    requires FirstThatBuilds(w, current, lastGood, assets, attempts).None?
    ensures forall i | 0 <= i < |attempts| :: !w.builds(Revert(current, lastGood, attempts[i]), assets)
  {
    if attempts != [] {
      NoAttemptBuilds(w, current, lastGood, assets, attempts[1..]);
    }
  }

  /** Whether the configuration loads with just this file reverted. */
  predicate LoadsWithout(w: World, files: Files, lastGood: Files, assets: Assets, file: ConfigFile) {
    w.builds(Revert(files, lastGood, [file]), assets)
  }

  /** The files a load of `files` has to revert, as few as it can. */
  ghost predicate RevertsLeast(w: World, files: Files, lastGood: Files, assets: Assets, reverted: seq<ConfigFile>) {
    var changed := Changed(files, lastGood);
    if w.builds(files, assets) then reverted == []
    else
      || (exists k | 0 <= k < |changed| ::
            && reverted == [changed[k]]
            && LoadsWithout(w, files, lastGood, assets, changed[k])
            && forall j | 0 <= j < k :: !LoadsWithout(w, files, lastGood, assets, changed[j]))
      || (&& reverted == changed && |changed| > 1
          && forall file | file in changed :: !LoadsWithout(w, files, lastGood, assets, file))
  }

  /**
   * A load holds back as little as it can. It takes the files as they are when they load; else it
   * reverts one file, the first whose revert alone lets the rest load; else every changed file. Each
   * file not reverted is in effect exactly as it is on disk.
   */
  lemma LoadIsolatesTheCulprit(w: World, files: Files, lastGood: Files, assets: Assets)
    requires LoadWithFallback(w, files, lastGood, assets).Some?
    ensures var loaded := LoadWithFallback(w, files, lastGood, assets).value;
            && w.builds(loaded.raw, assets) && loaded.current == files
            && RevertsLeast(w, files, lastGood, assets, loaded.reverted)
            && (forall file: ConfigFile ::
                  TextOf(loaded.raw, file)
                  == if file in loaded.reverted then TextOf(lastGood, file) else TextOf(files, file))
            && (forall file | file in loaded.reverted :: TextOf(lastGood, file) != TextOf(files, file))
  {
    if !w.builds(files, assets) {
      var changed := Changed(files, lastGood);
      var attempts := Attempts(changed);
      var i := FirstAttempt(w, files, lastGood, assets, attempts);
      forall j | 0 <= j < i && j < |changed|
        ensures !LoadsWithout(w, files, lastGood, assets, changed[j])
      {
        assert attempts[j] == [changed[j]];
      }
      if i < |changed| {
        assert attempts[i] == [changed[i]];
      }
      forall file: ConfigFile
        ensures TextOf(Revert(files, lastGood, attempts[i]), file)
             == if file in attempts[i] then TextOf(lastGood, file) else TextOf(files, file)
      {
        RevertText(files, lastGood, attempts[i], file);
      }
    }
  }

  /** Where the last-good texts load together, every load succeeds, whatever is on disk. */
  lemma LastGoodIsAFallback(w: World, files: Files, lastGood: Files, assets: Assets)
    requires RequiresRequired(w) && w.builds(lastGood, assets)
    ensures LoadWithFallback(w, files, lastGood, assets).Some?
  {
    var changed := Changed(files, lastGood);
    var all := Revert(files, lastGood, changed);
    forall file: ConfigFile
      ensures TextOf(all, file) == TextOf(lastGood, file)
    {
      EveryFileIsListed(file);
      RevertText(files, lastGood, changed, file);
    }
    SameFiles(all, lastGood);
    if LoadWithFallback(w, files, lastGood, assets).None? {
      NoAttemptBuilds(w, files, lastGood, assets, Attempts(changed));
      AllChangedIsAnAttempt(changed);
    }
  }

  lemma AllChangedIsAnAttempt(changed: seq<ConfigFile>)
    ensures changed != [] ==> changed in Attempts(changed)
  {
    if |changed| == 1 {
      assert Attempts(changed)[0] == changed;
    } else if |changed| > 1 {
      assert Attempts(changed)[|changed|] == changed;
    }
  }

  /** After a commit the last-good texts are the texts in effect. */
  lemma CommitSavesWhatIsInEffect(w: World, s: Registry, loaded: Loaded)
    requires Load(w, s) == Some(loaded)
    ensures Commit(s, loaded).lastGood == loaded.raw == Commit(s, loaded).inEffect
    ensures w.builds(loaded.raw, s.assets)
  {
    LoadIsolatesTheCulprit(w, s.files, s.lastGood, s.assets);
    var saved := SavedLastGood(s.lastGood, loaded, FILES);
    forall file: ConfigFile
      ensures TextOf(saved, file) == TextOf(loaded.raw, file)
    {
      EveryFileIsListed(file);
      SavedText(s.lastGood, loaded, FILES, file);
    }
    SameFiles(saved, loaded.raw);
  }

  // ---------------------------------------------------------------------------
  // Last-good over whole runs
  // ---------------------------------------------------------------------------

  /** The last-good copies load together with the assets on disk, and are what is in effect. */
  ghost predicate Protected(w: World, s: Registry) {
    && w.builds(s.lastGood, s.assets)
    && (s.loaded ==> s.inEffect == s.lastGood)
  }

  /** One successful load is enough to be protected, whatever the state it started from. */
  lemma FirstLoadProtects(w: World, s: Registry)
    requires Load(w, s).Some?
    ensures Protected(w, Reload(w, s)) && Reload(w, s).loaded
  {
    CommitSavesWhatIsInEffect(w, s, Load(w, s).value);
  }

  lemma StepKeepsProtected(w: World, s: Registry, step: Step)
    requires RequiresRequired(w) && Protected(w, s)
    ensures Protected(w, Apply(w, s, step))
  {
    match step
    case Reloaded =>
      LastGoodIsAFallback(w, s.files, s.lastGood, s.assets);
      FirstLoadProtects(w, s);
    case Wrote(file, value, expected) =>
      if Write(w, s, file, value, expected).1 == Saved {
        var next := s.(files := s.files[file := w.render(ToWrite(w, s, file, value, expected).value)]);
        CommitSavesWhatIsInEffect(w, next, Load(w, next).value);
      }
    case Uploaded(path, bytes) =>
      if WriteAsset(w, s, path, bytes).1 == Saved {
        var next := s.(assets := s.assets[path := bytes]);
        CommitSavesWhatIsInEffect(w, next, Load(w, next).value);
      }
    case HandEdited(files) =>
    case Restarted =>
  }

  /**
   * Once one load has succeeded, no sequence of hand edits, saves, uploads, reloads and restarts
   * leaves a state whose next load fails, or in which the texts in effect are not the last-good ones.
   */
  lemma {:induction false} NoLaterLoadFails(w: World, s: Registry, steps: seq<Step>)
    requires RequiresRequired(w) && Protected(w, s)
    ensures Protected(w, Run(w, s, steps))
    ensures Load(w, Run(w, s, steps)).Some?
  {
    if steps != [] {
      NoLaterLoadFails(w, s, steps[..|steps| - 1]);
      StepKeepsProtected(w, Run(w, s, steps[..|steps| - 1]), steps[|steps| - 1]);
    }
    var end := Run(w, s, steps);
    LastGoodIsAFallback(w, end.files, end.lastGood, end.assets);
  }

  /** Reloading once more, with nothing edited in between, leaves the same configuration in effect. */
  lemma ReloadIsStable(w: World, s: Registry)
    requires RequiresRequired(w) && Load(w, s).Some?
    ensures Load(w, Reload(w, s)).Some?
    ensures Reload(w, Reload(w, s)).inEffect == Reload(w, s).inEffect == Reload(w, Reload(w, s)).lastGood
  {
    var first := Reload(w, s);
    FirstLoadProtects(w, s);
    LastGoodIsAFallback(w, first.files, first.lastGood, first.assets);
    var one, two := Load(w, s).value, Load(w, first).value;
    CommitSavesWhatIsInEffect(w, s, one);
    CommitSavesWhatIsInEffect(w, first, two);
    LoadIsolatesTheCulprit(w, s.files, s.lastGood, s.assets);
    LoadIsolatesTheCulprit(w, s.files, one.raw, s.assets);
    forall file: ConfigFile
      ensures TextOf(one.raw, file) == TextOf(two.raw, file)
    {
      if file in one.reverted && file !in two.reverted {
        SecondLoadRevertsAsMuch(w, s, one, two, file);
      }
    }
    SameFiles(one.raw, two.raw);
  }

  /** After a load, the changed files are those it reverted, and reverting one of them alone is as before. */
  lemma ChangedAfterLoad(w: World, s: Registry, one: Loaded)
    requires Load(w, s) == Some(one)
    ensures forall file :: file in Changed(s.files, one.raw) <==> file in one.reverted
    ensures forall file | file in one.reverted ::
              LoadsWithout(w, s.files, one.raw, s.assets, file) == LoadsWithout(w, s.files, s.lastGood, s.assets, file)
  {
    LoadIsolatesTheCulprit(w, s.files, s.lastGood, s.assets);
    forall file
      ensures file in Changed(s.files, one.raw) <==> file in one.reverted
    {
      EveryFileIsListed(file);
    }
    forall file | file in one.reverted
      ensures LoadsWithout(w, s.files, one.raw, s.assets, file) == LoadsWithout(w, s.files, s.lastGood, s.assets, file)
    {
      forall other: ConfigFile
        ensures TextOf(Revert(s.files, one.raw, [file]), other) == TextOf(Revert(s.files, s.lastGood, [file]), other)
      {
        RevertText(s.files, one.raw, [file], other);
        RevertText(s.files, s.lastGood, [file], other);
      }
      SameFiles(Revert(s.files, one.raw, [file]), Revert(s.files, s.lastGood, [file]));
    }
  }

  /** What the first load reverted, the second reverts too: one of them alone was tried before. */
  lemma SecondLoadRevertsAsMuch(w: World, s: Registry, one: Loaded, two: Loaded, file: ConfigFile)
    requires Load(w, s) == Some(one) && LoadWithFallback(w, s.files, one.raw, s.assets) == Some(two)
    requires file in one.reverted
    ensures file in two.reverted
  {
    assert RevertsLeast(w, s.files, s.lastGood, s.assets, one.reverted) by {
      LoadIsolatesTheCulprit(w, s.files, s.lastGood, s.assets);
    }
    assert RevertsLeast(w, s.files, one.raw, s.assets, two.reverted) by {
      LoadIsolatesTheCulprit(w, s.files, one.raw, s.assets);
    }
    ChangedAfterLoad(w, s, one);
    if |one.reverted| == 1 {
      assert two.reverted[0] in one.reverted;
    }
  }

  // ---------------------------------------------------------------------------
  // Saves
  // ---------------------------------------------------------------------------

  /**
   * A save takes effect or leaves everything as it was: on success the written text is on disk, in
   * effect and last-good, and every other file on disk is untouched; otherwise nothing changed.
   */
  lemma WriteIsAllOrNothing(w: World, s: Registry, file: ConfigFile, value: Json, expected: Option<Text>)
    ensures var (next, outcome) := Write(w, s, file, value, expected);
            if outcome == Saved then
              var written := ToWrite(w, s, file, value, expected);
              && written.Some?
              && (forall other: ConfigFile ::
                    TextOf(next.files, other)
                    == if other == file then Some(w.render(written.value)) else TextOf(s.files, other))
              && TextOf(next.inEffect, file) == TextOf(next.lastGood, file) == Some(w.render(written.value))
              && w.builds(next.inEffect, next.assets) && next.assets == s.assets
            else next == s
  {
    if Write(w, s, file, value, expected).1 == Saved {
      var next := s.(files := s.files[file := w.render(ToWrite(w, s, file, value, expected).value)]);
      CommitSavesWhatIsInEffect(w, next, Load(w, next).value);
      LoadIsolatesTheCulprit(w, next.files, next.lastGood, next.assets);
    }
  }

  /** An upload takes effect or leaves everything as it was, and degrades no file that was healthy. */
  lemma UploadIsAllOrNothing(w: World, s: Registry, path: string, bytes: string)
    ensures var (next, outcome) := WriteAsset(w, s, path, bytes);
            if outcome == Saved then
              && next.assets == s.assets[path := bytes] && next.files == s.files
              && next.lastGood == next.inEffect && w.builds(next.inEffect, next.assets)
              && (forall issue | issue in next.issues :: issue in s.issues)
            else next == s
  {
    if WriteAsset(w, s, path, bytes).1 == Saved {
      var next := s.(assets := s.assets[path := bytes]);
      CommitSavesWhatIsInEffect(w, next, Load(w, next).value);
    }
  }

  predicate Normalizes(w: World, file: ConfigFile, raw: Json, value: Json) {
    w.normalize(file, raw) == Some(value)
  }

  /** A value as a file's parser leaves it. */
  ghost predicate IsNormal(w: World, file: ConfigFile, value: Json) {
    exists raw :: Normalizes(w, file, raw, value)
  }

  /** A unit's value as a file's parser leaves it. */
  ghost predicate NormalUnit(w: World, file: ConfigFile, unit: Unit, side: Side) {
    exists value :: IsNormal(w, file, value) && At(Some(value), unit) == side
  }

  /** Every unit of a value is one a file's parser leaves. */
  ghost predicate AllUnitsNormal(w: World, file: ConfigFile, spec: MergeSpec, value: Json) {
    forall unit | IsUnit(spec, Some(value), Some(value), Some(value), unit) ::
      NormalUnit(w, file, unit, At(Some(value), unit))
  }

  ghost predicate SameUnits(spec: MergeSpec, left: Json, right: Json) {
    forall unit | IsUnit(spec, Some(left), Some(left), Some(left), unit) ::
      At(Some(left), unit) == At(Some(right), unit)
  }

  /**
   * A file's parser is an idempotent normalizer, unit by unit: its results have distinct ids, and a
   * value whose units are all normal keeps them.
   */
  ghost predicate ParserNormalizes(w: World, file: ConfigFile, spec: MergeSpec) {
    forall raw, value | Normalizes(w, file, raw, value) ::
      && WellIndexed(spec, Some(value))
      && (AllUnitsNormal(w, file, spec, raw) && WellIndexed(spec, Some(raw)) ==> SameUnits(spec, raw, value))
  }

  ghost predicate ParsersNormalize(w: World) {
    forall file | MergeSpecs(file).Some? :: ParserNormalizes(w, file, MergeSpecs(file).value)
  }

  /** Well-indexed values have the same units, whoever they are merged with. */
  lemma {:induction false} WellIndexedUnits(
    spec: MergeSpec, base: Side, ours: Side, theirs: Side, other: Side, unit: Unit)
    requires WellIndexed(spec, base) && WellIndexed(spec, ours) && WellIndexed(spec, theirs)
    requires WellIndexed(spec, other)
    ensures IsUnit(spec, base, ours, theirs, unit) == IsUnit(spec, other, other, other, unit)
    decreases unit
  {
    if spec.Record? && unit.Under? && unit.field in spec.fields {
      var name := unit.field;
      WellIndexedUnits(spec.fields[name], Field(base, name), Field(ours, name), Field(theirs, name),
                       Field(other, name), unit.inner);
    }
  }

  /**
   * No blind overwrite. Suppose a save that names the version it was made from succeeds. Then either
   * that version was on disk, or, in every unit where the written value departs from the one on disk,
   * the one on disk is the one in the version the save names.
   */
  lemma NoBlindOverwrite(w: World, s: Registry, file: ConfigFile, value: Json, expected: Text)
    requires ParsersNormalize(w) && MergeSpecs(file).Some?
    requires IsNormal(w, file, value)
    requires Write(w, s, file, value, Some(expected)).1 == Saved
    ensures OverwritesOnlyItsVersion(w, s, file, value, expected)
  {
    var onDisk := TextOf(s.files, file);
    if onDisk != expected {
      var spec := MergeSpecs(file).value;
      var written := MergeConcurrentEdit(w, s, file, value, expected, onDisk).value;
      var b, t := Read(w, file, expected).value, Read(w, file, onDisk).value;
      var merged := MergeWith(spec, Some(b), Some(value), Some(t)).value.value;
      ReadIsNormal(w, file, expected);
      ReadIsNormal(w, file, onDisk);
      MergedWriteKeepsToItsVersion(w, file, spec, b, value, t, merged, written);
    }
  }

  lemma ReadIsNormal(w: World, file: ConfigFile, text: Text)
    ensures Read(w, file, text).Some? ==> IsNormal(w, file, Read(w, file, text).value)
  {
    if Read(w, file, text).Some? {
      var raw := if text.None? then Null else w.parse(text.value).value;
      assert Normalizes(w, file, raw, Read(w, file, text).value);
    }
  }

  /** The units of a merge of normal values are normal, so the parser leaves them as merged. */
  lemma ParserKeepsMergedUnit(
    w: World, file: ConfigFile, spec: MergeSpec, b: Json, ours: Json, t: Json, merged: Json, written: Json, unit: Unit)
    requires ParserNormalizes(w, file, spec)
    requires IsNormal(w, file, b) && IsNormal(w, file, ours) && IsNormal(w, file, t)
    requires MergeWith(spec, Some(b), Some(ours), Some(t)) == Value(Some(merged))
    requires Normalizes(w, file, merged, written)
    requires IsUnit(spec, Some(b), Some(ours), Some(t), unit)
    ensures At(Some(merged), unit) == At(Some(written), unit)
  {
    MergeKeepsIdsDistinct(spec, Some(b), Some(ours), Some(t));
    MergedUnitsAreNormal(w, file, spec, b, ours, t, merged);
    WellIndexedUnits(spec, Some(b), Some(ours), Some(t), Some(merged), unit);
    assert SameUnits(spec, merged, written);
  }

  lemma MergedUnitsAreNormal(w: World, file: ConfigFile, spec: MergeSpec, b: Json, ours: Json, t: Json, merged: Json)
    requires WellIndexed(spec, Some(b)) && WellIndexed(spec, Some(ours)) && WellIndexed(spec, Some(t))
    requires WellIndexed(spec, Some(merged))
    requires IsNormal(w, file, b) && IsNormal(w, file, ours) && IsNormal(w, file, t)
    requires MergeWith(spec, Some(b), Some(ours), Some(t)) == Value(Some(merged))
    ensures AllUnitsNormal(w, file, spec, merged)
  {
    forall unit | IsUnit(spec, Some(merged), Some(merged), Some(merged), unit)
      ensures NormalUnit(w, file, unit, At(Some(merged), unit))
    {
      WellIndexedUnits(spec, Some(b), Some(ours), Some(t), Some(merged), unit);
      MergedUnitIsNormal(w, file, spec, b, ours, t, merged, unit);
    }
  }

  lemma MergedUnitIsNormal(w: World, file: ConfigFile, spec: MergeSpec, b: Json, ours: Json, t: Json, merged: Json, unit: Unit)
    requires IsNormal(w, file, b) && IsNormal(w, file, ours) && IsNormal(w, file, t)
    requires MergeWith(spec, Some(b), Some(ours), Some(t)) == Value(Some(merged))
    requires IsUnit(spec, Some(b), Some(ours), Some(t), unit)
    ensures NormalUnit(w, file, unit, At(Some(merged), unit))
  {
    CarriesBothSides(spec, Some(b), Some(ours), Some(t), unit);
    assert NormalUnit(w, file, unit, At(Some(b), unit));
    assert NormalUnit(w, file, unit, At(Some(ours), unit));
    assert NormalUnit(w, file, unit, At(Some(t), unit));
  }

  lemma MergedWriteKeepsToItsVersion(
    w: World, file: ConfigFile, spec: MergeSpec, b: Json, ours: Json, t: Json, merged: Json, written: Json)
    requires ParserNormalizes(w, file, spec)
    requires IsNormal(w, file, b) && IsNormal(w, file, ours) && IsNormal(w, file, t)
    requires MergeWith(spec, Some(b), Some(ours), Some(t)) == Value(Some(merged))
    requires Normalizes(w, file, merged, written)
    ensures forall unit | IsUnit(spec, Some(b), Some(ours), Some(t), unit) ::
              At(Some(written), unit) != At(Some(t), unit) ==> At(Some(t), unit) == At(Some(b), unit)
  {
    forall unit | IsUnit(spec, Some(b), Some(ours), Some(t), unit)
      ensures At(Some(written), unit) != At(Some(t), unit) ==> At(Some(t), unit) == At(Some(b), unit)
    {
      ParserKeepsMergedUnit(w, file, spec, b, ours, t, merged, written, unit);
      MergeNeverOverwritesBlindly(spec, Some(b), Some(ours), Some(t), unit);
    }
  }

  ghost predicate OverwritesOnlyItsVersion(w: World, s: Registry, file: ConfigFile, value: Json, expected: Text)
    requires MergeSpecs(file).Some?
  {
    var onDisk := TextOf(s.files, file);
    var written := ToWrite(w, s, file, value, Some(expected));
    var base, theirs := Read(w, file, expected), Read(w, file, onDisk);
    || onDisk == expected
    || (&& base.Some? && theirs.Some? && written.Some?
        && forall unit | IsUnit(MergeSpecs(file).value, base, Some(value), theirs, unit) ::
             At(written, unit) != At(theirs, unit) ==> At(theirs, unit) == At(base, unit))
  }

  /** The state before step `i` of a run. */
  function Before(w: World, s: Registry, steps: seq<Step>, i: nat): Registry
    requires i <= |steps|
  {
    Run(w, s, steps[..i])
  }

  /** Every save with an expected version along a run is refused, undone, or overwrites only what its version holds. */
  lemma NoBlindOverwriteOverRuns(w: World, s: Registry, steps: seq<Step>)
    requires ParsersNormalize(w)
    requires forall step | step in steps && step.Wrote? ::
               MergeSpecs(step.file).Some? && IsNormal(w, step.file, step.value)
    ensures forall i | 0 <= i < |steps| && steps[i].Wrote? && steps[i].expected.Some? ::
              var before, after := Before(w, s, steps, i), Before(w, s, steps, i + 1);
              || before == after
              || OverwritesOnlyItsVersion(w, before, steps[i].file, steps[i].value, steps[i].expected.value)
  {
    forall i | 0 <= i < |steps| && steps[i].Wrote? && steps[i].expected.Some?
      ensures var before, after := Before(w, s, steps, i), Before(w, s, steps, i + 1);
              || before == after
              || OverwritesOnlyItsVersion(w, before, steps[i].file, steps[i].value, steps[i].expected.value)
    {
      var before, step := Before(w, s, steps, i), steps[i];
      assert step in steps;
      assert steps[..i + 1][..i] == steps[..i];
      WriteIsAllOrNothing(w, before, step.file, step.value, step.expected);
      if Write(w, before, step.file, step.value, step.expected).1 == Saved {
        NoBlindOverwrite(w, before, step.file, step.value, step.expected.value);
      }
    }
  }
}
