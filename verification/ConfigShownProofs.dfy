/**
 * What an editor is shown, and what its guarded save may then overwrite.
 *
 * A read returns the configuration in effect under the version of the text on disk at the last load.
 * The two are one text unless the load had to revert the file.
 */
module ConfigShownProofs {
  import opened Wrappers
  import opened ConfigMerge
  import opened ConfigMergeProofs
  import opened ConfigSteps
  import opened ConfigProofs

  /** The text behind what a read of the file returns. */
  function Shown(s: Registry, file: ConfigFile): Text {
    TextOf(s.inEffect, file)
  }

  /** The version a read of the file returns, which a guarded save sends back. */
  function Version(s: Registry, file: ConfigFile): Text {
    TextOf(s.fileVersions, file)
  }

  /**
   * The save replaces nothing the editor did not see: the text on disk is the one shown, or in every
   * unit where the written value departs from the one on disk, the one on disk is the one shown.
   */
  ghost predicate OverwritesOnlyWhatWasShown(
    w: World, s: Registry, file: ConfigFile, value: Json, expected: Text, shown: Text)
    requires MergeSpecs(file).Some?
  {
    var onDisk := TextOf(s.files, file);
    var written := ToWrite(w, s, file, value, Some(expected));
    var seen, theirs := Read(w, file, shown), Read(w, file, onDisk);
    || onDisk == shown
    || (&& seen.Some? && theirs.Some? && written.Some?
        && forall unit | IsUnit(MergeSpecs(file).value, seen, Some(value), theirs, unit) ::
             At(written, unit) != At(theirs, unit) ==> At(theirs, unit) == At(seen, unit))
  }

  /** A save guarded by the version of a read, made after any further steps, spares what the read did not show. */
  ghost predicate SaveSparesTheUnseen(w: World, read: Registry, file: ConfigFile, steps: seq<Step>, value: Json)
    requires MergeSpecs(file).Some?
  {
    var s := Run(w, read, steps);
    IsNormal(w, file, value) && Write(w, s, file, value, Some(Version(read, file))).1 == Saved
    ==> OverwritesOnlyWhatWasShown(w, s, file, value, Version(read, file), Shown(read, file))
  }

  ghost predicate EverySaveSparesTheUnseen(w: World, read: Registry, file: ConfigFile)
    requires MergeSpecs(file).Some?
  {
    forall steps, value :: SaveSparesTheUnseen(w, read, file, steps, value)
  }

  /** The read showed what is in the text its version names, if only unit by unit. */
  ghost predicate ShowsItsVersion(w: World, read: Registry, file: ConfigFile)
    requires MergeSpecs(file).Some?
  {
    var seen, named := Read(w, file, Shown(read, file)), Read(w, file, Version(read, file));
    || Shown(read, file) == Version(read, file)
    || (seen.Some? && named.Some? && SameUnits(MergeSpecs(file).value, seen.value, named.value))
  }

  /** A configuration loads only if each file can be read, and depends on nothing else in a file. */
  ghost predicate LoadsByReading(w: World) {
    && (forall raw, assets, file | w.builds(raw, assets) && MergeSpecs(file).Some? ::
          Read(w, file, TextOf(raw, file)).Some?)
    && (forall raw, assets, file, text | w.builds(raw, assets) && MergeSpecs(file).Some?
          && Read(w, file, Some(text)) == Read(w, file, TextOf(raw, file)) ::
          w.builds(raw[file := text], assets))
  }

  /** A saved value reads back as it was. */
  ghost predicate RendersFaithfully(w: World) {
    forall file, value | IsNormal(w, file, value) :: Read(w, file, Some(w.render(value))) == Some(value)
  }

  /** What only the version's own text vouches for is what was shown, where the two have the same units. */
  lemma ReadIsShown(w: World, s: Registry, file: ConfigFile, value: Json, expected: Text, shown: Text)
    requires ParsersNormalize(w) && MergeSpecs(file).Some? && IsNormal(w, file, value)
    requires OverwritesOnlyItsVersion(w, s, file, value, expected)
    requires ToWrite(w, s, file, value, Some(expected)).Some?
    requires Read(w, file, shown).Some? && Read(w, file, expected).Some?
    requires SameUnits(MergeSpecs(file).value, Read(w, file, shown).value, Read(w, file, expected).value)
    ensures OverwritesOnlyWhatWasShown(w, s, file, value, expected, shown)
  {
    var spec := MergeSpecs(file).value;
    var onDisk := TextOf(s.files, file);
    var seen, base, theirs := Read(w, file, shown), Read(w, file, expected), Read(w, file, onDisk);
    ReadIsNormal(w, file, shown);
    ReadIsNormal(w, file, expected);
    ReadIsNormal(w, file, onDisk);
    forall unit | IsUnit(spec, seen, Some(value), theirs, unit)
      ensures IsUnit(spec, base, Some(value), theirs, unit) && At(seen, unit) == At(base, unit)
    {
      WellIndexedUnits(spec, seen, Some(value), theirs, seen, unit);
      WellIndexedUnits(spec, base, Some(value), theirs, seen, unit);
    }
  }

  lemma ShownVersionIsSafe(w: World, read: Registry, file: ConfigFile, steps: seq<Step>, value: Json)
    requires ParsersNormalize(w) && MergeSpecs(file).Some? && ShowsItsVersion(w, read, file)
    ensures SaveSparesTheUnseen(w, read, file, steps, value)
  {
    var s := Run(w, read, steps);
    var expected, shown := Version(read, file), Shown(read, file);
    if IsNormal(w, file, value) && Write(w, s, file, value, Some(expected)).1 == Saved {
      NoBlindOverwrite(w, s, file, value, expected);
      if shown != expected {
        ReadIsShown(w, s, file, value, expected, shown);
      }
    }
  }

  /** The version's text back on disk, every other file as it is in effect. */
  function VersionOnDisk(read: Registry, file: ConfigFile): Registry {
    read.(files := Put(read.inEffect, file, Version(read, file)))
  }

  lemma OneStep(w: World, s: Registry, step: Step)
    ensures Run(w, s, [step]) == Apply(w, s, step)
  {
    assert [step][..0] == [];
  }

  /** A save over the text its version names takes effect when what it writes loads with the other files. */
  lemma WriteThatLoads(w: World, s: Registry, file: ConfigFile, value: Json, expected: Text)
    requires TextOf(s.files, file) == expected && w.builds(s.files[file := w.render(value)], s.assets)
    ensures Write(w, s, file, value, Some(expected)).1 == Saved
  {}

  lemma ShownLoadsAgain(w: World, read: Registry, file: ConfigFile)
    requires LoadsByReading(w) && RendersFaithfully(w) && MergeSpecs(file).Some?
    requires w.builds(read.inEffect, read.assets)
    ensures var seen := Read(w, file, Shown(read, file));
            && seen.Some? && IsNormal(w, file, seen.value)
            && w.builds(read.inEffect[file := w.render(seen.value)], read.assets)
  {
    ReadIsNormal(w, file, Shown(read, file));
  }

  /** Saving what was shown, over the version's text, is a save that takes effect. */
  lemma SavingTheShownSucceeds(w: World, read: Registry, file: ConfigFile, value: Json)
    requires w.builds(read.inEffect[file := w.render(value)], read.assets)
    ensures Write(w, VersionOnDisk(read, file), file, value, Some(Version(read, file))).1 == Saved
  {
    var s := VersionOnDisk(read, file);
    assert s.files[file := w.render(value)] == read.inEffect[file := w.render(value)];
    WriteThatLoads(w, s, file, value, Version(read, file));
  }

  /** Saving the shown value over a text that differs from it in some unit, or cannot be read, replaces the unseen. */
  lemma DifferentTextIsReplaced(w: World, s: Registry, file: ConfigFile, spec: MergeSpec, expected: Text, shown: Text)
    requires ParserNormalizes(w, file, spec) && MergeSpecs(file) == Some(spec)
    requires TextOf(s.files, file) == expected != shown
    requires Read(w, file, shown).Some?
    requires Read(w, file, expected).Some? ==>
               !SameUnits(spec, Read(w, file, shown).value, Read(w, file, expected).value)
    ensures !OverwritesOnlyWhatWasShown(w, s, file, Read(w, file, shown).value, expected, shown)
  {
    var seen, theirs := Read(w, file, shown), Read(w, file, expected);
    if theirs.Some? {
      ReadIsNormal(w, file, shown);
      ReadIsNormal(w, file, expected);
      var unit :| IsUnit(spec, seen, seen, seen, unit) && At(seen, unit) != At(theirs, unit);
      WellIndexedUnits(spec, seen, seen, theirs, seen, unit);
    }
  }

  /** Saving the shown value takes effect over the version's text, and replaces what differs there. */
  lemma ShownReplacesTheVersion(w: World, read: Registry, file: ConfigFile)
    requires ParsersNormalize(w) && LoadsByReading(w) && RendersFaithfully(w) && MergeSpecs(file).Some?
    requires w.builds(read.inEffect, read.assets) && !ShowsItsVersion(w, read, file)
    ensures var s, seen := VersionOnDisk(read, file), Read(w, file, Shown(read, file));
            && seen.Some? && IsNormal(w, file, seen.value)
            && Write(w, s, file, seen.value, Some(Version(read, file))).1 == Saved
            && !OverwritesOnlyWhatWasShown(w, s, file, seen.value, Version(read, file), Shown(read, file))
  {
    var shown := Shown(read, file);
    ShownLoadsAgain(w, read, file);
    SavingTheShownSucceeds(w, read, file, Read(w, file, shown).value);
    DifferentTextIsReplaced(w, VersionOnDisk(read, file), file, MergeSpecs(file).value, Version(read, file), shown);
  }

  /** Where a read showed something else than its version's text, a save can replace what nobody saw. */
  lemma HiddenVersionIsUnsafe(w: World, read: Registry, file: ConfigFile)
    requires ParsersNormalize(w) && LoadsByReading(w) && RendersFaithfully(w) && MergeSpecs(file).Some?
    requires Protected(w, read) && read.loaded
    requires !ShowsItsVersion(w, read, file)
    ensures !EverySaveSparesTheUnseen(w, read, file)
  {
    var step := HandEdited(VersionOnDisk(read, file).files);
    ShownReplacesTheVersion(w, read, file);
    OneStep(w, read, step);
    assert !SaveSparesTheUnseen(w, read, file, [step], Read(w, file, Shown(read, file)).value);
  }

  /**
   * An editor that reads a file and saves under the version it was given, whatever happens in between,
   * overwrites only what it was shown, if and only if the read showed what is in the text its version
   * names. A file that loaded as it is on disk meets this.
   */
  lemma SavesSpareTheUnseenIff(w: World, read: Registry, file: ConfigFile)
    requires ParsersNormalize(w) && LoadsByReading(w) && RendersFaithfully(w) && MergeSpecs(file).Some?
    requires Protected(w, read) && read.loaded
    ensures EverySaveSparesTheUnseen(w, read, file) <==> ShowsItsVersion(w, read, file)
  {
    if ShowsItsVersion(w, read, file) {
      forall steps, value ensures SaveSparesTheUnseen(w, read, file, steps, value) {
        ShownVersionIsSafe(w, read, file, steps, value);
      }
    } else {
      HiddenVersionIsUnsafe(w, read, file);
    }
  }

  /** After a load the status names exactly the files of which a read shows another text than its version's. */
  lemma StatusNamesTheHidden(w: World, s: Registry, file: ConfigFile)
    requires Load(w, s).Some?
    ensures Some(file) in Reload(w, s).issues <==> Shown(Reload(w, s), file) != Version(Reload(w, s), file)
  {
    var loaded := Load(w, s).value;
    assert Shown(Reload(w, s), file) != Version(Reload(w, s), file) <==> file in loaded.reverted by {
      LoadIsolatesTheCulprit(w, s.files, s.lastGood, s.assets);
    }
    IssuesListFiles(loaded.reverted, file);
  }

  lemma IssuesListFiles(files: seq<ConfigFile>, file: ConfigFile)
    ensures Some(file) in OnFiles(files) <==> file in files
  {
    if file in files {
      var i :| 0 <= i < |files| && files[i] == file;
      assert OnFiles(files)[i] == Some(file);
    }
  }

  /** What the parsers of a world without content make of any JSON. */
  function Empty(file: ConfigFile): Json {
    if MergeSpecs(file).Some? && MergeSpecs(file).value.List? then Arr([]) else Obj(map[])
  }

  /** A world whose files must be JSON, whatever they say. */
  const STRICT := World(
    (raw: Files, assets: Assets) =>
      Fleet in raw && Vehicles in raw && Formations in raw && Scenes in raw && forall file | file in raw :: raw[file] != "{",
    (text: string) => if text == "{" then None else Some(Null),
    (value: Json) => "null",
    (file: ConfigFile, value: Json) => Some(Empty(file)))

  lemma StrictReads(file: ConfigFile, text: Text)
    ensures Read(STRICT, file, text) == if text == Some("{") then None else Some(Empty(file))
  {}

  lemma EmptyIsIndexed(file: ConfigFile)
    requires MergeSpecs(file).Some?
    ensures WellIndexed(MergeSpecs(file).value, Some(Empty(file)))
  {}

  lemma StrictParsersNormalize()
    ensures ParsersNormalize(STRICT)
  {
    forall file | MergeSpecs(file).Some? ensures ParserNormalizes(STRICT, file, MergeSpecs(file).value) {
      EmptyIsIndexed(file);
      StrictParserNormalizes(file, MergeSpecs(file).value);
    }
  }

  lemma StrictParserNormalizes(file: ConfigFile, spec: MergeSpec)
    requires WellIndexed(spec, Some(Empty(file)))
    ensures ParserNormalizes(STRICT, file, spec)
  {
    forall raw, value | Normalizes(STRICT, file, raw, value) && AllUnitsNormal(STRICT, file, spec, raw)
      ensures SameUnits(spec, raw, value)
    {
      forall unit | IsUnit(spec, Some(raw), Some(raw), Some(raw), unit) ensures At(Some(raw), unit) == At(Some(value), unit) {
        assert NormalUnit(STRICT, file, unit, At(Some(raw), unit));
      }
    }
  }

  lemma StrictLoadsByReading()
    ensures LoadsByReading(STRICT) && RendersFaithfully(STRICT) && RequiresRequired(STRICT)
  {
    forall raw, assets, file | STRICT.builds(raw, assets) && MergeSpecs(file).Some?
      ensures Read(STRICT, file, TextOf(raw, file)).Some?
    {
      StrictReads(file, TextOf(raw, file));
    }
    forall raw, assets, file, text | STRICT.builds(raw, assets) && MergeSpecs(file).Some?
        && Read(STRICT, file, Some(text)) == Read(STRICT, file, TextOf(raw, file))
      ensures STRICT.builds(raw[file := text], assets)
    {
      StrictReads(file, TextOf(raw, file));
      StrictReads(file, Some(text));
    }
    forall file, value | IsNormal(STRICT, file, value)
      ensures Read(STRICT, file, Some(STRICT.render(value))) == Some(value)
    {
      StrictReads(file, Some("null"));
    }
  }

  /** A healthy registry whose rules file was then broken by hand. */
  function Broken(healthy: Files): Registry {
    Registry(healthy[Rules := "{"], healthy, map[], true, healthy, healthy, map[], [])
  }

  predicate Healthy(files: Files) {
    STRICT.builds(files, map[]) && Rules in files
  }

  lemma SomeFilesAreHealthy()
    ensures Healthy(map[Fleet := "null", Vehicles := "null", Formations := "null", Scenes := "null", Rules := "null"])
  {}

  /** What a read says after the reload that reverts the rules. */
  ghost predicate ReadsReverted(read: Registry, healthy: Files) {
    && Shown(read, Rules) == TextOf(healthy, Rules) && Version(read, Rules) == Some("{") != Shown(read, Rules)
    && read.files == healthy[Rules := "{"] && read.assets == map[]
    && Protected(STRICT, read) && read.loaded
  }

  lemma BrokenRulesAreReverted(healthy: Files)
    requires Healthy(healthy)
    ensures ReadsReverted(Reload(STRICT, Broken(healthy)), healthy)
  {
    var s := Broken(healthy);
    StrictLoadsByReading();
    LastGoodIsAFallback(STRICT, s.files, healthy, map[]);
    FirstLoadProtects(STRICT, s);
    RevertedIsLastGood(s, Rules);
  }

  /** A file that cannot be read is reverted by any load that succeeds. */
  lemma RevertedIsLastGood(s: Registry, file: ConfigFile)
    requires Load(STRICT, s).Some? && TextOf(s.files, file) == Some("{")
    ensures Shown(Reload(STRICT, s), file) == TextOf(s.lastGood, file) && Version(Reload(STRICT, s), file) == Some("{")
  {
    LoadIsolatesTheCulprit(STRICT, s.files, s.lastGood, s.assets);
    assert TextOf(Load(STRICT, s).value.raw, file) != Some("{");
  }

  /** A save under the version of this read takes effect, spares all its version names, and replaces what was not shown. */
  ghost predicate ReplacesTheUnseen(w: World, read: Registry, file: ConfigFile, value: Json) {
    && MergeSpecs(file).Some?
    && Write(w, read, file, value, Some(Version(read, file))).1 == Saved
    && OverwritesOnlyItsVersion(w, read, file, value, Version(read, file))
    && !OverwritesOnlyWhatWasShown(w, read, file, value, Version(read, file), Shown(read, file))
  }

  lemma UnreadableTextIsReplaced(w: World, read: Registry, file: ConfigFile, value: Json)
    requires MergeSpecs(file).Some?
    requires TextOf(read.files, file) == Version(read, file) != Shown(read, file)
    requires Read(w, file, Version(read, file)).None?
    requires w.builds(read.files[file := w.render(value)], read.assets)
    ensures ReplacesTheUnseen(w, read, file, value)
  {
    WriteThatLoads(w, read, file, value, Version(read, file));
  }

  /** This world and such a read meet what `SavesSpareTheUnseenIff` asks, and the read showed another text. */
  lemma RevertedReadIsCovered(read: Registry, healthy: Files)
    requires Healthy(healthy) && ReadsReverted(read, healthy)
    ensures ParsersNormalize(STRICT) && LoadsByReading(STRICT) && RendersFaithfully(STRICT) && MergeSpecs(Rules).Some?
    ensures !EverySaveSparesTheUnseen(STRICT, read, Rules)
  {
    StrictParsersNormalize();
    StrictLoadsByReading();
    StrictReads(Rules, Some("{"));
    SavesSpareTheUnseenIff(STRICT, read, Rules);
  }

  lemma RevertedTextIsReplaced(read: Registry, healthy: Files)
    requires Healthy(healthy) && ReadsReverted(read, healthy)
    ensures ReplacesTheUnseen(STRICT, read, Rules, Empty(Rules))
  {
    StrictReads(Rules, Some("{"));
    assert read.files[Rules := "null"] == healthy[Rules := "null"];
    UnreadableTextIsReplaced(STRICT, read, Rules, Empty(Rules));
  }

  /**
   * An editor opens the rules after a hand edit broke them, changes nothing and saves under the version
   * given: the save takes effect, the edit is gone, and nobody saw it.
   */
  lemma BrokenTextIsOverwrittenUnseen(healthy: Files)
    requires Healthy(healthy)
    ensures var read := Reload(STRICT, Broken(healthy));
            && ReplacesTheUnseen(STRICT, read, Rules, Empty(Rules))
            && MergeSpecs(Rules).Some? && !EverySaveSparesTheUnseen(STRICT, read, Rules)
  {
    BrokenRulesAreReverted(healthy);
    RevertedReadIsCovered(Reload(STRICT, Broken(healthy)), healthy);
    RevertedTextIsReplaced(Reload(STRICT, Broken(healthy)), healthy);
  }
}
