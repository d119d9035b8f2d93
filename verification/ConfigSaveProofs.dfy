/**
 * What a save answers and what it stores (`backend/src/configRegistry.ts`, `writeConfigAndApply`): the
 * editor's own edit arrives, on top of everybody else's, whenever the two can be told apart.
 */
module ConfigSaveProofs {
  import opened Wrappers
  import opened ConfigMerge
  import opened ConfigMergeProofs
  import opened ConfigSteps
  import opened ConfigProofs

  // ---------------------------------------------------------------------------
  // The units of each file
  // ---------------------------------------------------------------------------

  /** What can be edited side by side in a file; `fleet.json` is never merged. */
  predicate FileUnit(file: ConfigFile, unit: Unit) {
    match file
    case Fleet => false
    case Vehicles => unit.Entry? && unit.key == "deviceId"
    case Formations => unit.Entry? && unit.key == "formationId"
    case Scenes => unit.Entry? && unit.key == "sceneId"
    case Codebook => unit.Entry? && unit.key == "code"
    case Rules => unit.Under? && unit.inner.Whole?
    case Notify =>
      unit.Under? &&
      (if unit.field == "channels" then unit.inner.Entry? && unit.inner.key == "id"
       else if unit.field == "groups" then unit.inner.Under? && unit.inner.inner.Whole?
       else unit.inner.Whole?)
    case Reports =>
      unit.Under? && if unit.field == "schedules" then unit.inner.Entry? && unit.inner.key == "id" else unit.inner.Whole?
  }

  lemma ListUnits(key: string, base: Side, ours: Side, theirs: Side, unit: Unit)
    requires WellIndexed(List(key), base) && WellIndexed(List(key), ours) && WellIndexed(List(key), theirs)
    ensures IsUnit(List(key), base, ours, theirs, unit) <==> unit.Entry? && unit.key == key
  {}

  /** A record whose fields are merged whole. */
  lemma RecordUnits(base: Side, ours: Side, theirs: Side, unit: Unit)
    requires RecordShaped(base) && RecordShaped(ours) && RecordShaped(theirs)
    ensures IsUnit(Record(map[]), base, ours, theirs, unit) <==> unit.Under? && unit.inner.Whole?
  {}

  lemma FieldsWellIndexed(fields: map<string, MergeSpec>, side: Side, name: string)
    requires WellIndexed(Record(fields), side)
    ensures RecordShaped(side) && (name in fields ==> WellIndexed(fields[name], Field(side, name)))
  {}

  lemma NotifyUnits(base: Side, ours: Side, theirs: Side, unit: Unit)
    requires var spec := MergeSpecs(Notify).value;
             WellIndexed(spec, base) && WellIndexed(spec, ours) && WellIndexed(spec, theirs)
    ensures IsUnit(MergeSpecs(Notify).value, base, ours, theirs, unit) <==> FileUnit(Notify, unit)
  {
    if unit.Under? {
      var fields, name := MergeSpecs(Notify).value.fields, unit.field;
      FieldsWellIndexed(fields, base, name);
      FieldsWellIndexed(fields, ours, name);
      FieldsWellIndexed(fields, theirs, name);
      if name == "channels" {
        ListUnits("id", Field(base, name), Field(ours, name), Field(theirs, name), unit.inner);
      } else if name == "groups" {
        RecordUnits(Field(base, name), Field(ours, name), Field(theirs, name), unit.inner);
      }
    }
  }

  lemma ReportsUnits(base: Side, ours: Side, theirs: Side, unit: Unit)
    requires var spec := MergeSpecs(Reports).value;
             WellIndexed(spec, base) && WellIndexed(spec, ours) && WellIndexed(spec, theirs)
    ensures IsUnit(MergeSpecs(Reports).value, base, ours, theirs, unit) <==> FileUnit(Reports, unit)
  {
    if unit.Under? {
      var fields, name := MergeSpecs(Reports).value.fields, unit.field;
      FieldsWellIndexed(fields, base, name);
      FieldsWellIndexed(fields, ours, name);
      FieldsWellIndexed(fields, theirs, name);
      if name == "schedules" {
        ListUnits("id", Field(base, name), Field(ours, name), Field(theirs, name), unit.inner);
      }
    }
  }

  /** A merge of a file's values has exactly these units. */
  lemma FileUnits(file: ConfigFile, base: Json, ours: Json, theirs: Json, unit: Unit)
    requires MergeSpecs(file).Some?
    requires var spec := MergeSpecs(file).value;
             WellIndexed(spec, Some(base)) && WellIndexed(spec, Some(ours)) && WellIndexed(spec, Some(theirs))
    ensures IsUnit(MergeSpecs(file).value, Some(base), Some(ours), Some(theirs), unit) <==> FileUnit(file, unit)
  {
    match file
    case Notify => NotifyUnits(Some(base), Some(ours), Some(theirs), unit);
    case Reports => ReportsUnits(Some(base), Some(ours), Some(theirs), unit);
    case _ =>
  }

  /** An entry with this id: a string or a number under the key. */
  predicate HasId(entry: Json, key: string, id: string) {
    entry.Obj? && key in entry.fields && (entry.fields[key] == Str(id) || entry.fields[key] == Num(id))
  }

  ghost predicate HasSomeId(entry: Json, key: string) {
    exists id :: HasId(entry, key, id)
  }

  /** Every entry has an id, and no two have the same. */
  ghost predicate HaveDistinctIds(items: seq<Json>, key: string) {
    && (forall i | 0 <= i < |items| :: HasSomeId(items[i], key))
    && (forall i, j, id | 0 <= i < j < |items| && HasId(items[i], key, id) :: !HasId(items[j], key, id))
  }

  lemma IdIs(entry: Json, key: string, id: string)
    ensures HasId(entry, key, id) <==> IdOf(entry, key) == Some(id)
  {}

  /** A list is merged entry by entry exactly when its entries have ids that tell them apart. */
  lemma ListsMergeByTheirIds(items: seq<Json>, key: string)
    ensures WellIndexed(List(key), Some(Arr(items))) <==> HaveDistinctIds(items, key)
  {
    if Indexable(items, key) {
      forall i | 0 <= i < |items| ensures HasSomeId(items[i], key) {
        IdIs(items[i], key, IdOf(items[i], key).value);
      }
      forall i, j, id | 0 <= i < j < |items| && HasId(items[i], key, id) ensures !HasId(items[j], key, id) {
        IdIs(items[i], key, id);
        IdIs(items[j], key, id);
      }
    }
    if HaveDistinctIds(items, key) {
      forall i | 0 <= i < |items| ensures IdOf(items[i], key).Some? {
        assert HasSomeId(items[i], key);
        var id :| HasId(items[i], key, id);
        IdIs(items[i], key, id);
      }
      forall i, j | 0 <= i < j < |items| ensures IdOf(items[i], key) != IdOf(items[j], key) {
        IdIs(items[i], key, IdOf(items[i], key).value);
        IdIs(items[j], key, IdOf(items[i], key).value);
      }
    }
  }

  /** The entry at an id is the one of the list that has it, if one does. */
  lemma {:induction false} EntryIsFoundByItsId(items: seq<Json>, key: string, id: string)
    ensures var found := At(Some(Arr(items)), Entry(key, id));
            && (found.Some? <==> exists entry <- items :: HasId(entry, key, id))
            && (found.Some? ==> found.value in items && HasId(found.value, key, id))
  {
    if items != [] {
      EntryIsFoundByItsId(items[1..], key, id);
      assert forall entry <- items :: entry == items[0] || entry in items[1..];
      assert items[0] in items;
    }
  }

  // ---------------------------------------------------------------------------
  // A save carries the edit
  // ---------------------------------------------------------------------------

  /** The editor's value where it differs from what it was made from; everywhere else what is on disk. */
  ghost predicate CarriesTheEdit(file: ConfigFile, base: Json, value: Json, onDisk: Json, written: Json) {
    forall unit | FileUnit(file, unit) ::
      At(Some(written), unit)
      == if At(Some(value), unit) != At(Some(base), unit) then At(Some(value), unit) else At(Some(onDisk), unit)
  }

  /**
   * What a save under an expected version leaves on disk: the value as sent if that version was on disk, else
   * the edit made to it, on top of what was on disk.
   */
  ghost predicate StoresTheEdit(
    w: World, before: Registry, after: Registry, file: ConfigFile, value: Json, expected: Text, written: Json)
  {
    var base, onDisk := Read(w, file, expected), Read(w, file, TextOf(before.files, file));
    && TextOf(after.files, file) == Some(w.render(written))
    && if TextOf(before.files, file) == expected then written == value
       else base.Some? && onDisk.Some? && CarriesTheEdit(file, base.value, value, onDisk.value, written)
  }

  lemma ParsedIsWellIndexed(w: World, file: ConfigFile, value: Json)
    requires ParsersNormalize(w) && MergeSpecs(file).Some? && IsNormal(w, file, value)
    ensures WellIndexed(MergeSpecs(file).value, Some(value))
  {
    var raw :| Normalizes(w, file, raw, value);
  }

  lemma MergedCarriesTheEdit(w: World, file: ConfigFile, b: Json, ours: Json, t: Json, merged: Json, written: Json)
    requires ParsersNormalize(w) && MergeSpecs(file).Some?
    requires IsNormal(w, file, b) && IsNormal(w, file, ours) && IsNormal(w, file, t)
    requires MergeWith(MergeSpecs(file).value, Some(b), Some(ours), Some(t)) == Value(Some(merged))
    requires Normalizes(w, file, merged, written)
    ensures CarriesTheEdit(file, b, ours, t, written)
  {
    var spec := MergeSpecs(file).value;
    ParsedIsWellIndexed(w, file, b);
    ParsedIsWellIndexed(w, file, ours);
    ParsedIsWellIndexed(w, file, t);
    forall unit | FileUnit(file, unit)
      ensures At(Some(written), unit) == if At(Some(ours), unit) != At(Some(b), unit) then At(Some(ours), unit) else At(Some(t), unit)
    {
      FileUnits(file, b, ours, t, unit);
      ParserKeepsMergedUnit(w, file, spec, b, ours, t, merged, written, unit);
      CarriesBothSides(spec, Some(b), Some(ours), Some(t), unit);
    }
  }

  /**
   * A save that is answered "saved" stores the edit: each unit in which the value sent differs from the one in
   * the version it names is on disk as sent, and every other unit is as it was on disk.
   */
  lemma SavedCarriesTheEdit(w: World, s: Registry, file: ConfigFile, value: Json, expected: Text) returns (written: Json)
    requires ParsersNormalize(w) && IsNormal(w, file, value)
    requires Write(w, s, file, value, Some(expected)).1 == Saved
    ensures StoresTheEdit(w, s, Write(w, s, file, value, Some(expected)).0, file, value, expected, written)
  {
    WriteIsAllOrNothing(w, s, file, value, Some(expected));
    written := ToWrite(w, s, file, value, Some(expected)).value;
    if TextOf(s.files, file) != expected {
      var b, t := Read(w, file, expected).value, Read(w, file, TextOf(s.files, file)).value;
      var merged := MergeWith(MergeSpecs(file).value, Some(b), Some(value), Some(t)).value.value;
      ReadIsNormal(w, file, expected);
      ReadIsNormal(w, file, TextOf(s.files, file));
      MergedCarriesTheEdit(w, file, b, value, t, merged, written);
    }
  }

  lemma StepOfRun(w: World, s: Registry, steps: seq<Step>, i: nat)
    requires i < |steps|
    ensures Before(w, s, steps, i + 1) == Apply(w, Before(w, s, steps, i), steps[i])
  {
    assert steps[..i + 1][..i] == steps[..i];
  }

  /** Along any run every guarded save stores its edit, or is answered otherwise and changes nothing. */
  lemma SavesCarryEditsOverRuns(w: World, s: Registry, steps: seq<Step>, i: nat)
    requires ParsersNormalize(w) && i < |steps| && steps[i].Wrote? && steps[i].expected.Some?
    requires IsNormal(w, steps[i].file, steps[i].value)
    ensures var before, after, step := Before(w, s, steps, i), Before(w, s, steps, i + 1), steps[i];
            if Write(w, before, step.file, step.value, step.expected).1 == Saved
            then exists written :: StoresTheEdit(w, before, after, step.file, step.value, step.expected.value, written)
            else after == before
  {
    var before, step := Before(w, s, steps, i), steps[i];
    StepOfRun(w, s, steps, i);
    WriteIsAllOrNothing(w, before, step.file, step.value, step.expected);
    if Write(w, before, step.file, step.value, step.expected).1 == Saved {
      var written := SavedCarriesTheEdit(w, before, step.file, step.value, step.expected.value);
    }
  }

  // ---------------------------------------------------------------------------
  // The versions the registry knows
  // ---------------------------------------------------------------------------

  /** The step loads the files on disk and makes them the configuration in effect. */
  predicate Commits(w: World, s: Registry, step: Step) {
    match step
    case Reloaded => Load(w, s).Some?
    case Wrote(file, value, expected) => Write(w, s, file, value, expected).1 == Saved
    case Uploaded(path, bytes) => WriteAsset(w, s, path, bytes).1 == Saved
    case _ => false
  }

  /** The texts of a file that were on disk at each commit since the process started. */
  function Committed(w: World, s: Registry, steps: seq<Step>, file: ConfigFile): seq<Text> {
    if steps == [] then []
    else
      var front, last := steps[..|steps| - 1], steps[|steps| - 1];
      if last.Restarted? then []
      else if Commits(w, Run(w, s, front), last)
      then Committed(w, s, front, file) + [TextOf(Run(w, s, steps).files, file)]
      else Committed(w, s, front, file)
  }

  /** The texts that come after the last occurrence of this one. */
  function Later(texts: seq<Text>, text: Text): set<Text> {
    if texts == [] || texts[|texts| - 1] == text then {}
    else Later(texts[..|texts| - 1], text) + {texts[|texts| - 1]}
  }

  /** One of the last twenty texts. */
  predicate AmongTheLast20(texts: seq<Text>, text: Text) {
    text in texts && |Later(texts, text)| < 20
  }

  /** The history has the last texts and no other, in the order they were last committed. */
  ghost predicate Remembers(history: seq<Text>, texts: seq<Text>) {
    && Distinct(history) && |history| <= 20
    && (forall text <- history :: text in texts && Later(history, text) == Later(texts, text))
    && (forall text <- texts :: text !in history ==> |Later(texts, text)| >= 20)
  }

  lemma LaterAppend(texts: seq<Text>, text: Text, other: Text)
    ensures Later(texts + [text], other) == if text == other then {} else Later(texts, other) + {text}
  {
    assert (texts + [text])[..|texts|] == texts;
  }

  lemma DistinctAppend(texts: seq<Text>, text: Text)
    requires Distinct(texts) && text !in texts
    ensures Distinct(texts + [text])
  {}

  lemma {:induction false} WithoutTextFacts(history: seq<Text>, text: Text)
    requires Distinct(history)
    ensures var rest := WithoutText(history, text);
            && Distinct(rest) && |rest| <= |history|
            && (forall other :: other in rest <==> other in history && other != text)
    ensures forall other | other != text :: Later(WithoutText(history, text), other) == Later(history, other) - {text}
  {
    if history != [] {
      var front, last := history[..|history| - 1], history[|history| - 1];
      assert history == front + [last];
      WithoutTextFacts(front, text);
      DistinctAppend(WithoutText(front, text), last);
      forall other | other != text
        ensures Later(WithoutText(history, text), other) == Later(history, other) - {text}
      {
        LaterAppend(WithoutText(front, text), last, other);
      }
    }
  }

  lemma {:induction false} LaterIsInside(texts: seq<Text>, text: Text)
    requires text in texts
    ensures |Later(texts, text)| <= |texts| - 1 && forall other <- Later(texts, text) :: other in texts
  {
    var front := texts[..|texts| - 1];
    if texts[|texts| - 1] != text {
      assert texts == front + [texts[|texts| - 1]];
      LaterIsInside(front, text);
    }
  }

  /** In a list without repetitions, everything else comes after the first. */
  lemma {:induction false} LaterThanTheFirst(texts: seq<Text>)
    requires texts != [] && Distinct(texts)
    ensures |Later(texts, texts[0])| == |texts| - 1
  {
    if |texts| > 1 {
      var front, last := texts[..|texts| - 1], texts[|texts| - 1];
      LaterThanTheFirst(front);
      LaterIsInside(front, texts[0]);
      assert last !in front;
    }
  }

  lemma {:induction false} LaterAfterDrop(texts: seq<Text>, text: Text)
    requires texts != [] && text in texts[1..]
    ensures Later(texts[1..], text) == Later(texts, text)
  {
    var front := texts[..|texts| - 1];
    if texts[|texts| - 1] != text {
      assert texts[1..][..|texts| - 2] == front[1..];
      assert texts[1..] == front[1..] + [texts[|texts| - 1]];
      LaterAfterDrop(front, text);
    }
  }

  lemma FewerTexts(small: set<Text>, large: set<Text>)
    requires small <= large
    ensures |small| <= |large|
  {
    assert large == small + (large - small);
  }

  /** Committing moves the text to the end of the untrimmed history. */
  lemma MovedToTheEnd(history: seq<Text>, texts: seq<Text>, text: Text)
    requires Remembers(history, texts)
    ensures var moved, now := WithoutText(history, text) + [text], texts + [text];
            && Distinct(moved) && |moved| <= 21
            && (forall other <- moved :: other in now && Later(moved, other) == Later(now, other))
            && (forall other <- now :: other !in moved ==> |Later(now, other)| >= 20)
  {
    var rest, moved, now := WithoutText(history, text), WithoutText(history, text) + [text], texts + [text];
    WithoutTextFacts(history, text);
    DistinctAppend(rest, text);
    forall other | other in moved ensures other in now && Later(moved, other) == Later(now, other) {
      LaterAppend(rest, text, other);
      LaterAppend(texts, text, other);
      assert other == text || other in history;
    }
    forall other | other in now && other !in moved ensures |Later(now, other)| >= 20 {
      LaterAppend(texts, text, other);
      assert other in texts && other !in history;
      FewerTexts(Later(texts, other), Later(now, other));
    }
  }

  lemma RememberStep(history: seq<Text>, texts: seq<Text>, text: Text)
    requires Remembers(history, texts)
    ensures Remembers(Remember(history, text), texts + [text])
  {
    var moved, now := WithoutText(history, text) + [text], texts + [text];
    MovedToTheEnd(history, texts, text);
    if |moved| > 20 {
      assert Remember(history, text) == moved[1..];
      forall other | other in moved[1..] ensures Later(moved[1..], other) == Later(now, other) {
        LaterAfterDrop(moved, other);
      }
      LaterThanTheFirst(moved);
      forall other | other in now && other !in moved[1..] ensures |Later(now, other)| >= 20 {
        if other in moved { assert other == moved[0]; }
      }
    }
  }

  lemma CommitRemembers(s: Registry, loaded: Loaded, file: ConfigFile, texts: seq<Text>)
    requires Remembers(HistoryOf(s.versionTexts, file), texts)
    ensures Remembers(HistoryOf(Commit(s, loaded).versionTexts, file), texts + [TextOf(loaded.current, file)])
  {
    EveryFileIsListed(file);
    RememberStep(HistoryOf(s.versionTexts, file), texts, TextOf(loaded.current, file));
  }

  lemma StepRemembers(w: World, s: Registry, step: Step, file: ConfigFile, texts: seq<Text>)
    requires Remembers(HistoryOf(s.versionTexts, file), texts)
    ensures var after := Apply(w, s, step);
            Remembers(HistoryOf(after.versionTexts, file),
                      if step.Restarted? then []
                      else if Commits(w, s, step) then texts + [TextOf(after.files, file)] else texts)
  {
    match step
    case Reloaded => if Load(w, s).Some? { LoadedIsOnDisk(w, s); CommitRemembers(s, Load(w, s).value, file, texts); }
    case Wrote(target, value, expected) =>
      WriteIsAllOrNothing(w, s, target, value, expected);
      if Commits(w, s, step) {
        var next := s.(files := s.files[target := w.render(ToWrite(w, s, target, value, expected).value)]);
        LoadedIsOnDisk(w, next);
        CommitRemembers(next, Load(w, next).value, file, texts);
      }
    case Uploaded(path, bytes) =>
      UploadIsAllOrNothing(w, s, path, bytes);
      if Commits(w, s, step) {
        var next := s.(assets := s.assets[path := bytes]);
        LoadedIsOnDisk(w, next);
        CommitRemembers(next, Load(w, next).value, file, texts);
      }
    case _ =>
  }

  lemma LoadedIsOnDisk(w: World, s: Registry)
    requires Load(w, s).Some?
    ensures Load(w, s).value.current == s.files
  {
    LoadIsolatesTheCulprit(w, s.files, s.lastGood, s.assets);
  }

  lemma {:induction false} RunsRemember(w: World, s: Registry, steps: seq<Step>, file: ConfigFile)
    requires s.versionTexts == map[]
    ensures Remembers(HistoryOf(Run(w, s, steps).versionTexts, file), Committed(w, s, steps, file))
  {
    if steps != [] {
      var front, last := steps[..|steps| - 1], steps[|steps| - 1];
      RunsRemember(w, s, front, file);
      StepRemembers(w, Run(w, s, front), last, file, Committed(w, s, front, file));
    }
  }

  /** Over any run the versions that can be merged from are the last twenty texts committed since the start. */
  lemma KnownVersionsAreTheLast20(w: World, s: Registry, steps: seq<Step>, file: ConfigFile, text: Text)
    requires s.versionTexts == map[]
    ensures text in HistoryOf(Run(w, s, steps).versionTexts, file)
       <==> AmongTheLast20(Committed(w, s, steps, file), text)
  {
    RunsRemember(w, s, steps, file);
    var history := HistoryOf(Run(w, s, steps).versionTexts, file);
    if text in history { LaterIsInside(history, text); }
  }

  // ---------------------------------------------------------------------------
  // What a save answers
  // ---------------------------------------------------------------------------

  /** With this value on disk a load succeeds and does not revert the file. */
  predicate TakesEffect(w: World, s: Registry, file: ConfigFile, written: Json) {
    var loaded := Load(w, s.(files := s.files[file := w.render(written)]));
    loaded.Some? && file !in loaded.value.reverted
  }

  /** No unit was changed on both sides, and differently. */
  ghost predicate NoClash(file: ConfigFile, base: Json, ours: Json, theirs: Json) {
    forall unit | FileUnit(file, unit) :: !ClashAt(Some(base), Some(ours), Some(theirs), unit)
  }

  /** The file can be merged, both versions can be read, and the two edits can be told apart. */
  ghost predicate TellsApart(w: World, file: ConfigFile, value: Json, expected: Text, onDisk: Text) {
    var base, theirs := Read(w, file, expected), Read(w, file, onDisk);
    file != Fleet && base.Some? && theirs.Some? && NoClash(file, base.value, value, theirs.value)
  }

  /** The merge of a file's values, as far as there is one. */
  function MergedValue(file: ConfigFile, base: Json, ours: Json, theirs: Json): Side {
    if MergeSpecs(file).None? then None
    else
      var merged := MergeWith(MergeSpecs(file).value, Some(base), Some(ours), Some(theirs));
      if merged.Conflict? then None else merged.value
  }

  lemma MergesUnlessClash(w: World, file: ConfigFile, b: Json, ours: Json, t: Json)
    requires ParsersNormalize(w) && MergeSpecs(file).Some?
    requires IsNormal(w, file, b) && IsNormal(w, file, ours) && IsNormal(w, file, t)
    ensures var merged := MergeWith(MergeSpecs(file).value, Some(b), Some(ours), Some(t));
            && (merged.Conflict? <==> !NoClash(file, b, ours, t))
            && (merged.Value? ==> merged.value.Some?)
  {
    var spec := MergeSpecs(file).value;
    ParsedIsWellIndexed(w, file, b);
    ParsedIsWellIndexed(w, file, ours);
    ParsedIsWellIndexed(w, file, t);
    ConflictIffClash(spec, Some(b), Some(ours), Some(t));
    forall unit
      ensures IsUnit(spec, Some(b), Some(ours), Some(t), unit) <==> FileUnit(file, unit)
    {
      FileUnits(file, b, ours, t, unit);
    }
  }

  /** A save without an expected version, or under the one on disk, is applied as sent or rolled back. */
  lemma UncontestedSaveAnswers(w: World, s: Registry, file: ConfigFile, value: Json, expected: Option<Text>)
    requires expected.None? || expected.value == TextOf(s.files, file)
    ensures Write(w, s, file, value, expected).1 == if TakesEffect(w, s, file, value) then Saved else NotApplied
  {}

  lemma MergesTheReadings(w: World, s: Registry, file: ConfigFile, value: Json, expected: Text)
    requires MergeSpecs(file).Some? && expected in HistoryOf(s.versionTexts, file) && expected != TextOf(s.files, file)
    requires Read(w, file, expected).Some? && Read(w, file, TextOf(s.files, file)).Some?
    ensures ToWrite(w, s, file, value, Some(expected))
         == MergeReadings(w, file, MergeSpecs(file).value, Read(w, file, expected).value, value,
                          Read(w, file, TextOf(s.files, file)).value)
  {}

  lemma ReadingsAreMerged(w: World, file: ConfigFile, b: Json, ours: Json, t: Json)
    requires ParsersNormalize(w) && file != Fleet && NoClash(file, b, ours, t)
    requires IsNormal(w, file, b) && IsNormal(w, file, ours) && IsNormal(w, file, t)
    ensures var merged := MergedValue(file, b, ours, t);
            merged.Some? && MergeReadings(w, file, MergeSpecs(file).value, b, ours, t) == w.normalize(file, merged.value)
  {
    MergesUnlessClash(w, file, b, ours, t);
  }

  lemma ClashingReadings(w: World, file: ConfigFile, b: Json, ours: Json, t: Json)
    requires ParsersNormalize(w) && file != Fleet && !NoClash(file, b, ours, t)
    requires IsNormal(w, file, b) && IsNormal(w, file, ours) && IsNormal(w, file, t)
    ensures MergeReadings(w, file, MergeSpecs(file).value, b, ours, t) == None
  {
    MergesUnlessClash(w, file, b, ours, t);
  }

  lemma NothingIsMerged(w: World, s: Registry, file: ConfigFile, value: Json, expected: Text)
    requires expected != TextOf(s.files, file)
    requires file == Fleet || expected !in HistoryOf(s.versionTexts, file)
             || Read(w, file, expected).None? || Read(w, file, TextOf(s.files, file)).None?
    ensures ToWrite(w, s, file, value, Some(expected)) == None
  {}

  lemma MergedIsWritten(w: World, s: Registry, file: ConfigFile, value: Json, expected: Text)
    requires ParsersNormalize(w) && IsNormal(w, file, value) && expected != TextOf(s.files, file)
    requires TellsApart(w, file, value, expected, TextOf(s.files, file)) && expected in HistoryOf(s.versionTexts, file)
    ensures var merged := MergedValue(file, Read(w, file, expected).value, value, Read(w, file, TextOf(s.files, file)).value);
            merged.Some? && ToWrite(w, s, file, value, Some(expected)) == w.normalize(file, merged.value)
  {
    ReadIsNormal(w, file, expected);
    ReadIsNormal(w, file, TextOf(s.files, file));
    MergesTheReadings(w, s, file, value, expected);
    ReadingsAreMerged(w, file, Read(w, file, expected).value, value, Read(w, file, TextOf(s.files, file)).value);
  }

  lemma WrittenAnswers(w: World, s: Registry, file: ConfigFile, value: Json, expected: Option<Text>)
    ensures var parsed := ToWrite(w, s, file, value, expected);
            Write(w, s, file, value, expected).1
            == if parsed.None? then Conflicted else if TakesEffect(w, s, file, parsed.value) then Saved else NotApplied
  {}

  /** The same, told by the history the registry holds. */
  lemma MergedSaveAnswers(w: World, s: Registry, file: ConfigFile, value: Json, expected: Text)
    requires ParsersNormalize(w) && IsNormal(w, file, value) && expected != TextOf(s.files, file)
    requires TellsApart(w, file, value, expected, TextOf(s.files, file)) && expected in HistoryOf(s.versionTexts, file)
    ensures var merged := MergedValue(file, Read(w, file, expected).value, value, Read(w, file, TextOf(s.files, file)).value);
            && merged.Some?
            && var parsed := w.normalize(file, merged.value);
               Write(w, s, file, value, Some(expected)).1
               == if parsed.None? then Conflicted else if TakesEffect(w, s, file, parsed.value) then Saved else NotApplied
  {
    MergedIsWritten(w, s, file, value, expected);
    WrittenAnswers(w, s, file, value, Some(expected));
  }

  lemma UnmergedSaveConflicts(w: World, s: Registry, file: ConfigFile, value: Json, expected: Text)
    requires ParsersNormalize(w) && IsNormal(w, file, value) && expected != TextOf(s.files, file)
    requires !TellsApart(w, file, value, expected, TextOf(s.files, file)) || expected !in HistoryOf(s.versionTexts, file)
    ensures Write(w, s, file, value, Some(expected)).1 == Conflicted
  {
    var b, t := Read(w, file, expected), Read(w, file, TextOf(s.files, file));
    if file != Fleet && b.Some? && t.Some? && expected in HistoryOf(s.versionTexts, file) {
      ReadIsNormal(w, file, expected);
      ReadIsNormal(w, file, TextOf(s.files, file));
      MergesTheReadings(w, s, file, value, expected);
      ClashingReadings(w, file, b.value, value, t.value);
    } else {
      NothingIsMerged(w, s, file, value, expected);
    }
    WrittenAnswers(w, s, file, value, Some(expected));
  }

  /**
   * Exactly when a save over somebody else's is answered "saved", after any run: its version is among the last
   * twenty committed, the edits can be told apart, and what they make together passes the file's parser and
   * takes effect with the other files. Up to the parser it is a conflict, after it a rollback.
   */
  lemma ContestedSaveAnswers(w: World, s: Registry, steps: seq<Step>, file: ConfigFile, value: Json, expected: Text)
    requires ParsersNormalize(w) && IsNormal(w, file, value) && s.versionTexts == map[]
    requires expected != TextOf(Run(w, s, steps).files, file)
    ensures var now := Run(w, s, steps);
            var outcome, onDisk := Write(w, now, file, value, Some(expected)).1, TextOf(now.files, file);
            if AmongTheLast20(Committed(w, s, steps, file), expected) && TellsApart(w, file, value, expected, onDisk) then
              var merged := MergedValue(file, Read(w, file, expected).value, value, Read(w, file, onDisk).value);
              && merged.Some?
              && var parsed := w.normalize(file, merged.value);
                 outcome == if parsed.None? then Conflicted
                            else if TakesEffect(w, now, file, parsed.value) then Saved else NotApplied
            else outcome == Conflicted
  {
    var now := Run(w, s, steps);
    KnownVersionsAreTheLast20(w, s, steps, file, expected);
    if expected in HistoryOf(now.versionTexts, file) && TellsApart(w, file, value, expected, TextOf(now.files, file)) {
      MergedSaveAnswers(w, now, file, value, expected);
    } else {
      UnmergedSaveConflicts(w, now, file, value, expected);
    }
  }

  // ---------------------------------------------------------------------------
  // Reloads, uploads and fallbacks
  // ---------------------------------------------------------------------------

  /** A restart keeps what is on disk and forgets the rest. */
  lemma RestartKeepsTheDisk(w: World, s: Registry)
    ensures Apply(w, s, Restarted) == Registry(s.files, s.lastGood, s.assets, false, map[], map[], map[], [])
  {}

  /** A reload that fails keeps the configuration in effect and says so. */
  lemma FailedReloadKeepsEverything(w: World, s: Registry)
    requires Load(w, s).None?
    ensures Reload(w, s).issues == [None] && Reload(w, s).(issues := s.issues) == s
  {}

  /** An upload is refused before the first load; else it is kept if the files load and none is newly reverted. */
  lemma UploadAnswers(w: World, s: Registry, path: string, bytes: string)
    ensures var loaded := LoadWithFallback(w, s.files, s.lastGood, s.assets[path := bytes]);
            WriteAsset(w, s, path, bytes).1
            == if !s.loaded then NotLoaded
               else if loaded.Some? && forall file | file in loaded.value.reverted :: Some(file) in s.issues then Saved
               else NotApplied
  {}

  /** A file can be reverted when its text changed and there is a last-good copy or it has built-in defaults. */
  lemma WhatCanBeReverted(files: Files, lastGood: Files, file: ConfigFile)
    ensures file in Changed(files, lastGood)
       <==> TextOf(lastGood, file) != TextOf(files, file)
            && (file in lastGood || file == Rules || file == Codebook || file == Notify || file == Reports)
  {
    EveryFileIsListed(file);
  }
}
