/**
 * The config registry (`backend/src/configRegistry.ts`): eight files on disk, a last-good copy of
 * each, and a bounded history of past texts.
 *
 * A file's text stands for its own version token (the source hashes it). What a configuration
 * needs to load is the abstract predicate `World.builds`; JSON text and each file's parser are the
 * other parts of `World`. The registry serializes its operations, so each one is a step.
 */
module ConfigSteps {
  import opened Wrappers
  import opened ConfigMerge

  /** A file's text; None when the file does not exist. */
  type Text = Option<string>

  const FILES: seq<ConfigFile> := [Fleet, Vehicles, Formations, Scenes, Rules, Codebook, Notify, Reports]
  const VERSION_HISTORY: nat := 20

  predicate IsOptional(file: ConfigFile) {
    file == Rules || file == Codebook || file == Notify || file == Reports
  }

  lemma EveryFileIsListed(file: ConfigFile)
    ensures file in FILES
  {
    match file
    case Fleet => assert FILES[0] == Fleet;
    case Vehicles => assert FILES[1] == Vehicles;
    case Formations => assert FILES[2] == Formations;
    case Scenes => assert FILES[3] == Scenes;
    case Rules => assert FILES[4] == Rules;
    case Codebook => assert FILES[5] == Codebook;
    case Notify => assert FILES[6] == Notify;
    case Reports => assert FILES[7] == Reports;
  }

  /** A directory of config files: the text of each file that exists. */
  type Files = map<ConfigFile, string>

  function TextOf(files: Files, file: ConfigFile): Text {
    if file in files then Some(files[file]) else None
  }

  /** Write a file, or remove it when the text is absent. */
  function Put(files: Files, file: ConfigFile, text: Text): Files {
    if text.Some? then files[file := text.value] else files - {file}
  }

  /** Two directories with the same text for every file are the same directory. */
  lemma SameFiles(left: Files, right: Files)
    requires forall file: ConfigFile :: TextOf(left, file) == TextOf(right, file)
    ensures left == right
  {
    forall file: ConfigFile
      ensures file in left <==> file in right
      ensures file in left ==> left[file] == right[file]
    {
      assert TextOf(left, file) == TextOf(right, file);
    }
  }

  /** Putting the previous text back undoes a write. */
  lemma PutBack(files: Files, file: ConfigFile, text: string)
    ensures Put(files[file := text], file, TextOf(files, file)) == files
  {
  }

  /** Scene-map assets by path. */
  type Assets = map<string, string>

  /** What the registry depends on and this model leaves open. */
  datatype World = World(
    builds: (Files, Assets) -> bool,
    parse: string -> Option<Json>,
    render: Json -> string,
    normalize: (ConfigFile, Json) -> Option<Json>)

  /** A configuration never loads without its required files. */
  ghost predicate RequiresRequired(w: World) {
    forall raw, assets, file | w.builds(raw, assets) && !IsOptional(file) :: file in raw
  }

  /** The registry: what is on disk, then what the process holds. An issue on no file is None. */
  datatype Registry = Registry(
    files: Files,
    lastGood: Files,
    assets: Assets,
    loaded: bool,
    inEffect: Files,
    fileVersions: Files,
    versionTexts: map<ConfigFile, seq<Text>>,
    issues: seq<Option<ConfigFile>>)

  // ---------------------------------------------------------------------------
  // Loading with fallback
  // ---------------------------------------------------------------------------

  /** A loadable configuration, the texts it was assembled from, and the files it had to revert. */
  datatype Loaded = Loaded(raw: Files, current: Files, reverted: seq<ConfigFile>)

  /** Whether a file has a fallback: a last-good copy, or, being optional, its built-in defaults. */
  predicate HasFallback(lastGood: Files, file: ConfigFile) {
    file in lastGood || IsOptional(file)
  }

  function ChangedAmong(files: seq<ConfigFile>, current: Files, lastGood: Files): (changed: seq<ConfigFile>)
    ensures forall file :: file in changed
              <==> file in files && HasFallback(lastGood, file) && TextOf(lastGood, file) != TextOf(current, file)
  {
    if files == [] then []
    else
      var rest := ChangedAmong(files[..|files| - 1], current, lastGood);
      var file := files[|files| - 1];
      if HasFallback(lastGood, file) && TextOf(lastGood, file) != TextOf(current, file) then rest + [file] else rest
  }

  function Changed(current: Files, lastGood: Files): seq<ConfigFile> {
    ChangedAmong(FILES, current, lastGood)
  }

  function Revert(current: Files, lastGood: Files, files: seq<ConfigFile>): Files {
    if files == [] then current
    else
      var file := files[|files| - 1];
      Put(Revert(current, lastGood, files[..|files| - 1]), file, TextOf(lastGood, file))
  }

  function Singles(files: seq<ConfigFile>): (attempts: seq<seq<ConfigFile>>)
    ensures |attempts| == |files|
    ensures forall i | 0 <= i < |files| :: attempts[i] == [files[i]]
  {
    seq(|files|, i requires 0 <= i < |files| => [files[i]])
  }

  /** Each changed file reverted on its own, then all of them together. */
  function Attempts(changed: seq<ConfigFile>): seq<seq<ConfigFile>> {
    Singles(changed) + (if |changed| > 1 then [changed] else [])
  }

  function FirstThatBuilds(w: World, current: Files, lastGood: Files, assets: Assets, attempts: seq<seq<ConfigFile>>)
    : Option<Loaded>
  {
    if attempts == [] then None
    else
      var raw := Revert(current, lastGood, attempts[0]);
      if w.builds(raw, assets) then Some(Loaded(raw, current, attempts[0]))
      else FirstThatBuilds(w, current, lastGood, assets, attempts[1..])
  }

  function LoadWithFallback(w: World, files: Files, lastGood: Files, assets: Assets): Option<Loaded> {
    if w.builds(files, assets) then Some(Loaded(files, files, []))
    else FirstThatBuilds(w, files, lastGood, assets, Attempts(Changed(files, lastGood)))
  }

  // ---------------------------------------------------------------------------
  // Committing a load
  // ---------------------------------------------------------------------------

  function WithoutText(history: seq<Text>, text: Text): seq<Text> {
    if history == [] then []
    else
      var rest := WithoutText(history[..|history| - 1], text);
      if history[|history| - 1] == text then rest else rest + [history[|history| - 1]]
  }

  function NewestTexts(history: seq<Text>): seq<Text> {
    if |history| > VERSION_HISTORY then history[|history| - VERSION_HISTORY..] else history
  }

  /** The history with `text` as its newest version, bounded. */
  function Remember(history: seq<Text>, text: Text): seq<Text> {
    NewestTexts(WithoutText(history, text) + [text])
  }

  function HistoryOf(versionTexts: map<ConfigFile, seq<Text>>, file: ConfigFile): seq<Text> {
    if file in versionTexts then versionTexts[file] else []
  }

  function Histories(versionTexts: map<ConfigFile, seq<Text>>, current: Files): map<ConfigFile, seq<Text>> {
    map file | file in FILES :: Remember(HistoryOf(versionTexts, file), TextOf(current, file))
  }

  /** Only files whose on-disk text loaded as it is become the new last-good. */
  function SavedLastGood(lastGood: Files, loaded: Loaded, files: seq<ConfigFile>): Files {
    if files == [] then lastGood
    else
      var rest := SavedLastGood(lastGood, loaded, files[..|files| - 1]);
      var file := files[|files| - 1];
      if TextOf(loaded.raw, file) == TextOf(loaded.current, file)
      then Put(rest, file, TextOf(loaded.current, file)) else rest
  }

  function OnFiles(files: seq<ConfigFile>): seq<Option<ConfigFile>> {
    seq(|files|, i requires 0 <= i < |files| => Some(files[i]))
  }

  function Commit(s: Registry, loaded: Loaded): Registry {
    s.(loaded := true,
       inEffect := loaded.raw,
       fileVersions := loaded.current,
       versionTexts := Histories(s.versionTexts, loaded.current),
       issues := OnFiles(loaded.reverted),
       lastGood := SavedLastGood(s.lastGood, loaded, FILES))
  }

  // ---------------------------------------------------------------------------
  // Operations
  // ---------------------------------------------------------------------------

  function Load(w: World, s: Registry): Option<Loaded> {
    LoadWithFallback(w, s.files, s.lastGood, s.assets)
  }

  function Reload(w: World, s: Registry): Registry {
    match Load(w, s)
    case Some(loaded) => Commit(s, loaded)
    case None => s.(issues := [None])
  }

  /** A file read the way the merge reads it: through its own parser, absent as null. */
  function Read(w: World, file: ConfigFile, text: Text): Option<Json> {
    match text
    case None => w.normalize(file, Null)
    case Some(t) =>
      match w.parse(t)
      case None => None
      case Some(value) => w.normalize(file, value)
  }

  /** Both readings and ours merged under the file's spec, and parsed again; None on a conflict or a refusal. */
  function MergeReadings(w: World, file: ConfigFile, spec: MergeSpec, base: Json, ours: Json, theirs: Json): Option<Json> {
    match MergeWith(spec, Some(base), Some(ours), Some(theirs))
    case Value(Some(merged)) => w.normalize(file, merged)
    case _ => None
  }

  function MergeUnder(w: World, s: Registry, spec: Option<MergeSpec>, file: ConfigFile, ours: Json, base: Text, current: Text)
    : Option<Json>
  {
    if spec.None? || base !in HistoryOf(s.versionTexts, file) then None
    else
      var b, t := Read(w, file, base), Read(w, file, current);
      if b.None? || t.None? then None else MergeReadings(w, file, spec.value, b.value, ours, t.value)
  }

  /** Our edit merged with the file as it is now; None when it cannot be merged safely. */
  function MergeConcurrentEdit(w: World, s: Registry, file: ConfigFile, ours: Json, base: Text, current: Text)
    : Option<Json>
  {
    MergeUnder(w, s, MergeSpecs(file), file, ours, base, current)
  }

  datatype Outcome = Saved | Conflicted | NotApplied | NotLoaded

  /** What a write puts on disk: the value as sent, or merged when the file moved on meanwhile. */
  function ToWrite(w: World, s: Registry, file: ConfigFile, value: Json, expected: Option<Text>): Option<Json> {
    if expected.Some? && TextOf(s.files, file) != expected.value
    then MergeConcurrentEdit(w, s, file, value, expected.value, TextOf(s.files, file))
    else Some(value)
  }

  /** Put the value on disk and make it take effect, or put the previous text back. */
  function WriteValue(w: World, s: Registry, file: ConfigFile, written: Json): (Registry, Outcome) {
    var next := s.(files := s.files[file := w.render(written)]);
    match Load(w, next)
    case Some(loaded) => if file in loaded.reverted then (s, NotApplied) else (Commit(next, loaded), Saved)
    case None => (s, NotApplied)
  }

  function Write(w: World, s: Registry, file: ConfigFile, value: Json, expected: Option<Text>): (Registry, Outcome) {
    match ToWrite(w, s, file, value, expected)
    case None => (s, Conflicted)
    case Some(written) => WriteValue(w, s, file, written)
  }

  function WriteAsset(w: World, s: Registry, path: string, bytes: string): (Registry, Outcome) {
    if !s.loaded then (s, NotLoaded)
    else
      var next := s.(assets := s.assets[path := bytes]);
      match Load(w, next)
      case Some(loaded) =>
        if exists file | file in loaded.reverted :: Some(file) !in s.issues then (s, NotApplied)
        else (Commit(next, loaded), Saved)
      case None => (s, NotApplied)
  }

  /** What can happen to the registry. A hand edit changes the JSON files; a restart keeps the disk. */
  datatype Step =
    | Reloaded
    | Wrote(file: ConfigFile, value: Json, expected: Option<Text>)
    | Uploaded(path: string, bytes: string)
    | HandEdited(files: Files)
    | Restarted

  function Apply(w: World, s: Registry, step: Step): Registry {
    match step
    case Reloaded => Reload(w, s)
    case Wrote(file, value, expected) => Write(w, s, file, value, expected).0
    case Uploaded(path, bytes) => WriteAsset(w, s, path, bytes).0
    case HandEdited(files) => s.(files := files)
    case Restarted =>
      s.(loaded := false, inEffect := map[], fileVersions := map[], versionTexts := map[], issues := [])
  }

  function Run(w: World, s: Registry, steps: seq<Step>): Registry {
    if steps == [] then s else Apply(w, Run(w, s, steps[..|steps| - 1]), steps[|steps| - 1])
  }
}
