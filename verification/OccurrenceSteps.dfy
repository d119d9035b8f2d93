/**
 * Alert occurrences in the document store and their in-memory mirror (`backend/src/persistence.ts`,
 * `upsertAlerts`, `resyncPendingAlerts`, `ackAlert`, `unackAlert`, `forgetDevice`).
 *
 * The `alerts` collection is a sequence of documents in insertion order. What MongoDB does with a
 * sync is part of the step: it is down, it fails after an arbitrary part of the writes landed, or it
 * carries all of them out.
 */
module OccurrenceSteps {
  import opened Wrappers

  datatype Ack = Ack(actor: string, at: int, comment: Option<string>)

  /** An alert as a device reports it; `detail` stands for severity, title, source, code and text. */
  datatype Alert = Alert(id: string, detail: string, ts: int, firstSeen: Option<int>)

  /** One occurrence, stored or mirrored. */
  datatype Doc = Doc(
    key: string,
    deviceId: string,
    alertId: string,
    detail: string,
    ts: int,
    active: bool,
    firstSeen: int,
    lastSeen: int,
    cleared: Option<int>,
    ack: Option<Ack>)

  datatype Store = Store(docs: seq<Doc>, mirror: map<string, seq<Doc>>, pending: set<string>, attached: bool)

  function Key(deviceId: string, alertId: string): string {
    deviceId + ":" + alertId
  }

  // Writes to the collection.

  predicate IsActive(doc: Doc, key: string) {
    doc.active && doc.key == key
  }

  /** Position of the first active document with this key, or the length when there is none. */
  function Find(docs: seq<Doc>, key: string): (index: nat)
    ensures index <= |docs|
    ensures index < |docs| ==> IsActive(docs[index], key)
    ensures forall i | 0 <= i < index :: !IsActive(docs[i], key)
  {
    if docs == [] then 0 else if IsActive(docs[0], key) then 0 else 1 + Find(docs[1..], key)
  }

  function Onset(alert: Alert): int {
    if alert.firstSeen.Some? then alert.firstSeen.value else alert.ts
  }

  /** What the update sets on an occurrence that is still firing. */
  function Refreshed(doc: Doc, deviceId: string, alert: Alert, at: int): Doc {
    doc.(
      key := Key(deviceId, alert.id),
      deviceId := deviceId,
      alertId := alert.id,
      detail := alert.detail,
      ts := alert.ts,
      active := true,
      lastSeen := at)
  }

  function NewDoc(deviceId: string, alert: Alert, at: int): Doc {
    Doc(Key(deviceId, alert.id), deviceId, alert.id, alert.detail, alert.ts, true, Onset(alert), at, None, None)
  }

  function UpsertDoc(docs: seq<Doc>, deviceId: string, alert: Alert, at: int): seq<Doc> {
    var index := Find(docs, Key(deviceId, alert.id));
    if index < |docs| then docs[index := Refreshed(docs[index], deviceId, alert, at)]
    else docs + [NewDoc(deviceId, alert, at)]
  }

  predicate Within(order: seq<nat>, count: nat) {
    forall k | 0 <= k < |order| :: order[k] < count
  }

  /** The upserts that reached the database, in the order they reached it. */
  function UpsertAll(docs: seq<Doc>, deviceId: string, alerts: seq<Alert>, at: int, order: seq<nat>): seq<Doc>
    requires Within(order, |alerts|)
  {
    if order == [] then docs
    else UpsertDoc(UpsertAll(docs, deviceId, alerts, at, order[..|order| - 1]), deviceId, alerts[order[|order| - 1]], at)
  }

  function ClosedDoc(doc: Doc, at: int): Doc {
    doc.(active := false, cleared := Some(at), lastSeen := at)
  }

  predicate IsStale(doc: Doc, deviceId: string, keys: set<string>) {
    doc.active && doc.deviceId == deviceId && doc.key !in keys
  }

  /** The stale documents closed: all of them, or those the failing update reached. */
  function CloseStale(docs: seq<Doc>, deviceId: string, keys: set<string>, at: int, reached: set<nat>): (r: seq<Doc>)
    ensures |r| == |docs|
  {
    seq(|docs|, i requires 0 <= i < |docs| =>
      if IsStale(docs[i], deviceId, keys) && i in reached then ClosedDoc(docs[i], at) else docs[i])
  }

  function Positions(count: nat): (r: set<nat>)
    ensures forall i: nat :: i in r <==> i < count
  {
    if count == 0 then {} else Positions(count - 1) + {count - 1}
  }

  function KeysOf(deviceId: string, alerts: seq<Alert>): set<string> {
    set alert <- alerts :: Key(deviceId, alert.id)
  }

  // The mirror.

  /** The newest mirrored entry with this key. */
  function Prior(entries: seq<Doc>, key: string): Option<Doc> {
    if entries == [] then None
    else if entries[|entries| - 1].key == key then Some(entries[|entries| - 1])
    else Prior(entries[..|entries| - 1], key)
  }

  function Mirrored(prior: seq<Doc>, deviceId: string, alert: Alert, at: int): Doc {
    var kept := Prior(prior, Key(deviceId, alert.id));
    NewDoc(deviceId, alert, at).(
      firstSeen := if alert.firstSeen.None? && kept.Some? then kept.value.firstSeen else Onset(alert),
      ack := if kept.Some? then kept.value.ack else None)
  }

  function MirrorOf(s: Store, deviceId: string): seq<Doc> {
    if deviceId in s.mirror then s.mirror[deviceId] else []
  }

  function MirrorList(prior: seq<Doc>, deviceId: string, alerts: seq<Alert>, at: int): (r: seq<Doc>)
    ensures |r| == |alerts|
  {
    seq(|alerts|, i requires 0 <= i < |alerts| => Mirrored(prior, deviceId, alerts[i], at))
  }

  /** A mirrored entry replayed as a report. */
  function Replayed(entries: seq<Doc>): (r: seq<Alert>)
    ensures |r| == |entries|
  {
    seq(|entries|, i requires 0 <= i < |entries| =>
      Alert(entries[i].alertId, entries[i].detail, entries[i].ts, Some(entries[i].firstSeen)))
  }

  // Whole operations.

  /** `Failed` lists the upserts that landed and the documents the closing update reached, if it ran. */
  datatype Outcome = Down | Failed(landed: seq<nat>, reached: set<nat>) | Done(order: seq<nat>)

  predicate Covers(order: seq<nat>, count: nat) {
    Within(order, count) && forall i | 0 <= i < count :: i in order
  }

  predicate Possible(outcome: Outcome, count: nat) {
    match outcome
    case Down => true
    case Failed(landed, reached) => Within(landed, count) && (!Covers(landed, count) ==> reached == {})
    case Done(order) => Covers(order, count)
  }

  function WriteDocs(docs: seq<Doc>, deviceId: string, alerts: seq<Alert>, at: int, outcome: Outcome): seq<Doc>
    requires Possible(outcome, |alerts|)
  {
    match outcome
    case Down => docs
    case Failed(landed, reached) =>
      CloseStale(UpsertAll(docs, deviceId, alerts, at, landed), deviceId, KeysOf(deviceId, alerts), at, reached)
    case Done(order) =>
      var written := UpsertAll(docs, deviceId, alerts, at, order);
      CloseStale(written, deviceId, KeysOf(deviceId, alerts), at, Positions(|written|))
  }

  function Sync(s: Store, deviceId: string, alerts: seq<Alert>, at: int, outcome: Outcome): Store
    requires Possible(outcome, |alerts|)
  {
    var mirror := s.mirror[deviceId := MirrorList(MirrorOf(s, deviceId), deviceId, alerts, at)];
    if !s.attached then s.(mirror := mirror, pending := s.pending + {deviceId})
    else
      s.(mirror := mirror,
         docs := WriteDocs(s.docs, deviceId, alerts, at, outcome),
         pending := if outcome.Done? then s.pending - {deviceId} else s.pending + {deviceId})
  }

  function Forget(s: Store, deviceId: string): Store {
    s.(mirror := s.mirror - {deviceId})
  }

  /** Where the memory path finds the key, walking the mirror in its own order. */
  function Owner(s: Store, order: seq<string>, key: string): Option<string> {
    if order == [] then None
    else if exists entry <- MirrorOf(s, order[0]) :: entry.key == key then Some(order[0])
    else Owner(s, order[1..], key)
  }

  function FirstWithKey(entries: seq<Doc>, key: string): (index: nat)
    ensures index <= |entries|
  {
    if entries == [] then 0 else if entries[0].key == key then 0 else 1 + FirstWithKey(entries[1..], key)
  }

  function AckMirror(s: Store, order: seq<string>, key: string, ack: Option<Ack>): Store {
    var owner := Owner(s, order, key);
    if owner.None? then s
    else
      var entries := MirrorOf(s, owner.value);
      var index := FirstWithKey(entries, key);
      if index == |entries| then s
      else s.(mirror := s.mirror[owner.value := entries[index := entries[index].(ack := ack)]])
  }

  /** Acknowledge (`Some`) or undo it (`None`) on the active occurrence with this key. */
  function SetAck(s: Store, order: seq<string>, key: string, ack: Option<Ack>): Store {
    if !s.attached then AckMirror(s, order, key, ack)
    else
      var index := Find(s.docs, key);
      if index == |s.docs| then s else s.(docs := s.docs[index := s.docs[index].(ack := ack)])
  }

  /** `Depart` with no call is a device that leaves without alerts: nothing is synced for it. */
  datatype Step =
    | Report(deviceId: string, alerts: seq<Alert>, at: int, outcome: Outcome)
    | Resync(deviceId: string, at: int, outcome: Outcome)
    | Depart(deviceId: string, at: int, call: Option<Outcome>)
    | Acknowledge(key: string, ack: Option<Ack>, order: seq<string>)
    | Attach(attached: bool)

  predicate Legal(s: Store, step: Step) {
    match step
    case Report(_, alerts, _, outcome) => Possible(outcome, |alerts|)
    case Resync(deviceId, _, outcome) => Possible(outcome, |MirrorOf(s, deviceId)|)
    case Depart(deviceId, _, call) => if call.Some? then Possible(call.value, 0) else MirrorOf(s, deviceId) == []
    case Acknowledge(_, _, _) => true
    case Attach(_) => true
  }

  function Apply(s: Store, step: Step): Store
    requires Legal(s, step)
  {
    match step
    case Report(deviceId, alerts, at, outcome) => Sync(s, deviceId, alerts, at, outcome)
    case Resync(deviceId, at, outcome) =>
      if deviceId !in s.pending then s else Sync(s, deviceId, Replayed(MirrorOf(s, deviceId)), at, outcome)
    case Depart(deviceId, at, call) =>
      Forget(if call.Some? then Sync(s, deviceId, [], at, call.value) else s, deviceId)
    case Acknowledge(key, ack, order) => SetAck(s, order, key, ack)
    case Attach(attached) => s.(attached := attached)
  }

  /** What the database answers to a sync of this device with these alerts. */
  type Database = (string, seq<Alert>) -> Outcome

  ghost predicate Answers(database: Database) {
    forall deviceId, alerts :: Possible(database(deviceId, alerts), |alerts|)
  }

  /** The retry timer's pass over the devices waiting for a re-sync; the first that still fails ends it. */
  ghost function ResyncAll(s: Store, waiting: seq<string>, at: int, database: Database): Store
    requires Answers(database)
    decreases |waiting|
  {
    if waiting == [] then s
    else
      var alerts := Replayed(MirrorOf(s, waiting[0]));
      var next := Sync(s, waiting[0], alerts, at, database(waiting[0], alerts));
      if waiting[0] in next.pending then next else ResyncAll(next, waiting[1..], at, database)
  }

  predicate LegalRun(s: Store, steps: seq<Step>)
    decreases |steps|, 0
  {
    steps == [] ||
    (LegalRun(s, steps[..|steps| - 1]) && Legal(Run(s, steps[..|steps| - 1]), steps[|steps| - 1]))
  }

  function Run(s: Store, steps: seq<Step>): Store
    requires LegalRun(s, steps)
    decreases |steps|, 1
  {
    if steps == [] then s else Apply(Run(s, steps[..|steps| - 1]), steps[|steps| - 1])
  }
}
