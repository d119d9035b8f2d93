/**
 * What an outage leaves of a report: the mirror holds it as it was made, and the re-sync stores it so
 * (`backend/src/persistence.ts`, `upsertAlerts` and `resyncPendingAlerts`).
 */
module OccurrenceReplayProofs {
  import opened Wrappers
  import opened OccurrenceSteps
  import opened OccurrenceProofs

  predicate DistinctIds(alerts: seq<Alert>) {
    forall i, j | 0 <= i < j < |alerts| :: alerts[i].id != alerts[j].id
  }

  /** A document of the device that says what was reported. */
  predicate Says(doc: Doc, deviceId: string, alert: Alert) {
    && doc.deviceId == deviceId && doc.key == deviceId + ":" + alert.id
    && doc.alertId == alert.id && doc.detail == alert.detail && doc.ts == alert.ts
  }

  predicate AllSay(entries: seq<Doc>, deviceId: string, alerts: seq<Alert>) {
    |entries| == |alerts| && forall i | 0 <= i < |alerts| :: Says(entries[i], deviceId, alerts[i])
  }

  /** The mirror's list for this device has one entry per alert, with what was reported. */
  predicate MirrorHolds(s: Store, deviceId: string, alerts: seq<Alert>) {
    deviceId in s.mirror && AllSay(s.mirror[deviceId], deviceId, alerts)
  }

  /**
   * A sync, whatever becomes of its writes, mirrors each alert as it was reported: active and heard now, under
   * the onset the alert brings, else the one mirrored for its key, else its own time.
   */
  lemma SyncMirrorsTheReport(s: Store, deviceId: string, alerts: seq<Alert>, at: int, outcome: Outcome)
    requires Possible(outcome, |alerts|)
    ensures var after := Sync(s, deviceId, alerts, at, outcome);
            && MirrorHolds(after, deviceId, alerts)
            && forall i | 0 <= i < |alerts| ::
                 var entry := after.mirror[deviceId][i];
                 && entry.active && entry.lastSeen == at && entry.cleared.None?
                 && (alerts[i].firstSeen.Some? ==> entry.firstSeen == alerts[i].firstSeen.value)
                 && (alerts[i].firstSeen.None? && entry.key !in MirrorKeys(s, deviceId) ==> entry.firstSeen == alerts[i].ts)
    ensures forall other | other != deviceId ::
              MirrorOf(Sync(s, deviceId, alerts, at, outcome), other) == MirrorOf(s, other)
  {
    forall i | 0 <= i < |alerts| && Key(deviceId, alerts[i].id) !in MirrorKeys(s, deviceId)
      ensures Prior(MirrorOf(s, deviceId), Key(deviceId, alerts[i].id)).None?
    {
      NoPrior(MirrorOf(s, deviceId), Key(deviceId, alerts[i].id));
    }
  }

  lemma {:induction false} NoPrior(entries: seq<Doc>, key: string)
    requires key !in EntryKeys(entries)
    ensures Prior(entries, key).None?
  {
    if entries != [] {
      assert entries[|entries| - 1] in entries && forall entry <- entries[..|entries| - 1] :: entry in entries;
      NoPrior(entries[..|entries| - 1], key);
    }
  }

  /** A sync leaves its device waiting for a re-sync exactly when its writes were not all carried out. */
  lemma SyncWaitsUnlessDone(s: Store, deviceId: string, alerts: seq<Alert>, at: int, outcome: Outcome, other: string)
    requires Possible(outcome, |alerts|)
    ensures other in Sync(s, deviceId, alerts, at, outcome).pending
       <==> if other == deviceId then !(s.attached && outcome.Done?) else other in s.pending
  {}

  // The collection.

  /** An active document has this alert as it was reported. */
  predicate StoresOne(docs: seq<Doc>, deviceId: string, alert: Alert) {
    exists i | 0 <= i < |docs| :: docs[i].active && Says(docs[i], deviceId, alert)
  }

  predicate Stores(docs: seq<Doc>, deviceId: string, alerts: seq<Alert>) {
    forall k | 0 <= k < |alerts| :: StoresOne(docs, deviceId, alerts[k])
  }

  /** A sync that succeeds stores each alert as it was reported, heard now. */
  lemma DoneStores(docs: seq<Doc>, deviceId: string, alerts: seq<Alert>, at: int, order: seq<nat>, k: nat) returns (i: nat)
    requires Orderly(docs) && Covers(order, |alerts|) && DistinctIds(alerts) && k < |alerts|
    ensures var after := WriteDocs(docs, deviceId, alerts, at, Done(order));
            i < |after| && after[i].active && Says(after[i], deviceId, alerts[k]) && after[i].lastSeen == at
  {
    var after := WriteDocs(docs, deviceId, alerts, at, Done(order));
    DoneWritesTheActiveSet(docs, deviceId, alerts, at, order);
    assert alerts[k] in alerts;
    assert Key(deviceId, alerts[k].id) in ActiveKeys(after, deviceId);
    i :| i < |after| && after[i].active && after[i].deviceId == deviceId && after[i].key == Key(deviceId, alerts[k].id);
    DoneWritesWhatWasReported(docs, deviceId, alerts, at, order, k, i);
  }

  lemma DoneStoresAll(docs: seq<Doc>, deviceId: string, alerts: seq<Alert>, at: int, order: seq<nat>)
    requires Orderly(docs) && Covers(order, |alerts|) && DistinctIds(alerts)
    ensures Stores(WriteDocs(docs, deviceId, alerts, at, Done(order)), deviceId, alerts)
  {
    forall k | 0 <= k < |alerts| ensures StoresOne(WriteDocs(docs, deviceId, alerts, at, Done(order)), deviceId, alerts[k]) {
      var i := DoneStores(docs, deviceId, alerts, at, order, k);
    }
  }

  /** A sync settles its report: waiting in the mirror as it was made, or stored so. */
  lemma SyncKeepsItsReport(s: Store, deviceId: string, alerts: seq<Alert>, at: int, outcome: Outcome)
    requires Orderly(s.docs) && Possible(outcome, |alerts|) && DistinctIds(alerts)
    ensures Kept(Sync(s, deviceId, alerts, at, outcome), deviceId, alerts)
  {
    SyncMirrorsTheReport(s, deviceId, alerts, at, outcome);
    SyncWaitsUnlessDone(s, deviceId, alerts, at, outcome, deviceId);
    if s.attached && outcome.Done? { DoneStoresAll(s.docs, deviceId, alerts, at, outcome.order); }
  }

  /**
   * A re-sync that succeeds stores every mirrored entry: the active document with its key carries the entry's
   * alert, detail and time, and was heard now. One that opens a document gives it the entry's onset.
   */
  lemma ResyncStoresTheMirror(s: Store, deviceId: string, at: int, order: seq<nat>, k: nat) returns (i: nat)
    requires Orderly(s.docs) && s.attached && deviceId in s.pending
    requires var entries := MirrorOf(s, deviceId);
             k < |entries| && Covers(order, |entries|) && DistinctKeys(entries) && WellMirrored(entries, deviceId)
    ensures var entry, docs := MirrorOf(s, deviceId)[k], Apply(s, Resync(deviceId, at, Done(order))).docs;
            && i < |docs| && IsActive(docs[i], entry.key) && docs[i].deviceId == deviceId
            && docs[i].alertId == entry.alertId && docs[i].detail == entry.detail && docs[i].ts == entry.ts
            && docs[i].lastSeen == at
            && (Find(s.docs, entry.key) == |s.docs| ==> docs[i].firstSeen == entry.firstSeen)
    ensures deviceId !in Apply(s, Resync(deviceId, at, Done(order))).pending
  {
    var entries := MirrorOf(s, deviceId);
    var alerts := Replayed(entries);
    forall a, b | 0 <= a < b < |alerts| ensures alerts[a].id != alerts[b].id {
      KeysTellAlerts(deviceId, alerts[a].id, alerts[b].id);
    }
    i := DoneStores(s.docs, deviceId, alerts, at, order, k);
    if Find(s.docs, entries[k].key) == |s.docs| {
      var after := Apply(s, Resync(deviceId, at, Done(order))).docs;
      ResyncKeepsMirroredOnsets(s, deviceId, at, order, k);
      assert after[i] in after;
    }
  }

  // Over runs.

  /** The report is waiting in the mirror, or stored as it was made. */
  ghost predicate Kept(s: Store, deviceId: string, alerts: seq<Alert>) {
    MirrorHolds(s, deviceId, alerts) && (deviceId in s.pending || Stores(s.docs, deviceId, alerts))
  }

  /** The device is neither reported again nor sent away, and no other device shares its keys. */
  predicate Spares(step: Step, deviceId: string) {
    !((step.Report? || step.Depart?) && step.deviceId == deviceId) && LeavesAlone(step, deviceId)
  }

  lemma {:induction false} ForeignUpsertsLeave(
    docs: seq<Doc>, deviceId: string, other: string, alerts: seq<Alert>, at: int, order: seq<nat>, i: nat)
    requires WellKeyed(docs) && Within(order, |alerts|) && deviceId != other && Apart(deviceId, other)
    requires i < |docs| && docs[i].deviceId == deviceId
    ensures var after := UpsertAll(docs, other, alerts, at, order);
            WellKeyed(after) && i < |after| && after[i] == docs[i]
  {
    if order != [] {
      ForeignUpsertsLeave(docs, deviceId, other, alerts, at, order[..|order| - 1], i);
      KeysCollideIffIdsExtend(deviceId, other);
    }
  }

  lemma ForeignSyncLeaves(s: Store, deviceId: string, other: string, alerts: seq<Alert>, at: int, outcome: Outcome, i: nat)
    requires WellKeyed(s.docs) && Possible(outcome, |alerts|) && deviceId != other && Apart(deviceId, other)
    requires i < |s.docs| && s.docs[i].deviceId == deviceId
    ensures var after := Sync(s, other, alerts, at, outcome).docs;
            i < |after| && after[i] == s.docs[i]
  {
    if outcome != Down {
      ForeignUpsertsLeave(s.docs, deviceId, other, alerts, at, if outcome.Done? then outcome.order else outcome.landed, i);
    }
  }

  lemma ForeignSyncKeepsStored(
    s: Store, deviceId: string, alerts: seq<Alert>, other: string, theirs: seq<Alert>, at: int, outcome: Outcome)
    requires WellKeyed(s.docs) && Stores(s.docs, deviceId, alerts)
    requires Possible(outcome, |theirs|) && deviceId != other && Apart(deviceId, other)
    ensures Stores(Sync(s, other, theirs, at, outcome).docs, deviceId, alerts)
  {
    var after := Sync(s, other, theirs, at, outcome).docs;
    forall k | 0 <= k < |alerts| ensures StoresOne(after, deviceId, alerts[k]) {
      assert StoresOne(s.docs, deviceId, alerts[k]);
      var i :| 0 <= i < |s.docs| && s.docs[i].active && Says(s.docs[i], deviceId, alerts[k]);
      ForeignSyncLeaves(s, deviceId, other, theirs, at, outcome, i);
    }
  }

  lemma ForeignSyncKeeps(
    s: Store, deviceId: string, alerts: seq<Alert>, other: string, theirs: seq<Alert>, at: int, outcome: Outcome)
    requires Orderly(s.docs) && Kept(s, deviceId, alerts)
    requires Possible(outcome, |theirs|) && deviceId != other && Apart(deviceId, other)
    ensures Kept(Sync(s, other, theirs, at, outcome), deviceId, alerts)
  {
    SyncWaitsUnlessDone(s, other, theirs, at, outcome, deviceId);
    if deviceId !in s.pending { ForeignSyncKeepsStored(s, deviceId, alerts, other, theirs, at, outcome); }
  }

  /** What a re-sync replays says what the mirror says, so a report said by one is said by the other. */
  lemma ReplaySaysTheReport(entries: seq<Doc>, deviceId: string, alerts: seq<Alert>, list: seq<Doc>)
    requires AllSay(entries, deviceId, alerts) && AllSay(list, deviceId, Replayed(entries))
    ensures AllSay(list, deviceId, alerts)
  {}

  lemma ReplayStoresTheReport(entries: seq<Doc>, deviceId: string, alerts: seq<Alert>, docs: seq<Doc>)
    requires AllSay(entries, deviceId, alerts) && Stores(docs, deviceId, Replayed(entries))
    ensures Stores(docs, deviceId, alerts)
  {
    forall k | 0 <= k < |alerts| ensures StoresOne(docs, deviceId, alerts[k]) {
      assert Says(entries[k], deviceId, alerts[k]);
      assert StoresOne(docs, deviceId, Replayed(entries)[k]);
      var i :| 0 <= i < |docs| && docs[i].active && Says(docs[i], deviceId, Replayed(entries)[k]);
    }
  }

  lemma ReplayIsDistinct(entries: seq<Doc>, deviceId: string, alerts: seq<Alert>)
    requires AllSay(entries, deviceId, alerts) && DistinctIds(alerts)
    ensures DistinctIds(Replayed(entries))
  {
    forall i | 0 <= i < |entries| ensures entries[i].alertId == alerts[i].id {
      assert Says(entries[i], deviceId, alerts[i]);
    }
  }

  /** A re-sync of the device, whatever becomes of it, replays the report as it is mirrored. */
  lemma ResyncKeeps(s: Store, deviceId: string, alerts: seq<Alert>, at: int, outcome: Outcome)
    requires Orderly(s.docs) && Kept(s, deviceId, alerts) && DistinctIds(alerts)
    requires Possible(outcome, |alerts|)
    ensures Kept(Apply(s, Resync(deviceId, at, outcome)), deviceId, alerts)
  {
    if deviceId in s.pending {
      var entries := s.mirror[deviceId];
      var after := Sync(s, deviceId, Replayed(entries), at, outcome);
      ReplayIsDistinct(entries, deviceId, alerts);
      SyncKeepsItsReport(s, deviceId, Replayed(entries), at, outcome);
      ReplaySaysTheReport(entries, deviceId, alerts, after.mirror[deviceId]);
      if deviceId !in after.pending { ReplayStoresTheReport(entries, deviceId, alerts, after.docs); }
    }
  }

  lemma AckKeepsMirrored(s: Store, deviceId: string, alerts: seq<Alert>, order: seq<string>, key: string, ack: Option<Ack>)
    requires MirrorHolds(s, deviceId, alerts)
    ensures MirrorHolds(AckMirror(s, order, key, ack), deviceId, alerts)
  {
    if Owner(s, order, key) == Some(deviceId) {
      var entries, index := s.mirror[deviceId], FirstWithKey(s.mirror[deviceId], key);
      if index < |entries| {
        assert Says(entries[index], deviceId, alerts[index]);
        assert AllSay(entries[index := entries[index].(ack := ack)], deviceId, alerts);
      }
    }
  }

  lemma AckKeepsStored(docs: seq<Doc>, deviceId: string, alerts: seq<Alert>, index: nat, ack: Option<Ack>)
    requires Stores(docs, deviceId, alerts) && index < |docs|
    ensures Stores(docs[index := docs[index].(ack := ack)], deviceId, alerts)
  {
    var after := docs[index := docs[index].(ack := ack)];
    forall k | 0 <= k < |alerts| ensures StoresOne(after, deviceId, alerts[k]) {
      assert StoresOne(docs, deviceId, alerts[k]);
      var i :| 0 <= i < |docs| && docs[i].active && Says(docs[i], deviceId, alerts[k]);
      assert after[i].active && Says(after[i], deviceId, alerts[k]);
    }
  }

  lemma AckKeeps(s: Store, deviceId: string, alerts: seq<Alert>, order: seq<string>, key: string, ack: Option<Ack>)
    requires Kept(s, deviceId, alerts)
    ensures Kept(SetAck(s, order, key, ack), deviceId, alerts)
  {
    if !s.attached {
      AckKeepsMirrored(s, deviceId, alerts, order, key, ack);
    } else if deviceId !in s.pending && Find(s.docs, key) < |s.docs| {
      AckKeepsStored(s.docs, deviceId, alerts, Find(s.docs, key), ack);
    }
  }

  lemma StepKeeps(s: Store, step: Step, deviceId: string, alerts: seq<Alert>)
    requires Orderly(s.docs) && Kept(s, deviceId, alerts) && DistinctIds(alerts)
    requires Legal(s, step) && Spares(step, deviceId)
    ensures Kept(Apply(s, step), deviceId, alerts)
  {
    match step
    case Report(other, theirs, at, outcome) => ForeignSyncKeeps(s, deviceId, alerts, other, theirs, at, outcome);
    case Resync(other, at, outcome) =>
      if other == deviceId { ResyncKeeps(s, deviceId, alerts, at, outcome); }
      else if other in s.pending {
        ForeignSyncKeeps(s, deviceId, alerts, other, Replayed(MirrorOf(s, other)), at, outcome);
      }
    case Depart(other, at, call) =>
      if call.Some? { ForeignSyncKeeps(s, deviceId, alerts, other, [], at, call.value); }
    case Acknowledge(key, ack, order) => AckKeeps(s, deviceId, alerts, order, key, ack);
    case Attach(_) =>
  }

  lemma {:induction false} RunsKeep(s: Store, steps: seq<Step>, deviceId: string, alerts: seq<Alert>)
    requires Orderly(s.docs) && Kept(s, deviceId, alerts) && DistinctIds(alerts)
    requires LegalRun(s, steps) && forall step <- steps :: Spares(step, deviceId)
    ensures Kept(Run(s, steps), deviceId, alerts)
    decreases |steps|
  {
    if steps != [] {
      var front, last := steps[..|steps| - 1], steps[|steps| - 1];
      assert steps == front + [last];
      RunsKeep(s, front, deviceId, alerts);
      RunsKeepOneActivePerKey(s, front);
      StepKeeps(Run(s, front), last, deviceId, alerts);
    }
  }

  /**
   * A report that meets an outage, a write that fails half-way or a database that is not there yet is not lost
   * or changed: after any further steps that neither report the device again nor send it away, it is waiting
   * for a re-sync, mirrored as it was reported, or every alert of it is stored as it was reported.
   */
  lemma OutagesLoseNoReport(s: Store, deviceId: string, alerts: seq<Alert>, at: int, outcome: Outcome, steps: seq<Step>)
    requires Orderly(s.docs) && Possible(outcome, |alerts|) && DistinctIds(alerts)
    requires LegalRun(Sync(s, deviceId, alerts, at, outcome), steps) && forall step <- steps :: Spares(step, deviceId)
    ensures var end := Run(Sync(s, deviceId, alerts, at, outcome), steps);
            MirrorHolds(end, deviceId, alerts) && (deviceId in end.pending || Stores(end.docs, deviceId, alerts))
  {
    var synced := Sync(s, deviceId, alerts, at, outcome);
    SyncKeepsItsReport(s, deviceId, alerts, at, outcome);
    SyncKeepsOrder(s, deviceId, alerts, at, outcome);
    RunsKeep(synced, steps, deviceId, alerts);
  }

  // Departures and acknowledgements.

  /** A device whose departure is carried out leaves nothing active and nothing mirrored. */
  lemma DepartedLeaveNothing(s: Store, deviceId: string, at: int, order: seq<nat>)
    requires s.attached && Covers(order, 0)
    ensures var after := Apply(s, Depart(deviceId, at, Some(Done(order))));
            && ActiveKeys(after.docs, deviceId) == {} && deviceId !in after.mirror && deviceId !in after.pending
            && forall other | other != deviceId :: MirrorOf(after, other) == MirrorOf(s, other)
  {
    DoneWritesTheActiveSet(s.docs, deviceId, [], at, order);
  }

  /** Detached, an acknowledgement changes the one mirrored entry it finds, and nothing stored. */
  lemma DetachedAckIsMirrored(s: Store, order: seq<string>, key: string, ack: Option<Ack>)
    requires !s.attached
    ensures var after := SetAck(s, order, key, ack);
            && after.docs == s.docs && after.pending == s.pending
            && (Owner(s, order, key).None? ==> after == s)
            && (Owner(s, order, key).Some? ==>
                  var owner := Owner(s, order, key).value;
                  exists i | 0 <= i < |MirrorOf(s, owner)| ::
                    && MirrorOf(s, owner)[i].key == key
                    && (forall j | 0 <= j < i :: MirrorOf(s, owner)[j].key != key)
                    && after.mirror == s.mirror[owner := MirrorOf(s, owner)[i := MirrorOf(s, owner)[i].(ack := ack)]])
  {
    if Owner(s, order, key).Some? {
      OwnerHolds(s, order, key);
      FirstIsFound(MirrorOf(s, Owner(s, order, key).value), key);
    }
  }

  lemma {:induction false} OwnerHolds(s: Store, order: seq<string>, key: string)
    requires Owner(s, order, key).Some?
    ensures exists entry <- MirrorOf(s, Owner(s, order, key).value) :: entry.key == key
  {
    if !(exists entry <- MirrorOf(s, order[0]) :: entry.key == key) { OwnerHolds(s, order[1..], key); }
  }

  lemma {:induction false} FirstIsFound(entries: seq<Doc>, key: string)
    requires exists entry <- entries :: entry.key == key
    ensures var i := FirstWithKey(entries, key);
            i < |entries| && entries[i].key == key && forall j | 0 <= j < i :: entries[j].key != key
  {
    if entries[0].key != key {
      var entry :| entry in entries && entry.key == key;
      assert entry in entries[1..];
      FirstIsFound(entries[1..], key);
    }
  }
}
