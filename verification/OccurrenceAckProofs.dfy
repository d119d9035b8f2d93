/**
 * Which acknowledgements last. With the database attached one is written to the stored occurrence;
 * detached, only to the in-memory mirror, and no sync ever writes it (`backend/src/persistence.ts`).
 */
module OccurrenceAckProofs {
  import opened Wrappers
  import opened OccurrenceSteps
  import opened OccurrenceProofs

  /** The answer to an acknowledgement: an active occurrence with this key was found. */
  predicate Found(s: Store, order: seq<string>, key: string) {
    if s.attached then Find(s.docs, key) < |s.docs| else Owner(s, order, key).Some?
  }

  /** What is stored of the occurrence's acknowledgement; one not stored yet will be stored without. */
  function StoredAck(s: Store, key: string): Option<Ack> {
    var index := Find(s.docs, key);
    if index < |s.docs| then s.docs[index].ack else None
  }

  /** The first document at or after `from` with this key, if there is one, carries the acknowledgement. */
  predicate FirstCarries(docs: seq<Doc>, from: nat, key: string, ack: Option<Ack>) {
    forall j | from <= j < |docs| && docs[j].key == key && (forall k | from <= k < j :: docs[k].key != key) ::
      docs[j].ack == ack
  }

  /**
   * After the acknowledgement, whatever follows that leaves this key's acknowledgement alone, the
   * occurrence carries it in the collection: its document is the active one with the key, or else the
   * next one stored with it.
   */
  ghost predicate Lasts(s: Store, key: string, ack: Option<Ack>, order: seq<string>) {
    forall steps | LegalRun(SetAck(s, order, key, ack), steps) && key !in Acked(steps) ::
      FirstCarries(Run(SetAck(s, order, key, ack), steps).docs, Find(s.docs, key), key, ack)
  }

  // Documents stored later start without an acknowledgement.

  predicate UnackedFrom(docs: seq<Doc>, from: nat, key: string) {
    forall j | from <= j < |docs| && docs[j].key == key :: docs[j].ack == None
  }

  lemma {:induction false} UpsertAllUnacked(
    docs: seq<Doc>, deviceId: string, alerts: seq<Alert>, at: int, order: seq<nat>, from: nat, key: string)
    requires Within(order, |alerts|) && UnackedFrom(docs, from, key)
    ensures UnackedFrom(UpsertAll(docs, deviceId, alerts, at, order), from, key)
  {
    if order != [] {
      UpsertAllUnacked(docs, deviceId, alerts, at, order[..|order| - 1], from, key);
    }
  }

  lemma SyncUnacked(s: Store, deviceId: string, alerts: seq<Alert>, at: int, outcome: Outcome, from: nat, key: string)
    requires Possible(outcome, |alerts|) && UnackedFrom(s.docs, from, key)
    ensures UnackedFrom(Sync(s, deviceId, alerts, at, outcome).docs, from, key)
  {
    match outcome
    case Down =>
    case Failed(landed, _) => UpsertAllUnacked(s.docs, deviceId, alerts, at, landed, from, key);
    case Done(order) => UpsertAllUnacked(s.docs, deviceId, alerts, at, order, from, key);
  }

  lemma StepUnacked(s: Store, step: Step, from: nat, key: string)
    requires Legal(s, step) && UnackedFrom(s.docs, from, key) && !(step.Acknowledge? && step.key == key)
    ensures UnackedFrom(Apply(s, step).docs, from, key)
  {
    match step
    case Report(deviceId, alerts, at, outcome) => SyncUnacked(s, deviceId, alerts, at, outcome, from, key);
    case Resync(deviceId, at, outcome) =>
      SyncUnacked(s, deviceId, Replayed(MirrorOf(s, deviceId)), at, outcome, from, key);
    case Depart(deviceId, at, call) => if call.Some? { SyncUnacked(s, deviceId, [], at, call.value, from, key); }
    case Acknowledge(_, _, _) =>
    case Attach(_) =>
  }

  lemma {:induction false} RunsStoreUnacked(s: Store, steps: seq<Step>, from: nat, key: string)
    requires LegalRun(s, steps) && key !in Acked(steps) && UnackedFrom(s.docs, from, key)
    ensures UnackedFrom(Run(s, steps).docs, from, key)
    decreases |steps|
  {
    if steps != [] {
      var front, last := steps[..|steps| - 1], steps[|steps| - 1];
      assert steps == front + [last];
      assert last in steps;
      RunsStoreUnacked(s, front, from, key);
      StepUnacked(Run(s, front), last, from, key);
    }
  }

  // Attached, or nothing to change: the acknowledgement lasts.

  lemma StoredAckLasts(s: Store, key: string, ack: Option<Ack>, order: seq<string>, steps: seq<Step>)
    requires s.attached || ack == StoredAck(s, key)
    requires Found(s, order, key)
    requires LegalRun(SetAck(s, order, key, ack), steps) && key !in Acked(steps)
    ensures FirstCarries(Run(SetAck(s, order, key, ack), steps).docs, Find(s.docs, key), key, ack)
  {
    var index, after := Find(s.docs, key), SetAck(s, order, key, ack);
    if index < |s.docs| {
      assert after.docs[index].ack == ack && after.docs[index].key == key;
      RunsKeepHistory(after, steps);
      assert Continues(after.docs[index], Run(after, steps).docs[index], Acked(steps));
    } else {
      RunsStoreUnacked(after, steps, index, key);
    }
  }

  // Detached: it does not.

  /** Mirrored entries carry their own device's keys. */
  ghost predicate MirrorsKeyed(s: Store) {
    forall deviceId :: WellMirrored(MirrorOf(s, deviceId), deviceId)
  }

  lemma {:induction false} OwnerHasKey(s: Store, order: seq<string>, key: string)
    requires Owner(s, order, key).Some?
    ensures exists entry <- MirrorOf(s, Owner(s, order, key).value) :: entry.key == key
  {
    if !(exists entry <- MirrorOf(s, order[0]) :: entry.key == key) {
      OwnerHasKey(s, order[1..], key);
    }
  }

  /** The database comes back and the vehicle reports the alert once more. */
  function ReportedAgain(deviceId: string, alertId: string): seq<Step> {
    [Attach(true), Report(deviceId, [Alert(alertId, "", 0, None)], 0, Done([0]))]
  }

  lemma OneUpsert(docs: seq<Doc>, deviceId: string, alert: Alert, at: int)
    ensures Covers([0], 1)
    ensures WriteDocs(docs, deviceId, [alert], at, Done([0]))
         == var written := UpsertDoc(docs, deviceId, alert, at);
            CloseStale(written, deviceId, KeysOf(deviceId, [alert]), at, Positions(|written|))
  {
    assert [0][..0] == [];
    assert UpsertAll(docs, deviceId, [alert], at, []) == docs;
  }

  /** A first report of the key stores it unacknowledged. */
  lemma StoredUnacked(docs: seq<Doc>, deviceId: string, alert: Alert, at: int, ack: Option<Ack>)
    requires Find(docs, Key(deviceId, alert.id)) == |docs| && ack.Some?
    ensures Covers([0], 1)
    ensures !FirstCarries(WriteDocs(docs, deviceId, [alert], at, Done([0])), |docs|, Key(deviceId, alert.id), ack)
  {
    OneUpsert(docs, deviceId, alert, at);
    var after := WriteDocs(docs, deviceId, [alert], at, Done([0]));
    var doc := NewDoc(deviceId, alert, at);
    assert doc.key in KeysOf(deviceId, [alert]) by { assert alert in [alert]; }
    assert after[|docs|] == doc;
  }

  lemma DetachedAckIsLost(s: Store, key: string, ack: Option<Ack>, order: seq<string>)
    requires !s.attached && ack != StoredAck(s, key)
    requires Found(s, order, key) && MirrorsKeyed(s)
    ensures !Lasts(s, key, ack, order)
  {
    var after, index := SetAck(s, order, key, ack), Find(s.docs, key);
    if index < |s.docs| {
      assert Run(after, []) == after && Acked([]) == {};
      assert !FirstCarries(after.docs, index, key, ack);
    } else {
      OwnerHasKey(s, order, key);
      var deviceId := Owner(s, order, key).value;
      var entry :| entry in MirrorOf(s, deviceId) && entry.key == key;
      var alert := Alert(entry.alertId, "", 0, None);
      assert Key(deviceId, alert.id) == key by { assert WellMirrored(MirrorOf(s, deviceId), deviceId); }
      StoredUnacked(s.docs, deviceId, alert, 0, ack);
      TwoReports(after, Attach(true), Report(deviceId, [alert], 0, Done([0])));
      assert Acked(ReportedAgain(deviceId, entry.alertId)) == {};
    }
  }

  /**
   * An acknowledgement that is answered "found" and changes what is stored lasts if and only if it was
   * given while the database was attached; one that repeats what is stored has nothing to lose.
   */
  lemma AcknowledgementsLastIff(s: Store, key: string, ack: Option<Ack>, order: seq<string>)
    requires Found(s, order, key) && MirrorsKeyed(s)
    ensures Lasts(s, key, ack, order) <==> s.attached || ack == StoredAck(s, key)
  {
    if s.attached || ack == StoredAck(s, key) {
      forall steps | LegalRun(SetAck(s, order, key, ack), steps) && key !in Acked(steps)
        ensures FirstCarries(Run(SetAck(s, order, key, ack), steps).docs, Find(s.docs, key), key, ack)
      {
        StoredAckLasts(s, key, ack, order, steps);
      }
    } else {
      DetachedAckIsLost(s, key, ack, order);
    }
  }

  lemma SyncKeepsMirrorsKeyed(s: Store, deviceId: string, alerts: seq<Alert>, at: int, outcome: Outcome)
    requires MirrorsKeyed(s) && Possible(outcome, |alerts|)
    ensures MirrorsKeyed(Sync(s, deviceId, alerts, at, outcome))
  {
    var after := Sync(s, deviceId, alerts, at, outcome);
    forall other ensures WellMirrored(MirrorOf(after, other), other) {
      assert other != deviceId ==> MirrorOf(after, other) == MirrorOf(s, other);
    }
  }

  lemma AckKeepsMirrorsKeyed(s: Store, order: seq<string>, key: string, ack: Option<Ack>)
    requires MirrorsKeyed(s)
    ensures MirrorsKeyed(SetAck(s, order, key, ack))
  {
    var after := SetAck(s, order, key, ack);
    forall other ensures WellMirrored(MirrorOf(after, other), other) {
      assert WellMirrored(MirrorOf(s, other), other);
    }
  }

  /** Every run keeps the mirror keyed, so the acknowledgements of a run are covered. */
  lemma {:induction false} RunsKeepMirrorsKeyed(s: Store, steps: seq<Step>)
    requires MirrorsKeyed(s) && LegalRun(s, steps)
    ensures MirrorsKeyed(Run(s, steps))
    decreases |steps|
  {
    if steps != [] {
      var front, last := steps[..|steps| - 1], steps[|steps| - 1];
      RunsKeepMirrorsKeyed(s, front);
      StepKeepsMirrorsKeyed(Run(s, front), last);
    }
  }

  lemma StepKeepsMirrorsKeyed(s: Store, step: Step)
    requires MirrorsKeyed(s) && Legal(s, step)
    ensures MirrorsKeyed(Apply(s, step))
  {
    match step
    case Report(deviceId, alerts, at, outcome) => SyncKeepsMirrorsKeyed(s, deviceId, alerts, at, outcome);
    case Resync(deviceId, at, outcome) =>
      SyncKeepsMirrorsKeyed(s, deviceId, Replayed(MirrorOf(s, deviceId)), at, outcome);
    case Depart(deviceId, at, call) =>
      if call.Some? { SyncKeepsMirrorsKeyed(s, deviceId, [], at, call.value); }
      var before := if call.Some? then Sync(s, deviceId, [], at, call.value) else s;
      assert forall other | other != deviceId :: MirrorOf(Forget(before, deviceId), other) == MirrorOf(before, other);
    case Acknowledge(key, ack, order) => AckKeepsMirrorsKeyed(s, order, key, ack);
    case Attach(attached) =>
      assert forall other :: MirrorOf(s.(attached := attached), other) == MirrorOf(s, other);
  }
}
