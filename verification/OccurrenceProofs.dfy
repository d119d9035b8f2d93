/**
 * What the stored occurrences keep over any run of reports, outages, re-syncs that fail half-way,
 * departures and acknowledgements (`backend/src/persistence.ts`).
 */
module OccurrenceProofs {
  import opened Wrappers
  import opened OccurrenceSteps

  // One active document per key.

  predicate WellKeyed(docs: seq<Doc>) {
    forall i | 0 <= i < |docs| :: docs[i].key == Key(docs[i].deviceId, docs[i].alertId)
  }

  predicate OneActivePerKey(docs: seq<Doc>) {
    forall i, j | 0 <= i < j < |docs| :: docs[i].active && docs[j].active ==> docs[i].key != docs[j].key
  }

  predicate Orderly(docs: seq<Doc>) {
    WellKeyed(docs) && OneActivePerKey(docs)
  }

  lemma UpsertKeepsOrder(docs: seq<Doc>, deviceId: string, alert: Alert, at: int)
    requires Orderly(docs)
    ensures Orderly(UpsertDoc(docs, deviceId, alert, at))
  {
    var key := Key(deviceId, alert.id);
    var index := Find(docs, key);
    if index == |docs| {
      assert forall i | 0 <= i < |docs| :: !IsActive(docs[i], key);
    }
  }

  lemma {:induction false} UpsertAllKeepsOrder(docs: seq<Doc>, deviceId: string, alerts: seq<Alert>, at: int, order: seq<nat>)
    requires Orderly(docs) && Within(order, |alerts|)
    ensures Orderly(UpsertAll(docs, deviceId, alerts, at, order))
  {
    if order != [] {
      UpsertAllKeepsOrder(docs, deviceId, alerts, at, order[..|order| - 1]);
      UpsertKeepsOrder(UpsertAll(docs, deviceId, alerts, at, order[..|order| - 1]), deviceId, alerts[order[|order| - 1]], at);
    }
  }

  lemma WriteKeepsOrder(docs: seq<Doc>, deviceId: string, alerts: seq<Alert>, at: int, outcome: Outcome)
    requires Orderly(docs) && Possible(outcome, |alerts|)
    ensures Orderly(WriteDocs(docs, deviceId, alerts, at, outcome))
  {
    match outcome
    case Down =>
    case Failed(landed, reached) => UpsertAllKeepsOrder(docs, deviceId, alerts, at, landed);
    case Done(order) => UpsertAllKeepsOrder(docs, deviceId, alerts, at, order);
  }

  lemma SyncKeepsOrder(s: Store, deviceId: string, alerts: seq<Alert>, at: int, outcome: Outcome)
    requires Orderly(s.docs) && Possible(outcome, |alerts|)
    ensures Orderly(Sync(s, deviceId, alerts, at, outcome).docs)
  {
    WriteKeepsOrder(s.docs, deviceId, alerts, at, outcome);
  }

  lemma StepKeepsOrder(s: Store, step: Step)
    requires Orderly(s.docs) && Legal(s, step)
    ensures Orderly(Apply(s, step).docs)
  {
    match step
    case Report(deviceId, alerts, at, outcome) => SyncKeepsOrder(s, deviceId, alerts, at, outcome);
    case Resync(deviceId, at, outcome) => SyncKeepsOrder(s, deviceId, Replayed(MirrorOf(s, deviceId)), at, outcome);
    case Depart(deviceId, at, call) => if call.Some? { SyncKeepsOrder(s, deviceId, [], at, call.value); }
    case Acknowledge(_, _, _) =>
    case Attach(_) =>
  }

  /** No run of steps, however its syncs fail, leaves two active documents with one key. */
  lemma {:induction false} RunsKeepOneActivePerKey(s: Store, steps: seq<Step>)
    requires Orderly(s.docs) && LegalRun(s, steps)
    ensures Orderly(Run(s, steps).docs)
    decreases |steps|
  {
    if steps != [] {
      RunsKeepOneActivePerKey(s, steps[..|steps| - 1]);
      StepKeepsOrder(Run(s, steps[..|steps| - 1]), steps[|steps| - 1]);
    }
  }

  // Documents keep their place, their onset and, unless someone changes it, their acknowledgement.

  /** What a document may become: nothing else once closed; the same occurrence while active. */
  predicate Continues(before: Doc, after: Doc, acked: set<string>) {
    && (!before.active ==> after == before)
    && after.key == before.key
    && after.firstSeen == before.firstSeen
    && (before.key !in acked ==> after.ack == before.ack)
    && (before.active && !after.active ==> after.cleared == Some(after.lastSeen))
  }

  predicate Extends(before: seq<Doc>, after: seq<Doc>, acked: set<string>) {
    |before| <= |after| && forall i | 0 <= i < |before| :: Continues(before[i], after[i], acked)
  }

  lemma {:induction false} UpsertAllExtends(docs: seq<Doc>, deviceId: string, alerts: seq<Alert>, at: int, order: seq<nat>)
    requires Within(order, |alerts|)
    ensures Extends(docs, UpsertAll(docs, deviceId, alerts, at, order), {})
  {
    if order != [] {
      var before := UpsertAll(docs, deviceId, alerts, at, order[..|order| - 1]);
      UpsertAllExtends(docs, deviceId, alerts, at, order[..|order| - 1]);
      assert Extends(before, UpsertDoc(before, deviceId, alerts[order[|order| - 1]], at), {});
    }
  }

  lemma WriteExtends(docs: seq<Doc>, deviceId: string, alerts: seq<Alert>, at: int, outcome: Outcome)
    requires Possible(outcome, |alerts|)
    ensures Extends(docs, WriteDocs(docs, deviceId, alerts, at, outcome), {})
  {
    if outcome != Down {
      var order := if outcome.Done? then outcome.order else outcome.landed;
      var written := UpsertAll(docs, deviceId, alerts, at, order);
      UpsertAllExtends(docs, deviceId, alerts, at, order);
    }
  }

  function Acked(steps: seq<Step>): set<string> {
    set step <- steps | step.Acknowledge? :: step.key
  }

  lemma StepExtends(s: Store, step: Step)
    requires Legal(s, step)
    ensures Extends(s.docs, Apply(s, step).docs, Acked([step]))
  {
    match step
    case Report(deviceId, alerts, at, outcome) => WriteExtends(s.docs, deviceId, alerts, at, outcome);
    case Resync(deviceId, at, outcome) => WriteExtends(s.docs, deviceId, Replayed(MirrorOf(s, deviceId)), at, outcome);
    case Depart(deviceId, at, call) => if call.Some? { WriteExtends(s.docs, deviceId, [], at, call.value); }
    case Acknowledge(key, _, _) => assert step in [step];
    case Attach(_) =>
  }

  /**
   * Over any run: a closed document never changes; an active one keeps its onset through every
   * re-report and re-sync, and its acknowledgement too unless its own key is acknowledged or
   * un-acknowledged; closing stamps it with the sync's clock.
   */
  lemma {:induction false} RunsKeepHistory(s: Store, steps: seq<Step>)
    requires LegalRun(s, steps)
    ensures Extends(s.docs, Run(s, steps).docs, Acked(steps))
    decreases |steps|
  {
    if steps != [] {
      var front, last := steps[..|steps| - 1], steps[|steps| - 1];
      RunsKeepHistory(s, front);
      StepExtends(Run(s, front), last);
      assert steps == front + [last];
      assert Acked(steps) == Acked(front) + Acked([last]);
    }
  }

  lemma RunsOn(s: Store, steps: seq<Step>, step: Step)
    requires LegalRun(s, steps) && Legal(Run(s, steps), step)
    ensures LegalRun(s, steps + [step]) && Run(s, steps + [step]) == Apply(Run(s, steps), step)
  {
    assert (steps + [step])[..|steps|] == steps;
  }

  // The stored active set against the mirrored one.

  function ActiveKeys(docs: seq<Doc>, deviceId: string): set<string> {
    set doc <- docs | doc.active && doc.deviceId == deviceId :: doc.key
  }

  function EntryKeys(entries: seq<Doc>): set<string> {
    set entry <- entries :: entry.key
  }

  function MirrorKeys(s: Store, deviceId: string): set<string> {
    EntryKeys(MirrorOf(s, deviceId))
  }

  predicate Agrees(s: Store, deviceId: string) {
    ActiveKeys(s.docs, deviceId) == MirrorKeys(s, deviceId)
  }

  predicate Settled(s: Store, deviceId: string) {
    deviceId in s.pending || Agrees(s, deviceId)
  }

  lemma {:induction false} UpsertAllReaches(docs: seq<Doc>, deviceId: string, alerts: seq<Alert>, at: int, order: seq<nat>, k: nat)
    requires Within(order, |alerts|) && k in order
    ensures Key(deviceId, alerts[k].id) in ActiveKeys(UpsertAll(docs, deviceId, alerts, at, order), deviceId)
  {
    var front, last := order[..|order| - 1], order[|order| - 1];
    var before := UpsertAll(docs, deviceId, alerts, at, front);
    var after := UpsertAll(docs, deviceId, alerts, at, order);
    var index := Find(before, Key(deviceId, alerts[last].id));
    if k == last {
      assert after[index] in after;
    } else {
      assert order == front + [last];
      UpsertAllReaches(docs, deviceId, alerts, at, front, k);
      var doc :| doc in before && doc.active && doc.deviceId == deviceId && doc.key == Key(deviceId, alerts[k].id);
      var i :| 0 <= i < |before| && before[i] == doc;
      assert after[i] in after;
    }
  }

  /** A sync that succeeds leaves the device exactly the active documents it reported. */
  lemma DoneWritesTheActiveSet(docs: seq<Doc>, deviceId: string, alerts: seq<Alert>, at: int, order: seq<nat>)
    requires Covers(order, |alerts|)
    ensures ActiveKeys(WriteDocs(docs, deviceId, alerts, at, Done(order)), deviceId) == KeysOf(deviceId, alerts)
  {
    var written := UpsertAll(docs, deviceId, alerts, at, order);
    var after := WriteDocs(docs, deviceId, alerts, at, Done(order));
    forall key | key in KeysOf(deviceId, alerts) ensures key in ActiveKeys(after, deviceId) {
      var k: nat :| k < |alerts| && Key(deviceId, alerts[k].id) == key;
      UpsertAllReaches(docs, deviceId, alerts, at, order, k);
      var doc :| doc in written && doc.active && doc.deviceId == deviceId && doc.key == key;
      var i :| 0 <= i < |written| && written[i] == doc;
      assert after[i] in after;
    }
  }

  lemma MirrorListKeys(prior: seq<Doc>, deviceId: string, alerts: seq<Alert>, at: int)
    ensures EntryKeys(MirrorList(prior, deviceId, alerts, at)) == KeysOf(deviceId, alerts)
  {
    var list := MirrorList(prior, deviceId, alerts, at);
    forall key | key in KeysOf(deviceId, alerts) ensures key in EntryKeys(list) {
      var k :| 0 <= k < |alerts| && Key(deviceId, alerts[k].id) == key;
      assert list[k] in list && list[k].key == key;
    }
    forall key | key in EntryKeys(list) ensures key in KeysOf(deviceId, alerts) {
      var entry :| entry in list && entry.key == key;
      var k :| 0 <= k < |list| && list[k] == entry;
      assert alerts[k] in alerts;
    }
  }

  lemma SyncSettles(s: Store, deviceId: string, alerts: seq<Alert>, at: int, outcome: Outcome)
    requires Possible(outcome, |alerts|)
    ensures Settled(Sync(s, deviceId, alerts, at, outcome), deviceId)
  {
    if s.attached && outcome.Done? {
      DoneWritesTheActiveSet(s.docs, deviceId, alerts, at, outcome.order);
      MirrorListKeys(MirrorOf(s, deviceId), deviceId, alerts, at);
    }
  }

  // Other devices' steps.

  /** One id followed by a colon starts the other. */
  predicate IdExtends(id: string, other: string) {
    id + ":" <= other
  }

  predicate Apart(id: string, other: string) {
    !IdExtends(id, other) && !IdExtends(other, id)
  }

  lemma SharedKeyExtends(id: string, a: string, other: string, b: string)
    requires id != other && Key(id, a) == Key(other, b) && |id| <= |other|
    ensures IdExtends(id, other)
  {
    var key := Key(id, a);
    assert key[..|id|] == id && key[..|other|] == other;
    if |id| < |other| {
      assert key[|id|] == ':';
      assert (id + ":") == key[..|id| + 1] == other[..|id| + 1];
    }
  }

  /** Two devices can share an event key exactly when one id extends the other by a colon. */
  lemma KeysCollideIffIdsExtend(id: string, other: string)
    requires id != other
    ensures (exists a, b :: Key(id, a) == Key(other, b)) <==> !Apart(id, other)
  {
    if a, b :| Key(id, a) == Key(other, b) {
      if |id| <= |other| { SharedKeyExtends(id, a, other, b); } else { SharedKeyExtends(other, b, id, a); }
    }
    if IdExtends(id, other) { ExtensionShares(id, other); }
    if IdExtends(other, id) { ExtensionShares(other, id); }
  }

  lemma ExtensionShares(id: string, other: string)
    requires IdExtends(id, other)
    ensures Key(id, other[|id| + 1..] + ":x") == Key(other, "x")
  {
    assert other == id + ":" + other[|id| + 1..];
  }

  lemma ForeignUpsertKeepsActive(docs: seq<Doc>, deviceId: string, other: string, alert: Alert, at: int)
    requires WellKeyed(docs) && deviceId != other && Apart(deviceId, other)
    ensures ActiveKeys(UpsertDoc(docs, other, alert, at), deviceId) == ActiveKeys(docs, deviceId)
  {
    var after := UpsertDoc(docs, other, alert, at);
    var index := Find(docs, Key(other, alert.id));
    if index < |docs| {
      KeysCollideIffIdsExtend(deviceId, other);
      assert docs[index].deviceId != deviceId;
      forall doc | doc in docs && doc.active && doc.deviceId == deviceId ensures doc in after {
        var i :| 0 <= i < |docs| && docs[i] == doc;
        assert after[i] == doc;
      }
      assert forall doc | doc in after && doc.deviceId == deviceId :: doc in docs;
    }
  }

  lemma {:induction false} ForeignUpsertsKeepActive(
    docs: seq<Doc>, deviceId: string, other: string, alerts: seq<Alert>, at: int, order: seq<nat>)
    requires Orderly(docs) && deviceId != other && Apart(deviceId, other) && Within(order, |alerts|)
    ensures ActiveKeys(UpsertAll(docs, other, alerts, at, order), deviceId) == ActiveKeys(docs, deviceId)
  {
    if order != [] {
      var front := order[..|order| - 1];
      UpsertAllKeepsOrder(docs, other, alerts, at, front);
      ForeignUpsertsKeepActive(docs, deviceId, other, alerts, at, front);
      ForeignUpsertKeepsActive(UpsertAll(docs, other, alerts, at, front), deviceId, other, alerts[order[|order| - 1]], at);
    }
  }

  lemma ForeignCloseKeepsActive(
    docs: seq<Doc>, deviceId: string, other: string, keys: set<string>, at: int, reached: set<nat>)
    requires deviceId != other
    ensures ActiveKeys(CloseStale(docs, other, keys, at, reached), deviceId) == ActiveKeys(docs, deviceId)
  {
    var after := CloseStale(docs, other, keys, at, reached);
    forall doc | doc in docs && doc.deviceId == deviceId ensures doc in after {
      var i :| 0 <= i < |docs| && docs[i] == doc;
      assert after[i] == doc;
    }
    forall doc | doc in after && doc.deviceId == deviceId ensures doc in docs {
      var i :| 0 <= i < |after| && after[i] == doc;
      assert docs[i] == doc;
    }
  }

  lemma ForeignSyncKeepsSettled(s: Store, deviceId: string, other: string, alerts: seq<Alert>, at: int, outcome: Outcome)
    requires Orderly(s.docs) && deviceId != other && Apart(deviceId, other) && Possible(outcome, |alerts|)
    requires Settled(s, deviceId)
    ensures Settled(Sync(s, other, alerts, at, outcome), deviceId)
  {
    if outcome != Down {
      var order := if outcome.Done? then outcome.order else outcome.landed;
      var written := UpsertAll(s.docs, other, alerts, at, order);
      ForeignUpsertsKeepActive(s.docs, deviceId, other, alerts, at, order);
      ForeignCloseKeepsActive(written, deviceId, other, KeysOf(other, alerts), at,
        if outcome.Done? then Positions(|written|) else outcome.reached);
    }
  }

  lemma AckKeepsSettled(s: Store, order: seq<string>, key: string, ack: Option<Ack>, deviceId: string)
    requires Settled(s, deviceId)
    ensures Settled(SetAck(s, order, key, ack), deviceId)
  {
    var after := SetAck(s, order, key, ack);
    if s.attached {
      SameFacesSameKeys(s.docs, after.docs, deviceId);
    }
  }

  lemma SameFacesSameKeys(docs: seq<Doc>, after: seq<Doc>, deviceId: string)
    requires |docs| == |after|
    requires forall i | 0 <= i < |docs| ::
               docs[i].key == after[i].key && docs[i].active == after[i].active && docs[i].deviceId == after[i].deviceId
    ensures ActiveKeys(docs, deviceId) == ActiveKeys(after, deviceId)
  {
    forall key | key in ActiveKeys(docs, deviceId) ensures key in ActiveKeys(after, deviceId) {
      var i :| 0 <= i < |docs| && docs[i].active && docs[i].deviceId == deviceId && docs[i].key == key;
      assert after[i] in after;
    }
    forall key | key in ActiveKeys(after, deviceId) ensures key in ActiveKeys(docs, deviceId) {
      var i :| 0 <= i < |after| && after[i].active && after[i].deviceId == deviceId && after[i].key == key;
      assert docs[i] in docs;
    }
  }

  predicate Concerns(step: Step, deviceId: string) {
    (step.Report? || step.Resync? || step.Depart?) && step.deviceId == deviceId
  }

  /** Every other device the step syncs has an id that neither extends nor is extended by this one. */
  predicate LeavesAlone(step: Step, deviceId: string) {
    (step.Report? || step.Resync? || step.Depart?) && step.deviceId != deviceId ==> Apart(deviceId, step.deviceId)
  }

  lemma OwnStepSettles(s: Store, step: Step, deviceId: string)
    requires Legal(s, step) && Concerns(step, deviceId)
    requires Settled(s, deviceId) || step.Report?
    ensures Settled(Apply(s, step), deviceId)
  {
    match step
    case Report(_, alerts, at, outcome) => SyncSettles(s, deviceId, alerts, at, outcome);
    case Resync(_, at, outcome) =>
      if deviceId in s.pending { SyncSettles(s, deviceId, Replayed(MirrorOf(s, deviceId)), at, outcome); }
    case Depart(_, at, call) =>
      if call.Some? {
        SyncSettles(s, deviceId, [], at, call.value);
        MirrorListKeys(MirrorOf(s, deviceId), deviceId, [], at);
      }
    case _ =>
  }

  lemma ForeignStepKeepsSettled(s: Store, step: Step, deviceId: string)
    requires Orderly(s.docs) && Legal(s, step) && !Concerns(step, deviceId) && LeavesAlone(step, deviceId)
    requires Settled(s, deviceId)
    ensures Settled(Apply(s, step), deviceId)
  {
    match step
    case Report(other, alerts, at, outcome) => ForeignSyncKeepsSettled(s, deviceId, other, alerts, at, outcome);
    case Resync(other, at, outcome) =>
      if other in s.pending { ForeignSyncKeepsSettled(s, deviceId, other, Replayed(MirrorOf(s, other)), at, outcome); }
    case Depart(other, at, call) =>
      if call.Some? { ForeignSyncKeepsSettled(s, deviceId, other, [], at, call.value); }
    case Acknowledge(key, ack, order) => AckKeepsSettled(s, order, key, ack, deviceId);
    case Attach(_) =>
  }

  /**
   * Once a device has reported, then after every later step either it is waiting for a re-sync or its
   * active documents are exactly its in-memory active set, as long as no other device's id collides.
   */
  lemma {:induction false} ReportedDevicesStaySettled(s: Store, steps: seq<Step>, deviceId: string)
    requires Orderly(s.docs) && LegalRun(s, steps)
    requires forall step <- steps :: LeavesAlone(step, deviceId)
    requires Settled(s, deviceId) || exists step <- steps :: step.Report? && step.deviceId == deviceId
    ensures Settled(Run(s, steps), deviceId)
    decreases |steps|
  {
    if steps != [] {
      var front, last := steps[..|steps| - 1], steps[|steps| - 1];
      assert steps == front + [last];
      if last.Report? && last.deviceId == deviceId {
        OwnStepSettles(Run(s, front), last, deviceId);
      } else {
        ReportedDevicesStaySettled(s, front, deviceId);
        RunsKeepOneActivePerKey(s, front);
        if Concerns(last, deviceId) { OwnStepSettles(Run(s, front), last, deviceId); }
        else { ForeignStepKeepsSettled(Run(s, front), last, deviceId); }
      }
    }
  }

  const FRESH := Store([], map[], {}, true)

  /** A sync of one alert into an empty collection. */
  lemma FirstOfItsKey(deviceId: string, alert: Alert, at: int)
    ensures Covers([0], 1) && WriteDocs([], deviceId, [alert], at, Done([0])) == [NewDoc(deviceId, alert, at)]
  {
    var doc := NewDoc(deviceId, alert, at);
    assert [0][..0] == [];
    assert UpsertAll([], deviceId, [alert], at, [0]) == [doc];
    assert doc.key in KeysOf(deviceId, [alert]) by { assert alert in [alert]; }
  }

  /** The next sync that reports the same key takes the document over. */
  lemma SecondOfItsKey(doc: Doc, deviceId: string, alert: Alert, at: int)
    requires IsActive(doc, Key(deviceId, alert.id))
    ensures Covers([0], 1) && WriteDocs([doc], deviceId, [alert], at, Done([0])) == [Refreshed(doc, deviceId, alert, at)]
  {
    var taken := Refreshed(doc, deviceId, alert, at);
    assert [0][..0] == [];
    assert UpsertAll([doc], deviceId, [alert], at, [0]) == [taken];
    assert taken.key in KeysOf(deviceId, [alert]) by { assert alert in [alert]; }
  }

  lemma TwoReports(s: Store, first: Step, second: Step)
    requires Legal(s, first) && Legal(Apply(s, first), second)
    ensures LegalRun(s, [first, second]) && Run(s, [first, second]) == Apply(Apply(s, first), second)
  {
    RunsOn(s, [], first);
    assert [] + [first] == [first];
    RunsOn(s, [first], second);
    assert [first] + [second] == [first, second];
  }

  /** Two fault-free reports of two devices whose ids collide. */
  function CollidingReports(id: string, other: string): seq<Step>
    requires IdExtends(id, other)
  {
    [Report(id, [Alert(other[|id| + 1..] + ":x", "", 0, None)], 0, Done([0])),
     Report(other, [Alert("x", "", 0, None)], 0, Done([0]))]
  }

  /** The condition is needed: for every pair of colliding ids a fault-free run breaks the agreement. */
  lemma CollidingIdsLoseAnOccurrence(id: string, other: string)
    requires IdExtends(id, other)
    ensures LegalRun(FRESH, CollidingReports(id, other))
    ensures !Settled(Run(FRESH, CollidingReports(id, other)), id)
  {
    var mine := Alert(other[|id| + 1..] + ":x", "", 0, None);
    var theirs := Alert("x", "", 0, None);
    ExtensionShares(id, other);
    FirstOfItsKey(id, mine, 0);
    SecondOfItsKey(NewDoc(id, mine, 0), other, theirs, 0);
    TwoReports(FRESH, Report(id, [mine], 0, Done([0])), Report(other, [theirs], 0, Done([0])));
    TakenOverIsUnsettled(Sync(FRESH, id, [mine], 0, Done([0])), id, mine, other, theirs);
  }

  lemma TakenOverIsUnsettled(one: Store, id: string, mine: Alert, other: string, theirs: Alert)
    requires id != other && one == Sync(FRESH, id, [mine], 0, Done([0]))
    requires Sync(one, other, [theirs], 0, Done([0])).docs == [Refreshed(NewDoc(id, mine, 0), other, theirs, 0)]
    ensures !Settled(Sync(one, other, [theirs], 0, Done([0])), id)
  {
    var two := Sync(one, other, [theirs], 0, Done([0]));
    assert ActiveKeys(two.docs, id) == {};
    var entries := MirrorOf(two, id);
    assert entries == MirrorList([], id, [mine], 0);
    assert entries[0] in entries && entries[0].key in MirrorKeys(two, id);
  }

  // What a sync writes.

  /** A sync closes a document only if it is the device's and its key is not reported, and stamps it with its own clock. */
  lemma SyncClosesOnlyStale(docs: seq<Doc>, deviceId: string, alerts: seq<Alert>, at: int, outcome: Outcome, i: nat)
    requires Possible(outcome, |alerts|) && i < |docs| && docs[i].active
    ensures var after := WriteDocs(docs, deviceId, alerts, at, outcome);
            i < |after|
            && (!after[i].active ==>
                  after[i].cleared == Some(at) && after[i].deviceId == deviceId && docs[i].key !in KeysOf(deviceId, alerts))
  {
    if outcome != Down {
      var order := if outcome.Done? then outcome.order else outcome.landed;
      UpsertAllExtends(docs, deviceId, alerts, at, order);
      UpsertAllClosesNothing(docs, deviceId, alerts, at, order, i);
      assert Continues(docs[i], UpsertAll(docs, deviceId, alerts, at, order)[i], {});
    }
  }

  lemma {:induction false} UpsertAllClosesNothing(
    docs: seq<Doc>, deviceId: string, alerts: seq<Alert>, at: int, order: seq<nat>, i: nat)
    requires Within(order, |alerts|) && i < |docs| && docs[i].active
    ensures |docs| <= |UpsertAll(docs, deviceId, alerts, at, order)| && UpsertAll(docs, deviceId, alerts, at, order)[i].active
  {
    if order != [] { UpsertAllClosesNothing(docs, deviceId, alerts, at, order[..|order| - 1], i); }
  }

  predicate Reflects(doc: Doc, deviceId: string, alert: Alert, at: int) {
    doc.deviceId == deviceId && doc.alertId == alert.id && doc.detail == alert.detail && doc.ts == alert.ts && doc.lastSeen == at
  }

  lemma {:induction false} UpsertAllReflects(
    docs: seq<Doc>, deviceId: string, alerts: seq<Alert>, at: int, order: seq<nat>, k: nat, i: nat)
    requires Orderly(docs) && Within(order, |alerts|) && k in order
    requires forall a, b | 0 <= a < b < |alerts| :: alerts[a].id != alerts[b].id
    requires i < |UpsertAll(docs, deviceId, alerts, at, order)|
    requires IsActive(UpsertAll(docs, deviceId, alerts, at, order)[i], Key(deviceId, alerts[k].id))
    ensures Reflects(UpsertAll(docs, deviceId, alerts, at, order)[i], deviceId, alerts[k], at)
  {
    var front, last := order[..|order| - 1], order[|order| - 1];
    var before, after := UpsertAll(docs, deviceId, alerts, at, front), UpsertAll(docs, deviceId, alerts, at, order);
    KeysTellAlerts(deviceId, alerts[last].id, alerts[k].id);
    if last != k {
      assert order == front + [last];
      assert i < |before| && after[i] == before[i];
      UpsertAllReflects(docs, deviceId, alerts, at, front, k, i);
    } else {
      UpsertAllKeepsOrder(docs, deviceId, alerts, at, order);
      var index := Find(before, Key(deviceId, alerts[k].id));
      assert IsActive(after[index], Key(deviceId, alerts[k].id));
      assert i == index;
    }
  }

  /** After a sync that succeeds, the active document of each reported alert says what was reported, as of the sync's clock. */
  lemma DoneWritesWhatWasReported(docs: seq<Doc>, deviceId: string, alerts: seq<Alert>, at: int, order: seq<nat>, k: nat, i: nat)
    requires Orderly(docs) && Covers(order, |alerts|) && k < |alerts|
    requires forall a, b | 0 <= a < b < |alerts| :: alerts[a].id != alerts[b].id
    requires var after := WriteDocs(docs, deviceId, alerts, at, Done(order));
             i < |after| && IsActive(after[i], Key(deviceId, alerts[k].id))
    ensures Reflects(WriteDocs(docs, deviceId, alerts, at, Done(order))[i], deviceId, alerts[k], at)
  {
    UpsertAllReflects(docs, deviceId, alerts, at, order, k, i);
  }

  /** In memory a re-report carries the acknowledgement over, and the onset unless the alert brings its own. */
  lemma ReReportCarriesOver(s: Store, deviceId: string, alerts: seq<Alert>, at: int, outcome: Outcome, i: nat, k: nat)
    requires Possible(outcome, |alerts|) && i < |alerts| && k < |MirrorOf(s, deviceId)| && DistinctKeys(MirrorOf(s, deviceId))
    requires MirrorOf(s, deviceId)[k].key == Key(deviceId, alerts[i].id)
    ensures var before, after := MirrorOf(s, deviceId)[k], MirrorOf(Sync(s, deviceId, alerts, at, outcome), deviceId)[i];
            && after.key == before.key && after.ack == before.ack
            && after.firstSeen == if alerts[i].firstSeen.Some? then alerts[i].firstSeen.value else before.firstSeen
  {
    PriorFinds(MirrorOf(s, deviceId), k);
  }

  lemma {:induction false} PriorFinds(entries: seq<Doc>, k: nat)
    requires k < |entries| && DistinctKeys(entries)
    ensures Prior(entries, entries[k].key) == Some(entries[k])
  {
    if k < |entries| - 1 {
      assert entries[..|entries| - 1][k] == entries[k];
      PriorFinds(entries[..|entries| - 1], k);
    }
  }

  predicate DistinctKeys(entries: seq<Doc>) {
    forall i, j | 0 <= i < j < |entries| :: entries[i].key != entries[j].key
  }

  lemma {:induction false} UpsertAllOnset(
    docs: seq<Doc>, deviceId: string, alerts: seq<Alert>, at: int, order: seq<nat>, k: nat)
    requires Orderly(docs) && Within(order, |alerts|) && k < |alerts|
    requires forall i, j | 0 <= i < j < |alerts| :: alerts[i].id != alerts[j].id
    requires Find(docs, Key(deviceId, alerts[k].id)) == |docs|
    ensures var after := UpsertAll(docs, deviceId, alerts, at, order);
            forall doc <- after | IsActive(doc, Key(deviceId, alerts[k].id)) :: doc.firstSeen == Onset(alerts[k])
  {
    var key := Key(deviceId, alerts[k].id);
    if order == [] {
      assert forall i | 0 <= i < |docs| :: !IsActive(docs[i], key);
    } else {
      var front, last := order[..|order| - 1], order[|order| - 1];
      UpsertAllOnset(docs, deviceId, alerts, at, front, k);
      var before := UpsertAll(docs, deviceId, alerts, at, front);
      var after := UpsertAll(docs, deviceId, alerts, at, order);
      KeysTellAlerts(deviceId, alerts[last].id, alerts[k].id);
      forall doc | doc in after && IsActive(doc, key) ensures doc.firstSeen == Onset(alerts[k]) {
        var i :| 0 <= i < |after| && after[i] == doc;
        if i < |before| && after[i] != before[i] { assert before[i] in before; }
      }
    }
  }

  lemma KeysTellAlerts(deviceId: string, a: string, b: string)
    ensures Key(deviceId, a) == Key(deviceId, b) <==> a == b
  {
    assert Key(deviceId, a)[|deviceId| + 1..] == a && Key(deviceId, b)[|deviceId| + 1..] == b;
  }

  predicate WellMirrored(entries: seq<Doc>, deviceId: string) {
    forall i | 0 <= i < |entries| :: entries[i].key == Key(deviceId, entries[i].alertId)
  }

  /** An occurrence that began while the database was away is stored with its own onset, not the re-sync's clock. */
  lemma ResyncKeepsMirroredOnsets(s: Store, deviceId: string, at: int, order: seq<nat>, k: nat)
    requires Orderly(s.docs) && s.attached && deviceId in s.pending
    requires var entries := MirrorOf(s, deviceId);
             k < |entries| && Covers(order, |entries|) && DistinctKeys(entries) && WellMirrored(entries, deviceId)
    requires Find(s.docs, MirrorOf(s, deviceId)[k].key) == |s.docs|
    ensures var entry := MirrorOf(s, deviceId)[k];
            var after := Apply(s, Resync(deviceId, at, Done(order))).docs;
            entry.key in ActiveKeys(after, deviceId)
            && forall doc <- after | IsActive(doc, entry.key) :: doc.firstSeen == entry.firstSeen
  {
    var entries := MirrorOf(s, deviceId);
    var alerts := Replayed(entries);
    var after := Apply(s, Resync(deviceId, at, Done(order))).docs;
    UpsertAllOnset(s.docs, deviceId, alerts, at, order, k);
    DoneWritesTheActiveSet(s.docs, deviceId, alerts, at, order);
    assert alerts[k] in alerts;
    var written := UpsertAll(s.docs, deviceId, alerts, at, order);
    forall doc | doc in after && IsActive(doc, entries[k].key) ensures doc.firstSeen == entries[k].firstSeen {
      var i :| 0 <= i < |after| && after[i] == doc;
      assert written[i] in written && IsActive(written[i], entries[k].key);
    }
  }

  /** An acknowledgement that reaches only the mirror. */
  lemma AcknowledgedInMemory(s: Store, deviceId: string, entry: Doc, ack: Ack)
    requires !s.attached && MirrorOf(s, deviceId) == [entry] && deviceId in s.mirror
    ensures var after := SetAck(s, [deviceId], entry.key, Some(ack));
            after == s.(mirror := after.mirror) && MirrorOf(after, deviceId) == [entry.(ack := Some(ack))]
  {
    assert entry in MirrorOf(s, deviceId);
    assert Owner(s, [deviceId], entry.key) == Some(deviceId);
  }

  lemma ResyncOfOne(s: Store, deviceId: string, entry: Doc)
    requires s.attached && s.docs == [] && deviceId in s.pending && deviceId in s.mirror
    requires MirrorOf(s, deviceId) == [entry] && entry.key == Key(deviceId, entry.alertId)
    ensures Legal(s, Resync(deviceId, 1, Done([0])))
    ensures var after := Apply(s, Resync(deviceId, 1, Done([0])));
            && |MirrorOf(after, deviceId)| == 1 && MirrorOf(after, deviceId)[0].ack == entry.ack
            && |after.docs| == 1 && after.docs[0].key == entry.key && after.docs[0].ack == None
  {
    var alert := Replayed([entry])[0];
    assert Replayed([entry]) == [alert];
    assert Covers([0], 1);
    FirstOfItsKey(deviceId, alert, 1);
    assert [entry][..0] == [] && Prior([entry], entry.key) == Some(entry);
  }

  /** An alert reported and acknowledged before the database is reached, then re-synced. */
  function EarlyAcknowledgement(deviceId: string, alert: Alert, ack: Ack): seq<Step> {
    [Report(deviceId, [alert], 0, Down), Acknowledge(Key(deviceId, alert.id), Some(ack), [deviceId]),
     Attach(true), Resync(deviceId, 1, Done([0]))]
  }

  lemma FourSteps(s: Store, a: Step, b: Step, c: Step, d: Step, mid: Store)
    requires Legal(s, a) && Legal(Apply(s, a), b) && Apply(Apply(s, a), b) == mid
    requires Legal(mid, c) && Legal(Apply(mid, c), d)
    ensures LegalRun(s, [a, b, c, d]) && Run(s, [a, b, c, d]) == Apply(Apply(mid, c), d)
  {
    TwoReports(s, a, b);
    RunsOn(s, [a, b], c);
    RunsOn(s, [a, b] + [c], d);
    assert [a, b] + [c] + [d] == [a, b, c, d];
  }

  /** Reported and acknowledged while detached: only the mirror knows. */
  lemma AcknowledgedEarly(deviceId: string, alert: Alert, ack: Ack)
    ensures var away, report := FRESH.(attached := false), Report(deviceId, [alert], 0, Down);
            var acked := SetAck(Apply(away, report), [deviceId], Key(deviceId, alert.id), Some(ack));
            var entry := NewDoc(deviceId, alert, 0).(ack := Some(ack));
            && acked.docs == [] && !acked.attached && deviceId in acked.pending && deviceId in acked.mirror
            && MirrorOf(acked, deviceId) == [entry]
  {
    var one := Apply(FRESH.(attached := false), Report(deviceId, [alert], 0, Down));
    assert MirrorOf(one, deviceId) == [NewDoc(deviceId, alert, 0)];
    AcknowledgedInMemory(one, deviceId, NewDoc(deviceId, alert, 0), ack);
  }

  /**
   * An acknowledgement given before the database is first reached stays in memory: for any such alert
   * and acknowledgement the re-sync stores the occurrence unacknowledged, while the mirror keeps it.
   */
  lemma EarlyAcknowledgementsAreNotStored(deviceId: string, alert: Alert, ack: Ack)
    ensures var away := FRESH.(attached := false);
            var steps := EarlyAcknowledgement(deviceId, alert, ack);
            && LegalRun(away, steps)
            && var end := Run(away, steps);
               |MirrorOf(end, deviceId)| == 1 && MirrorOf(end, deviceId)[0].ack == Some(ack)
               && |end.docs| == 1 && end.docs[0].key == Key(deviceId, alert.id) && end.docs[0].ack == None
  {
    var away := FRESH.(attached := false);
    var report, acked := Report(deviceId, [alert], 0, Down), Acknowledge(Key(deviceId, alert.id), Some(ack), [deviceId]);
    var mid := Apply(Apply(away, report), acked);
    AcknowledgedEarly(deviceId, alert, ack);
    ResyncOfOne(mid.(attached := true), deviceId, NewDoc(deviceId, alert, 0).(ack := Some(ack)));
    FourSteps(away, report, acked, Attach(true), Resync(deviceId, 1, Done([0])), mid);
  }

  // The retry timer.

  lemma {:induction false} RunsFrom(s: Store, step: Step, rest: seq<Step>)
    requires Legal(s, step) && LegalRun(Apply(s, step), rest)
    ensures LegalRun(s, [step] + rest) && Run(s, [step] + rest) == Run(Apply(s, step), rest)
    decreases |rest|
  {
    if rest == [] {
      RunsOn(s, [], step);
      assert [] + [step] == [step] + rest;
    } else {
      var front, last := rest[..|rest| - 1], rest[|rest| - 1];
      RunsFrom(s, step, front);
      RunsOn(s, [step] + front, last);
      assert [step] + front + [last] == [step] + rest;
    }
  }

  /** The re-syncs one pass of the retry timer makes. */
  ghost function Pass(s: Store, waiting: seq<string>, at: int, database: Database): seq<Step>
    requires Answers(database)
    decreases |waiting|
  {
    if waiting == [] then []
    else
      var step := PassStep(s, waiting[0], at, database);
      var next := Apply(s, step);
      [step] + if waiting[0] in next.pending then [] else Pass(next, waiting[1..], at, database)
  }

  ghost function PassStep(s: Store, deviceId: string, at: int, database: Database): (step: Step)
    requires Answers(database)
    ensures Legal(s, step)
  {
    var alerts := Replayed(MirrorOf(s, deviceId));
    assert Possible(database(deviceId, alerts), |alerts|);
    Resync(deviceId, at, database(deviceId, alerts))
  }

  lemma PassStepSyncs(s: Store, deviceId: string, at: int, database: Database)
    requires Answers(database) && deviceId in s.pending
    ensures var alerts := Replayed(MirrorOf(s, deviceId));
            Apply(s, PassStep(s, deviceId, at, database)) == Sync(s, deviceId, alerts, at, database(deviceId, alerts))
    ensures forall other | other in s.pending && other != deviceId ::
              other in Apply(s, PassStep(s, deviceId, at, database)).pending
  {}

  /** A pass of the retry timer is a legal run of re-syncs, so what runs keep, a pass keeps. */
  lemma {:induction false} ResyncPassIsARun(s: Store, waiting: seq<string>, at: int, database: Database)
    requires Answers(database)
    requires forall i | 0 <= i < |waiting| :: waiting[i] in s.pending
    requires forall i, j | 0 <= i < j < |waiting| :: waiting[i] != waiting[j]
    ensures LegalRun(s, Pass(s, waiting, at, database))
    ensures Run(s, Pass(s, waiting, at, database)) == ResyncAll(s, waiting, at, database)
    decreases |waiting|
  {
    if waiting != [] {
      var step := PassStep(s, waiting[0], at, database);
      PassStepSyncs(s, waiting[0], at, database);
      if waiting[0] in Apply(s, step).pending {
        RunsFrom(s, step, []);
        assert [step] + [] == [step];
      } else {
        var rest := waiting[1..];
        forall i | 0 <= i < |rest| ensures rest[i] in Apply(s, step).pending {
          assert rest[i] == waiting[i + 1] && waiting[0] != waiting[i + 1];
        }
        ResyncPassIsARun(Apply(s, step), rest, at, database);
        RunsFrom(s, step, Pass(Apply(s, step), rest, at, database));
      }
    }
  }

  ghost predicate Willing(database: Database) {
    forall deviceId, alerts :: database(deviceId, alerts).Done?
  }

  /** A pass in which every sync succeeds leaves none of its devices waiting and makes no other wait. */
  lemma {:induction false} WillingDatabaseClearsTheBacklog(s: Store, waiting: seq<string>, at: int, database: Database)
    requires Answers(database) && Willing(database) && s.attached
    ensures forall deviceId :: deviceId in ResyncAll(s, waiting, at, database).pending
                               <==> deviceId in s.pending && deviceId !in waiting
    decreases |waiting|
  {
    if waiting != [] {
      var alerts := Replayed(MirrorOf(s, waiting[0]));
      assert database(waiting[0], alerts).Done?;
      assert Possible(database(waiting[0], alerts), |alerts|);
      WillingDatabaseClearsTheBacklog(
        Sync(s, waiting[0], alerts, at, database(waiting[0], alerts)), waiting[1..], at, database);
    }
  }
}
