/** What the backfill sink holds of a report: the occurrences open in memory, and how they are closed (`backend/sim/sink.ts`). */
module SinkRecordProofs {
  import opened Wrappers
  import opened OccurrenceSteps
  import opened OccurrenceProofs
  import opened SinkSteps

  /** An open occurrence that says what was reported last. */
  predicate Says(doc: Doc, deviceId: string, alert: Alert, at: int) {
    && doc.key == deviceId + ":" + alert.id && doc.deviceId == deviceId && doc.alertId == alert.id
    && doc.detail == alert.detail && doc.ts == alert.ts && doc.active && doc.lastSeen == at
  }

  predicate OneEntryPerKey(entries: seq<Open>) {
    forall i, j | 0 <= i < j < |entries| :: entries[i].doc.key != entries[j].doc.key
  }

  lemma TouchOne(entries: seq<Open>, deviceId: string, alert: Alert, at: int)
    requires OneEntryPerKey(entries)
    ensures var after, key := Touch(entries, deviceId, alert, at), Key(deviceId, alert.id);
            && OneEntryPerKey(after) && |entries| <= |after|
            && (forall i | 0 <= i < |after| && after[i].doc.key == key :: Says(after[i].doc, deviceId, alert, at))
            && (exists i :: 0 <= i < |after| && after[i].doc.key == key)
            && (forall i | 0 <= i < |entries| ::
                  after[i].doc.key == entries[i].doc.key && (entries[i].doc.key != key ==> after[i] == entries[i]))
            && (forall i | |entries| <= i < |after| :: after[i].doc.key == key)
  {
    var index := IndexOf(entries, Key(deviceId, alert.id));
    assert Touch(entries, deviceId, alert, at)[index].doc.key == Key(deviceId, alert.id);
  }

  /** The vehicle's open occurrences after the first `count` alerts. */
  ghost predicate Touched(entries: seq<Open>, deviceId: string, alerts: seq<Alert>, at: int, count: nat)
    requires count <= |alerts|
  {
    && OneEntryPerKey(entries)
    && forall k | 0 <= k < count :: SaidOnce(entries, deviceId, alerts[k], at)
  }

  ghost predicate SaidOnce(entries: seq<Open>, deviceId: string, alert: Alert, at: int) {
    exists i :: 0 <= i < |entries| && Says(entries[i].doc, deviceId, alert, at)
  }

  lemma {:induction false} TouchAllTouches(entries: seq<Open>, deviceId: string, alerts: seq<Alert>, at: int, count: nat)
    requires OneEntryPerKey(entries) && count <= |alerts|
    requires forall i, j | 0 <= i < j < |alerts| :: alerts[i].id != alerts[j].id
    ensures Touched(TouchAll(entries, deviceId, alerts, at, count), deviceId, alerts, at, count)
  {
    if count > 0 {
      var before := TouchAll(entries, deviceId, alerts, at, count - 1);
      TouchAllTouches(entries, deviceId, alerts, at, count - 1);
      TouchOne(before, deviceId, alerts[count - 1], at);
      var after := Touch(before, deviceId, alerts[count - 1], at);
      forall k | 0 <= k < count ensures SaidOnce(after, deviceId, alerts[k], at) {
        if k < count - 1 {
          var i :| 0 <= i < |before| && Says(before[i].doc, deviceId, alerts[k], at);
          KeysTellAlerts(deviceId, alerts[k].id, alerts[count - 1].id);
          assert after[i] == before[i];
        } else {
          var i :| 0 <= i < |after| && after[i].doc.key == Key(deviceId, alerts[k].id);
        }
      }
    }
  }

  /** Closing keeps the entries still reported, in order, and no other. */
  lemma {:induction false} ExpireKeepsTheReported(s: Sink, deviceId: string, current: set<string>, at: int, staff: Staff, i: nat)
    requires i <= |OpenOf(s.open, deviceId)|
    requires forall j | 0 <= j < i :: OpenOf(s.open, deviceId)[j].doc.key in current
    ensures var entries, after := OpenOf(s.open, deviceId), OpenOf(Expire(s, deviceId, current, at, staff, i).open, deviceId);
            forall entry :: entry in after <==> entry in entries && entry.doc.key in current
    ensures forall other | other != deviceId ::
              OpenOf(Expire(s, deviceId, current, at, staff, i).open, other) == OpenOf(s.open, other)
    decreases |OpenOf(s.open, deviceId)| - i
  {
    var entries := OpenOf(s.open, deviceId);
    if i < |entries| {
      if entries[i].doc.key in current {
        ExpireKeepsTheReported(s, deviceId, current, at, staff, i + 1);
      } else {
        var next := CloseEntry(s, deviceId, i, at, staff);
        assert OpenOf(next.open, deviceId) == entries[..i] + entries[i + 1..];
        ExpireKeepsTheReported(next, deviceId, current, at, staff, i);
        assert entries == entries[..i] + [entries[i]] + entries[i + 1..];
      }
    }
  }

  /**
   * After an upsert the occurrences open for the vehicle are exactly the reported ones, each as it was reported;
   * those of other vehicles are untouched.
   */
  lemma OpenIsWhatWasReported(s: Sink, roster: seq<string>, deviceId: string, alerts: seq<Alert>, at: int, staff: Staff)
    requires deviceId in roster && OneEntryPerKey(OpenOf(s.open, deviceId))
    requires forall i, j | 0 <= i < j < |alerts| :: alerts[i].id != alerts[j].id
    ensures var after := OpenOf(Upsert(s, roster, deviceId, alerts, at, staff).open, deviceId);
            && (forall entry <- after :: entry.doc.key in KeysOf(deviceId, alerts))
            && (forall k | 0 <= k < |alerts| :: SaidOnce(after, deviceId, alerts[k], at))
    ensures forall other | other != deviceId ::
              OpenOf(Upsert(s, roster, deviceId, alerts, at, staff).open, other) == OpenOf(s.open, other)
  {
    var touched := TouchAll(OpenOf(s.open, deviceId), deviceId, alerts, at, |alerts|);
    var start := s.(open := s.open[deviceId := touched]);
    TouchAllTouches(OpenOf(s.open, deviceId), deviceId, alerts, at, |alerts|);
    ExpireKeepsTheReported(start, deviceId, KeysOf(deviceId, alerts), at, staff, 0);
    var after := OpenOf(Upsert(s, roster, deviceId, alerts, at, staff).open, deviceId);
    forall k | 0 <= k < |alerts| ensures SaidOnce(after, deviceId, alerts[k], at) {
      var i :| 0 <= i < |touched| && Says(touched[i].doc, deviceId, alerts[k], at);
      assert alerts[k] in alerts && touched[i] in after;
      var j :| 0 <= j < |after| && after[j] == touched[i];
    }
  }

  /**
   * An occurrence that ends is closed at the call's time, and acknowledged by the staff unless someone already
   * had. It waits in the buffer if it was never stored; else the stored one is closed the same way.
   */
  lemma EndedIsClosed(s: Sink, deviceId: string, i: nat, at: int, staff: Staff)
    requires i < |OpenOf(s.open, deviceId)|
    ensures var entry, after := OpenOf(s.open, deviceId)[i], CloseEntry(s, deviceId, i, at, staff);
            var ended := entry.doc.(active := false, cleared := Some(at), lastSeen := at);
            var ack := if entry.doc.ack.Some? then entry.doc.ack else staff(ended);
            && (!entry.stored ==> after.docs == s.docs && after.closed == s.closed + [ended.(ack := ack)])
            && (entry.stored ==>
                  && after.closed == s.closed && |after.docs| == |s.docs|
                  && var index := Find(s.docs, entry.doc.key);
                     if index == |s.docs| then after.docs == s.docs
                     else after.docs == s.docs[index := s.docs[index].(active := false, cleared := Some(at), lastSeen := at, ack := ack)])
  {}

  /** The buffer never holds a whole batch between calls. */
  lemma {:induction false} BufferStaysBelowABatch(s: Sink, roster: seq<string>, calls: seq<Call>, staff: Staff)
    requires |s.closed| < 5000
    ensures |SinkRun(s, roster, calls, staff).closed| < 5000
  {
    if calls != [] { BufferStaysBelowABatch(s, roster, calls[..|calls| - 1], staff); }
  }
}
