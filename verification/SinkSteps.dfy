/**
 * The history backfill's batched form of the alert reconciliation (`backend/sim/sink.ts`).
 *
 * Occurrences open in memory are kept per vehicle in the order a JavaScript `Map` would hold them;
 * closed ones wait in a buffer; MongoDB is written when the buffer is full, when an occurrence it
 * already holds is closed, and at the hand-over.
 */
module SinkSteps {
  import opened Wrappers
  import opened OccurrenceSteps

  datatype Open = Open(doc: Doc, stored: bool)

  datatype Sink = Sink(docs: seq<Doc>, open: map<string, seq<Open>>, closed: seq<Doc>)

  const BATCH := 5000

  /** Who acknowledges a closed occurrence, if anyone does. */
  type Staff = Doc -> Option<Ack>

  function OpenOf(open: map<string, seq<Open>>, deviceId: string): seq<Open> {
    if deviceId in open then open[deviceId] else []
  }

  function IndexOf(entries: seq<Open>, key: string): (index: nat)
    ensures index <= |entries|
    ensures index < |entries| ==> entries[index].doc.key == key
    ensures forall i | 0 <= i < index :: entries[i].doc.key != key
  {
    if entries == [] then 0 else if entries[0].doc.key == key then 0 else 1 + IndexOf(entries[1..], key)
  }

  function Put(entries: seq<Open>, entry: Open): seq<Open> {
    var index := IndexOf(entries, entry.doc.key);
    if index < |entries| then entries[index := entry] else entries + [entry]
  }

  /** What `connect` finds open in the collection for the vehicles of this shard. */
  function Connected(docs: seq<Doc>, roster: seq<string>): map<string, seq<Open>> {
    if docs == [] then map[]
    else
      var open := Connected(docs[..|docs| - 1], roster);
      var doc := docs[|docs| - 1];
      if doc.active && doc.deviceId in roster
      then open[doc.deviceId := Put(OpenOf(open, doc.deviceId), Open(doc, true))]
      else open
  }

  function Connect(docs: seq<Doc>, roster: seq<string>): Sink {
    Sink(docs, Connected(docs, roster), [])
  }

  function Touch(entries: seq<Open>, deviceId: string, alert: Alert, at: int): seq<Open> {
    var index := IndexOf(entries, Key(deviceId, alert.id));
    if index < |entries| then entries[index := entries[index].(doc := Refreshed(entries[index].doc, deviceId, alert, at))]
    else entries + [Open(NewDoc(deviceId, alert, at), false)]
  }

  function TouchAll(entries: seq<Open>, deviceId: string, alerts: seq<Alert>, at: int, count: nat): seq<Open>
    requires count <= |alerts|
  {
    if count == 0 then entries
    else Touch(TouchAll(entries, deviceId, alerts, at, count - 1), deviceId, alerts[count - 1], at)
  }

  /** A closed occurrence, acknowledged by the staff unless someone already had. */
  function Finished(doc: Doc, at: int, staff: Staff): Doc {
    var closed := ClosedDoc(doc, at);
    if closed.ack.Some? then closed else closed.(ack := staff(closed))
  }

  /** The update that closes the stored occurrence with this key. */
  function CloseStored(docs: seq<Doc>, key: string, at: int, ack: Option<Ack>): seq<Doc> {
    var index := Find(docs, key);
    if index == |docs| then docs else docs[index := ClosedDoc(docs[index], at).(ack := ack)]
  }

  function CloseEntry(s: Sink, deviceId: string, i: nat, at: int, staff: Staff): Sink
    requires i < |OpenOf(s.open, deviceId)|
  {
    var entries := OpenOf(s.open, deviceId);
    var done := Finished(entries[i].doc, at, staff);
    var left := s.(open := s.open[deviceId := entries[..i] + entries[i + 1..]]);
    if entries[i].stored then left.(docs := CloseStored(s.docs, done.key, at, done.ack))
    else left.(closed := s.closed + [done])
  }

  /** Close every open occurrence from position `i` on that is not in the current set. */
  function Expire(s: Sink, deviceId: string, current: set<string>, at: int, staff: Staff, i: nat): Sink
    requires i <= |OpenOf(s.open, deviceId)|
    decreases |OpenOf(s.open, deviceId)| - i
  {
    var entries := OpenOf(s.open, deviceId);
    if i == |entries| then s
    else if entries[i].doc.key in current then Expire(s, deviceId, current, at, staff, i + 1)
    else Expire(CloseEntry(s, deviceId, i, at, staff), deviceId, current, at, staff, i)
  }

  function Flush(s: Sink): Sink {
    s.(docs := s.docs + s.closed, closed := [])
  }

  function Upsert(s: Sink, roster: seq<string>, deviceId: string, alerts: seq<Alert>, at: int, staff: Staff): Sink {
    if deviceId !in roster then s
    else
      var touched := TouchAll(OpenOf(s.open, deviceId), deviceId, alerts, at, |alerts|);
      var expired := Expire(s.(open := s.open[deviceId := touched]), deviceId, KeysOf(deviceId, alerts), at, staff, 0);
      if |expired.closed| >= BATCH then Flush(expired) else expired
  }

  /** The upsert that hands an open occurrence over. */
  function StoreOpen(docs: seq<Doc>, doc: Doc): seq<Doc> {
    var index := Find(docs, doc.key);
    if index == |docs| then docs + [doc]
    else
      docs[index := doc.(firstSeen := docs[index].firstSeen, cleared := docs[index].cleared, ack := docs[index].ack)]
  }

  function HandOver(docs: seq<Doc>, entries: seq<Open>): seq<Doc> {
    if entries == [] then docs
    else
      var last := entries[|entries| - 1];
      var before := HandOver(docs, entries[..|entries| - 1]);
      if last.stored then before else StoreOpen(before, last.doc)
  }

  function HandOverAll(docs: seq<Doc>, open: map<string, seq<Open>>, roster: seq<string>): seq<Doc> {
    if roster == [] then docs
    else HandOver(HandOverAll(docs, open, roster[..|roster| - 1]), OpenOf(open, roster[|roster| - 1]))
  }

  /** The collection after `finish`. */
  function Finish(s: Sink, roster: seq<string>): seq<Doc> {
    HandOverAll(Flush(s).docs, s.open, roster)
  }

  // The two histories that are compared.

  datatype Call = Call(deviceId: string, alerts: seq<Alert>, at: int)

  function SinkRun(s: Sink, roster: seq<string>, calls: seq<Call>, staff: Staff): Sink {
    if calls == [] then s
    else
      var last := calls[|calls| - 1];
      Upsert(SinkRun(s, roster, calls[..|calls| - 1], staff), roster, last.deviceId, last.alerts, last.at, staff)
  }

  function InOrder(count: nat): (order: seq<nat>)
    ensures |order| == count && forall i | 0 <= i < count :: order[i] == i
    ensures Covers(order, count)
  {
    if count == 0 then [] else InOrder(count - 1) + [count - 1]
  }

  /** The live reconciliation, one sync at a time. */
  function Reconcile(docs: seq<Doc>, call: Call): seq<Doc> {
    WriteDocs(docs, call.deviceId, call.alerts, call.at, Done(InOrder(|call.alerts|)))
  }

  /** The live history of the shard's vehicles. */
  function LiveRun(docs: seq<Doc>, roster: seq<string>, calls: seq<Call>): seq<Doc> {
    if calls == [] then docs
    else
      var before := LiveRun(docs, roster, calls[..|calls| - 1]);
      var last := calls[|calls| - 1];
      if last.deviceId in roster then Reconcile(before, last) else before
  }
}
