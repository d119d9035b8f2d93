/** The backfill's sink as an object (`backend/sim/sink.ts`): its fields are updated call by call and `docs` is the collection. */
module BackfillSink {
  import opened Wrappers
  import opened OccurrenceSteps
  import opened SinkSteps

  class BackfillSink {
    const deviceIds: seq<string>
    const staff: Staff
    var docs: seq<Doc>
    var open: map<string, seq<Open>>
    var closed: seq<Doc>

    function State(): Sink
      reads this
    {
      Sink(docs, open, closed)
    }

    constructor (deviceIds: seq<string>, staff: Staff, docs: seq<Doc>)
      ensures this.deviceIds == deviceIds && this.staff == staff
      ensures State() == Sink(docs, map[], [])
    {
      this.deviceIds, this.staff, this.docs, open, closed := deviceIds, staff, docs, map[], [];
    }

    method Connect()
      requires open == map[] && closed == []
      modifies this
      ensures State() == SinkSteps.Connect(old(docs), deviceIds)
    {
      for i := 0 to |docs|
        invariant docs == old(docs) && closed == []
        invariant open == Connected(docs[..i], deviceIds)
      {
        assert docs[..i + 1][..i] == docs[..i];
        var doc := docs[i];
        if doc.active && doc.deviceId in deviceIds {
          open := open[doc.deviceId := Put(OpenOf(open, doc.deviceId), Open(doc, true))];
        }
      }
      assert docs[..|docs|] == docs;
    }

    method FlushAlerts()
      modifies this
      ensures State() == Flush(old(State()))
    {
      if closed != [] {
        var batch := closed;
        closed := [];
        docs := docs + batch;
      }
    }

    /** The first half of a call: refresh or open an occurrence per alert. */
    method TouchAlerts(deviceId: string, alerts: seq<Alert>, at: int)
      modifies `open
      ensures open == old(open)[deviceId := TouchAll(OpenOf(old(open), deviceId), deviceId, alerts, at, |alerts|)]
    {
      var entries := OpenOf(open, deviceId);
      for i := 0 to |alerts|
        invariant open == old(open)
        invariant entries == TouchAll(OpenOf(old(open), deviceId), deviceId, alerts, at, i)
      {
        var alert := alerts[i];
        var existing := IndexOf(entries, Key(deviceId, alert.id));
        if existing < |entries| {
          entries := entries[existing := entries[existing].(doc := Refreshed(entries[existing].doc, deviceId, alert, at))];
        } else {
          entries := entries + [Open(NewDoc(deviceId, alert, at), false)];
        }
      }
      open := open[deviceId := entries];
    }

    /** The second half: close what left the set, in the database if it is there, in the buffer if not. */
    method CloseDeparted(deviceId: string, current: set<string>, at: int)
      modifies this
      ensures State() == Expire(old(State()), deviceId, current, at, staff, 0)
    {
      var i := 0;
      while i < |OpenOf(open, deviceId)|
        invariant 0 <= i <= |OpenOf(open, deviceId)|
        invariant Expire(State(), deviceId, current, at, staff, i) == Expire(old(State()), deviceId, current, at, staff, 0)
        decreases |OpenOf(open, deviceId)| - i
      {
        var entries := OpenOf(open, deviceId);
        if entries[i].doc.key in current {
          i := i + 1;
        } else {
          var done := Finished(entries[i].doc, at, staff);
          open := open[deviceId := entries[..i] + entries[i + 1..]];
          if entries[i].stored {
            var index := Find(docs, done.key);
            if index < |docs| { docs := docs[index := ClosedDoc(docs[index], at).(ack := done.ack)]; }
          } else {
            closed := closed + [done];
          }
        }
      }
    }

    method UpsertAlerts(deviceId: string, alerts: seq<Alert>, at: int)
      modifies this
      ensures State() == Upsert(old(State()), deviceIds, deviceId, alerts, at, staff)
    {
      if deviceId !in deviceIds { return; }
      TouchAlerts(deviceId, alerts, at);
      CloseDeparted(deviceId, KeysOf(deviceId, alerts), at);
      if |closed| >= BATCH { FlushAlerts(); }
    }

    method HandOverVehicle(entries: seq<Open>)
      modifies `docs
      ensures docs == HandOver(old(docs), entries)
    {
      for i := 0 to |entries|
        invariant docs == HandOver(old(docs), entries[..i])
      {
        assert entries[..i + 1][..i] == entries[..i];
        if !entries[i].stored {
          var doc := entries[i].doc;
          var index := Find(docs, doc.key);
          if index < |docs| {
            docs := docs[index :=
              doc.(firstSeen := docs[index].firstSeen, cleared := docs[index].cleared, ack := docs[index].ack)];
          } else {
            docs := docs + [doc];
          }
        }
      }
      assert entries[..|entries|] == entries;
    }

    method Finish()
      modifies this
      ensures docs == SinkSteps.Finish(old(State()), deviceIds)
    {
      FlushAlerts();
      ghost var flushed := docs;
      for i := 0 to |deviceIds|
        invariant open == old(open) && flushed == Flush(old(State())).docs
        invariant docs == HandOverAll(flushed, open, deviceIds[..i])
      {
        assert deviceIds[..i + 1][..i] == deviceIds[..i];
        HandOverVehicle(OpenOf(open, deviceIds[i]));
      }
      assert deviceIds[..|deviceIds|] == deviceIds;
    }
  }
}
