/** The alert half of `backend/src/persistence.ts`: the mirror and the pending set it updates, and the collection it writes. */
module AlertPersistence {
  import opened Wrappers
  import opened OccurrenceSteps

  method PriorByKey(entries: seq<Doc>) returns (prior: map<string, Doc>)
    ensures forall key :: key in prior <==> Prior(entries, key).Some?
    ensures forall key | key in prior :: Prior(entries, key) == Some(prior[key])
  {
    prior := map[];
    for i := 0 to |entries|
      invariant forall key :: key in prior <==> Prior(entries[..i], key).Some?
      invariant forall key | key in prior :: Prior(entries[..i], key) == Some(prior[key])
    {
      assert entries[..i + 1][..i] == entries[..i];
      prior := prior[entries[i].key := entries[i]];
    }
    assert entries[..|entries|] == entries;
  }

  method MirrorAlerts(entries: seq<Doc>, deviceId: string, alerts: seq<Alert>, at: int) returns (list: seq<Doc>)
    ensures list == MirrorList(entries, deviceId, alerts, at)
  {
    var prior := PriorByKey(entries);
    list := [];
    for i := 0 to |alerts|
      invariant |list| == i
      invariant forall k | 0 <= k < i :: list[k] == Mirrored(entries, deviceId, alerts[k], at)
    {
      var alert := alerts[i];
      var key := Key(deviceId, alert.id);
      var onset, ack := Onset(alert), None;
      if key in prior {
        if alert.firstSeen.None? { onset := prior[key].firstSeen; }
        ack := prior[key].ack;
      }
      list := list + [NewDoc(deviceId, alert, at).(firstSeen := onset, ack := ack)];
    }
  }

  class Persistence {
    var docs: seq<Doc>
    var mirror: map<string, seq<Doc>>
    var pending: set<string>
    var attached: bool

    function State(): Store
      reads this
    {
      Store(docs, mirror, pending, attached)
    }

    constructor (stored: seq<Doc>)
      ensures State() == Store(stored, map[], {}, false)
    {
      docs, mirror, pending, attached := stored, map[], {}, false;
    }

    /** The upserts of one sync, as far as they got. */
    method WriteActive(deviceId: string, alerts: seq<Alert>, at: int, order: seq<nat>)
      requires Within(order, |alerts|)
      modifies `docs
      ensures docs == UpsertAll(old(docs), deviceId, alerts, at, order)
    {
      for n := 0 to |order|
        invariant docs == UpsertAll(old(docs), deviceId, alerts, at, order[..n])
      {
        assert order[..n + 1][..n] == order[..n];
        var alert := alerts[order[n]];
        var index := Find(docs, Key(deviceId, alert.id));
        if index < |docs| {
          docs := docs[index := Refreshed(docs[index], deviceId, alert, at)];
        } else {
          docs := docs + [NewDoc(deviceId, alert, at)];
        }
      }
      assert order[..|order|] == order;
    }

    method UpsertAlerts(deviceId: string, alerts: seq<Alert>, at: int, outcome: Outcome)
      requires Possible(outcome, |alerts|)
      modifies this
      ensures State() == Sync(old(State()), deviceId, alerts, at, outcome)
    {
      var list := MirrorAlerts(if deviceId in mirror then mirror[deviceId] else [], deviceId, alerts, at);
      mirror := mirror[deviceId := list];
      if !attached || outcome.Down? {
        pending := pending + {deviceId};
        return;
      }
      var activeKeys := KeysOf(deviceId, alerts);
      match outcome {
        case Failed(landed, reached) =>
          WriteActive(deviceId, alerts, at, landed);
          docs := CloseStale(docs, deviceId, activeKeys, at, reached);
          pending := pending + {deviceId};
        case Done(order) =>
          WriteActive(deviceId, alerts, at, order);
          docs := CloseStale(docs, deviceId, activeKeys, at, Positions(|docs|));
          pending := pending - {deviceId};
      }
    }

    /** One pass of the retry timer over the devices that were waiting when it started. */
    method ResyncPendingAlerts(waiting: seq<string>, at: int, database: Database)
      requires Answers(database)
      modifies this
      ensures State() == ResyncAll(old(State()), waiting, at, database)
    {
      var i := 0;
      while i < |waiting|
        invariant 0 <= i <= |waiting|
        invariant ResyncAll(State(), waiting[i..], at, database) == ResyncAll(old(State()), waiting, at, database)
      {
        var deviceId := waiting[i];
        var alerts := Replayed(if deviceId in mirror then mirror[deviceId] else []);
        assert Possible(database(deviceId, alerts), |alerts|);
        UpsertAlerts(deviceId, alerts, at, database(deviceId, alerts));
        if deviceId in pending { return; }
        i := i + 1;
      }
    }

    method ForgetDevice(deviceId: string)
      modifies this
      ensures State() == Forget(old(State()), deviceId)
    {
      mirror := mirror - {deviceId};
    }

    /** Acknowledge or un-acknowledge; `found` is the route's answer. `order` is the mirror's iteration order. */
    method SetAcknowledgement(key: string, ack: Option<Ack>, order: seq<string>) returns (found: bool)
      modifies this
      ensures State() == SetAck(old(State()), order, key, ack)
      ensures attached ==> (found <==> exists doc <- old(docs) :: IsActive(doc, key))
      ensures !attached ==> (found <==> Owner(old(State()), order, key).Some?)
    {
      if attached {
        var index := Find(docs, key);
        found := index < |docs|;
        if found { docs := docs[index := docs[index].(ack := ack)]; }
        return;
      }
      found := false;
      for i := 0 to |order|
        invariant State() == old(State()) && !found
        invariant Owner(State(), order, key) == Owner(State(), order[i..], key)
      {
        var entries := if order[i] in mirror then mirror[order[i]] else [];
        var index := FirstWithKey(entries, key);
        FirstWithKeyFinds(entries, key);
        if index < |entries| {
          mirror := mirror[order[i] := entries[index := entries[index].(ack := ack)]];
          found := true;
          return;
        }
      }
    }
  }

  lemma {:induction false} FirstWithKeyFinds(entries: seq<Doc>, key: string)
    ensures FirstWithKey(entries, key) < |entries| <==> exists entry <- entries :: entry.key == key
  {
    if entries != [] && entries[0].key != key {
      FirstWithKeyFinds(entries[1..], key);
      assert forall entry <- entries :: entry == entries[0] || entry in entries[1..];
    } else if entries != [] {
      assert entries[0] in entries;
    }
  }
}
