/**
 * The event stream agrees with the state: a listener that replays the store's events holds exactly
 * the store's devices, online flags and active alert ids.
 */
module FleetEventProofs {
  import opened Wrappers
  import opened FleetSteps

  /** What a listener keeps: devices from deltas and snapshots, the rest from their own events. */
  datatype Mirror = Mirror(
    devices: map<DeviceId, Device>,
    online: map<DeviceId, bool>,
    active: set<(DeviceId, string)>)

  function React(m: Mirror, event: Event): Mirror {
    match event
    case Delta(device) => m.(devices := m.devices[device.id := device])
    case WentOnline(id) => m.(online := m.online[id := true])
    case WentOffline(id) => m.(online := m.online[id := false])
    case AlertCreated(id, alertId) => m.(active := m.active + {(id, alertId)})
    case AlertCleared(id, alertId) => m.(active := m.active - {(id, alertId)})
    case Snapshot(devices) =>
      m.(devices := devices, online := map id | id in m.online && id in devices :: m.online[id])
  }

  function Replay(m: Mirror, events: seq<Event>): Mirror {
    if events == [] then m else React(Replay(m, events[..|events| - 1]), events[|events| - 1])
  }

  lemma {:induction false} ReplayConcat(m: Mirror, left: seq<Event>, right: seq<Event>)
    ensures Replay(m, left + right) == Replay(Replay(m, left), right)
  {
    if right == [] {
      assert left + right == left;
    } else {
      assert (left + right)[..|left + right| - 1] == left + right[..|right| - 1];
      ReplayConcat(m, left, right[..|right| - 1]);
    }
  }

  /** An event that the listener's view allows: nothing is created, cleared or switched twice. */
  predicate Fits(m: Mirror, event: Event) {
    match event
    case WentOnline(id) => Get(m.online, id) != Some(true)
    case WentOffline(id) => Get(m.online, id) != Some(false)
    case AlertCreated(id, alertId) => (id, alertId) !in m.active
    case AlertCleared(id, alertId) => (id, alertId) in m.active
    case _ => true
  }

  predicate Alternates(m: Mirror, events: seq<Event>) {
    events == []
    || (Alternates(m, events[..|events| - 1]) && Fits(Replay(m, events[..|events| - 1]), events[|events| - 1]))
  }

  lemma {:induction false} AlternatesConcat(m: Mirror, left: seq<Event>, right: seq<Event>)
    ensures Alternates(m, left + right) <==> Alternates(m, left) && Alternates(Replay(m, left), right)
  {
    if right == [] {
      assert left + right == left;
    } else {
      assert (left + right)[..|left + right| - 1] == left + right[..|right| - 1];
      AlternatesConcat(m, left, right[..|right| - 1]);
      ReplayConcat(m, left, right[..|right| - 1]);
    }
  }

  // ---------------------------------------------------------------------------
  // One device's change
  // ---------------------------------------------------------------------------

  /** What the mirror holds of one device. */
  ghost predicate Shows(m: Mirror, id: DeviceId, device: Option<Device>) {
    && Get(m.devices, id) == device
    && Get(m.online, id) == (if device.Some? then Some(device.value.online) else None)
    && ShowsAlerts(m, id, AlertsOf(device))
  }

  ghost predicate ShowsAlerts(m: Mirror, id: DeviceId, alerts: seq<Alert>) {
    forall a :: (id, a) in m.active <==> Raises(alerts, a)
  }

  /** Nothing about any other device differs. */
  ghost predicate SameElsewhere(m: Mirror, next: Mirror, id: DeviceId) {
    && (forall k | k != id :: Get(m.devices, k) == Get(next.devices, k) && Get(m.online, k) == Get(next.online, k))
    && (forall k, a | k != id :: (k, a) in m.active <==> (k, a) in next.active)
  }

  /** Alerts that are not in `other` have distinct ids. */
  predicate DistinctOutside(alerts: seq<Alert>, other: seq<Alert>) {
    forall i, j | 0 <= i < j < |alerts| && alerts[i].id == alerts[j].id :: Raises(other, alerts[i].id)
  }

  predicate DistinctIds(alerts: seq<Alert>) {
    forall i, j | 0 <= i < j < |alerts| :: alerts[i].id != alerts[j].id
  }

  lemma RaisesAppend(alerts: seq<Alert>, last: Alert, id: string)
    ensures Raises(alerts + [last], id) <==> Raises(alerts, id) || last.id == id
  {
    assert (alerts + [last])[|alerts|] == last;
    if Raises(alerts, id) {
      var i :| 0 <= i < |alerts| && alerts[i].id == id;
      assert (alerts + [last])[i].id == id;
    }
  }

  /** The created events add exactly the device's new alerts to the listener. */
  lemma {:induction false} CreatedState(m: Mirror, previous: seq<Alert>, current: seq<Alert>, id: DeviceId)
    ensures var next := Replay(m, CreatedEvents(previous, current, id));
            && next.devices == m.devices && next.online == m.online
            && forall k, a :: (k, a) in next.active
                 <==> (k, a) in m.active || (k == id && Raises(current, a) && !Raises(previous, a))
  {
    if current != [] {
      var init, last := current[..|current| - 1], current[|current| - 1];
      assert current == init + [last];
      CreatedState(m, previous, init, id);
      forall a
        ensures Raises(current, a) <==> Raises(init, a) || last.id == a
      {
        RaisesAppend(init, last, a);
      }
      var events := CreatedEvents(previous, init, id);
      if !Raises(previous, last.id) {
        assert (events + [AlertCreated(id, last.id)])[..|events|] == events;
      }
    }
  }

  lemma {:induction false} CreatedAlternate(m: Mirror, previous: seq<Alert>, current: seq<Alert>, id: DeviceId)
    requires forall a | Raises(current, a) && !Raises(previous, a) :: (id, a) !in m.active
    ensures Alternates(m, CreatedEvents(previous, current, id)) <==> DistinctOutside(current, previous)
  {
    if current != [] {
      var init, last := current[..|current| - 1], current[|current| - 1];
      assert current == init + [last];
      forall a | Raises(init, a) ensures Raises(current, a) { RaisesAppend(init, last, a); }
      RaisesAppend(init, last, last.id);
      CreatedAlternate(m, previous, init, id);
      DistinctOutsideAppend(init, last, previous);
      if !Raises(previous, last.id) {
        var events := CreatedEvents(previous, init, id);
        assert (events + [AlertCreated(id, last.id)])[..|events|] == events;
        CreatedState(m, previous, init, id);
      }
    }
  }

  lemma ReplayCreated(m: Mirror, previous: seq<Alert>, current: seq<Alert>, id: DeviceId)
    ensures var next := Replay(m, CreatedEvents(previous, current, id));
            && next.devices == m.devices && next.online == m.online
            && forall k, a :: (k, a) in next.active
                 <==> (k, a) in m.active || (k == id && Raises(current, a) && !Raises(previous, a))
    ensures (forall a | Raises(current, a) && !Raises(previous, a) :: (id, a) !in m.active) ==>
              (Alternates(m, CreatedEvents(previous, current, id)) <==> DistinctOutside(current, previous))
  {
    CreatedState(m, previous, current, id);
    if forall a | Raises(current, a) && !Raises(previous, a) :: (id, a) !in m.active {
      CreatedAlternate(m, previous, current, id);
    }
  }

  /** The clears take exactly the device's vanished alerts from the listener. */
  lemma {:induction false} ClearedState(m: Mirror, previous: seq<Alert>, current: seq<Alert>, id: DeviceId)
    ensures var next := Replay(m, ClearedEvents(previous, current, id));
            && next.devices == m.devices && next.online == m.online
            && forall k, a :: (k, a) in next.active
                 <==> (k, a) in m.active && !(k == id && Raises(previous, a) && !Raises(current, a))
  {
    if previous != [] {
      var init, last := previous[..|previous| - 1], previous[|previous| - 1];
      assert previous == init + [last];
      ClearedState(m, init, current, id);
      forall a
        ensures Raises(previous, a) <==> Raises(init, a) || last.id == a
      {
        RaisesAppend(init, last, a);
      }
      var events := ClearedEvents(init, current, id);
      if !Raises(current, last.id) {
        assert (events + [AlertCleared(id, last.id)])[..|events|] == events;
      }
    }
  }

  lemma {:induction false} ClearedAlternate(m: Mirror, previous: seq<Alert>, current: seq<Alert>, id: DeviceId)
    requires forall a | Raises(previous, a) && !Raises(current, a) :: (id, a) in m.active
    ensures Alternates(m, ClearedEvents(previous, current, id)) <==> DistinctOutside(previous, current)
  {
    if previous != [] {
      var init, last := previous[..|previous| - 1], previous[|previous| - 1];
      assert previous == init + [last];
      forall a | Raises(init, a) ensures Raises(previous, a) { RaisesAppend(init, last, a); }
      RaisesAppend(init, last, last.id);
      ClearedAlternate(m, init, current, id);
      DistinctOutsideAppend(init, last, current);
      if !Raises(current, last.id) {
        var events := ClearedEvents(init, current, id);
        assert (events + [AlertCleared(id, last.id)])[..|events|] == events;
        ClearedState(m, init, current, id);
      }
    }
  }

  lemma ReplayCleared(m: Mirror, previous: seq<Alert>, current: seq<Alert>, id: DeviceId)
    ensures var next := Replay(m, ClearedEvents(previous, current, id));
            && next.devices == m.devices && next.online == m.online
            && forall k, a :: (k, a) in next.active
                 <==> (k, a) in m.active && !(k == id && Raises(previous, a) && !Raises(current, a))
    ensures (forall a | Raises(previous, a) && !Raises(current, a) :: (id, a) in m.active) ==>
              (Alternates(m, ClearedEvents(previous, current, id)) <==> DistinctOutside(previous, current))
  {
    ClearedState(m, previous, current, id);
    if forall a | Raises(previous, a) && !Raises(current, a) :: (id, a) in m.active {
      ClearedAlternate(m, previous, current, id);
    }
  }

  lemma DistinctOutsideAppend(init: seq<Alert>, last: Alert, other: seq<Alert>)
    ensures DistinctOutside(init + [last], other)
       <==> DistinctOutside(init, other) && (Raises(other, last.id) || !Raises(init, last.id))
  {
    var all := init + [last];
    if DistinctOutside(all, other) {
      forall i, j | 0 <= i < j < |init| && init[i].id == init[j].id
        ensures Raises(other, init[i].id)
      {
        assert all[i].id == all[j].id;
      }
      if Raises(init, last.id) {
        var i :| 0 <= i < |init| && init[i].id == last.id;
        assert all[i].id == all[|init|].id;
      }
    }
  }

  /** The delta and the liveness event, which always fit. */
  lemma ReplayLead(m: Mirror, previous: Option<Device>, current: Device)
    requires Shows(m, current.id, previous)
    ensures var lead := [Delta(current)] + LivenessEvents(previous, current);
            && Alternates(m, lead)
            && Replay(m, lead) == m.(devices := m.devices[current.id := current],
                                     online := m.online[current.id := current.online])
  {
    var delta, liveness := [Delta(current)], LivenessEvents(previous, current);
    assert delta[..0] == [] && liveness[..0] == [];
    var m1 := React(m, Delta(current));
    assert Replay(m, []) == m && Replay(m, delta) == m1 && Alternates(m, delta);
    if liveness == [] {
      assert delta + liveness == delta;
      assert m.online[current.id := current.online] == m.online;
    } else {
      assert (delta + liveness)[..1] == delta;
    }
  }

  /** Replay four batches of events one after another. */
  lemma ReplayInTurn(m: Mirror, lead: seq<Event>, created: seq<Event>, cleared: seq<Event>)
    ensures var m2 := Replay(m, lead);
            var m3 := Replay(m2, created);
            && Replay(m, lead + created + cleared) == Replay(m3, cleared)
            && (Alternates(m, lead + created + cleared)
                <==> (Alternates(m, lead) && Alternates(m2, created) && Alternates(m3, cleared)))
  {
    ReplayConcat(m, lead, created);
    AlternatesConcat(m, lead, created);
    ReplayConcat(m, lead + created, cleared);
    AlternatesConcat(m, lead + created, cleared);
  }

  /**
   * The events of a device's change take a listener from the old snapshot to the new one. They
   * alternate exactly when the alerts that appear have distinct ids and so do those that vanish.
   */
  lemma ReplayChange(m: Mirror, previous: Option<Device>, current: Device)
    requires Shows(m, current.id, previous)
    ensures var events := ChangeEvents(previous, current);
            && Shows(Replay(m, events), current.id, Some(current))
            && SameElsewhere(m, Replay(m, events), current.id)
            && (Alternates(m, events)
                <==> (DistinctOutside(current.alerts, AlertsOf(previous))
                      && DistinctOutside(AlertsOf(previous), current.alerts)))
  {
    var id := current.id;
    var lead := [Delta(current)] + LivenessEvents(previous, current);
    var created := CreatedEvents(AlertsOf(previous), current.alerts, id);
    var cleared := ClearedEvents(AlertsOf(previous), current.alerts, id);
    var m2 := Replay(m, lead);
    ReplayLead(m, previous, current);
    ReplayInTurn(m, lead, created, cleared);
    ReplayCreated(m2, AlertsOf(previous), current.alerts, id);
    ReplayCleared(Replay(m2, created), AlertsOf(previous), current.alerts, id);
  }

  /** A departing device's closing events clear all its alerts. */
  lemma ReplayClosing(m: Mirror, device: Device)
    requires ShowsAlerts(m, device.id, device.alerts)
    ensures var next := Replay(m, ClosingEvents(Some(device)));
            && next.devices == m.devices && next.online == m.online
            && (forall k, a :: (k, a) in next.active <==> (k, a) in m.active && k != device.id)
            && (Alternates(m, ClosingEvents(Some(device))) <==> DistinctIds(device.alerts))
  {
    ReplayCleared(m, device.alerts, [], device.id);
  }
}
