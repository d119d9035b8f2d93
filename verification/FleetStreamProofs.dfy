/** The event stream over whole runs: it agrees with the state after every mutation, and alternates. */
module FleetStreamProofs {
  import opened Wrappers
  import opened FleetSteps
  import opened FleetInvariantProofs
  import opened FleetEventProofs

  /** The mirror holds exactly these devices, their online flags and their active alert ids. */
  ghost predicate Agrees(m: Mirror, devices: map<DeviceId, Device>) {
    forall id :: Shows(m, id, Get(devices, id))
  }

  /** A listener that held `m` when the event record was empty agrees with the store. */
  ghost predicate Tracks(m: Mirror, s: Store) {
    Agrees(Replay(m, s.events), s.devices)
  }

  ghost predicate DistinctAlerts(devices: map<DeviceId, Device>) {
    forall id | id in devices :: DistinctIds(devices[id].alerts)
  }

  // ---------------------------------------------------------------------------
  // Alert lists with distinct ids stay so
  // ---------------------------------------------------------------------------

  lemma {:induction false} FindAlertFacts(alerts: seq<Alert>, id: string)
    ensures FindAlert(alerts, id).Some? <==> Raises(alerts, id)
    ensures FindAlert(alerts, id).Some? ==> FindAlert(alerts, id).value.id == id
  {
    if alerts != [] {
      FindAlertFacts(alerts[1..], id);
      if Raises(alerts, id) && alerts[0].id != id {
        var i :| 0 <= i < |alerts| && alerts[i].id == id;
        assert alerts[1..][i - 1].id == id;
      }
      if Raises(alerts[1..], id) {
        var i :| 0 <= i < |alerts[1..]| && alerts[1..][i].id == id;
        assert alerts[i + 1].id == id;
      }
    }
  }

  lemma DebounceKeepsDistinct(id: DeviceId, previous: seq<Alert>, current: seq<Alert>, debounceMs: int, now: int)
    requires DistinctIds(current)
    ensures DistinctIds(ApplyRuleDebounce(id, previous, current, debounceMs, now))
  {
    FindAlertFacts(current, LowBatteryAlertId(id));
    FindAlertFacts(previous, LowBatteryAlertId(id));
  }

  lemma {:induction false} WithoutAlertFacts(alerts: seq<Alert>, id: string)
    ensures forall a :: Raises(WithoutAlert(alerts, id), a) <==> Raises(alerts, a) && a != id
    ensures DistinctIds(alerts) ==> DistinctIds(WithoutAlert(alerts, id))
  {
    if alerts != [] {
      var init, last := alerts[..|alerts| - 1], alerts[|alerts| - 1];
      assert alerts == init + [last];
      WithoutAlertFacts(init, id);
      forall a
        ensures Raises(alerts, a) <==> Raises(init, a) || last.id == a
        ensures Raises(WithoutAlert(init, id) + [last], a) <==> Raises(WithoutAlert(init, id), a) || last.id == a
      {
        RaisesAppend(init, last, a);
        RaisesAppend(WithoutAlert(init, id), last, a);
      }
      if DistinctIds(alerts) && last.id != id {
        assert !Raises(init, last.id);
        assert !Raises(WithoutAlert(init, id), last.id);
      }
    }
  }

  lemma MarkedOfflineKeepsDistinct(c: Config, device: Device, rule: OfflineRule, now: int)
    requires DistinctIds(device.alerts)
    ensures DistinctIds(MarkedOffline(c, device, rule, now).alerts)
  {
    WithoutAlertFacts(device.alerts, OfflineAlertId(device.id));
    var kept := WithoutAlert(device.alerts, OfflineAlertId(device.id));
    forall i | 0 <= i < |kept|
      ensures kept[i].id != OfflineAlertId(device.id)
    {
      assert Raises(kept, kept[i].id);
    }
  }

  // ---------------------------------------------------------------------------
  // One change applied to one device
  // ---------------------------------------------------------------------------

  /** Emitting a device's change keeps a listener in step with the map it is filed in. */
  lemma ChangeTracks(m: Mirror, before: map<DeviceId, Device>, events: seq<Event>, current: Device)
    requires Agrees(Replay(m, events), before)
    ensures var more := events + ChangeEvents(Get(before, current.id), current);
            && Agrees(Replay(m, more), before[current.id := current])
            && (Alternates(m, events) && DistinctAlerts(before) && DistinctIds(current.alerts) ==> Alternates(m, more))
  {
    var id := current.id;
    var here := Replay(m, events);
    var change := ChangeEvents(Get(before, id), current);
    assert Shows(here, id, Get(before, id));
    ReplayChange(here, Get(before, id), current);
    ReplayConcat(m, events, change);
    AlternatesConcat(m, events, change);
    var after := before[id := current];
    forall k
      ensures Shows(Replay(here, change), k, Get(after, k))
    {
      assert Shows(here, k, Get(before, k));
    }
  }

  /** A departing device's closing events leave a listener with none of its alerts. */
  lemma ClosingTracks(m: Mirror, events: seq<Event>, device: Device)
    requires ShowsAlerts(Replay(m, events), device.id, device.alerts)
    ensures var here, next := Replay(m, events), Replay(m, events + ClosingEvents(Some(device)));
            && next.devices == here.devices && next.online == here.online
            && (forall k, a :: (k, a) in next.active <==> (k, a) in here.active && k != device.id)
            && (Alternates(m, events) && DistinctIds(device.alerts)
                ==> Alternates(m, events + ClosingEvents(Some(device))))
  {
    ReplayClosing(Replay(m, events), device);
    ReplayConcat(m, events, ClosingEvents(Some(device)));
    AlternatesConcat(m, events, ClosingEvents(Some(device)));
  }

  /** A snapshot tells a listener whose alerts are already right what the fleet is. */
  lemma SnapshotTracks(m: Mirror, events: seq<Event>, before: map<DeviceId, Device>, devices: map<DeviceId, Device>)
    requires forall id | id in devices :: Get(before, id) == Some(devices[id])
    requires forall id :: Get(Replay(m, events).devices, id) == Get(before, id)
    requires forall id :: Get(Replay(m, events).online, id)
                       == (if id in before then Some(before[id].online) else None)
    requires forall id :: ShowsAlerts(Replay(m, events), id, AlertsOf(Get(devices, id)))
    ensures Agrees(Replay(m, events + [Snapshot(devices)]), devices)
    ensures Alternates(m, events) ==> Alternates(m, events + [Snapshot(devices)])
  {
    assert (events + [Snapshot(devices)])[..|events|] == events;
    var here, next := Replay(m, events), React(Replay(m, events), Snapshot(devices));
    forall id
      ensures Shows(next, id, Get(devices, id))
    {
      assert ShowsAlerts(here, id, AlertsOf(Get(devices, id)));
      if id in devices {
        assert Get(before, id) == Some(devices[id]);
        assert Get(here.online, id) == Some(before[id].online);
      }
    }
  }

  // ---------------------------------------------------------------------------
  // Status frames and frames
  // ---------------------------------------------------------------------------

  lemma StatusTracks(m: Mirror, c: Config, s: Store, id: DeviceId, online: bool, alerts: seq<Alert>, rest: string, now: int)
    requires Decorates(c) && Tracks(m, s)
    ensures var next := ApplyStatus(c, s, id, online, alerts, rest, now);
            && Tracks(m, next)
            && (Alternates(m, s.events) && DistinctAlerts(s.devices) && DistinctIds(alerts)
                ==> Alternates(m, next.events) && DistinctAlerts(next.devices))
  {
    if Admits(c, s.raw, id) {
      var device := Device(id, online, now, CarryAlertOnsets(AlertsOf(Get(s.raw, id)), alerts), rest);
      assert c.decorate(device).id == id && c.decorate(device).alerts == device.alerts;
      ChangeTracks(m, s.devices, s.events, c.decorate(device));
    }
  }

  /** While a payload is being applied, a listener holds the new snapshots over the old ones. */
  function Overlay(s: Store, b: Building): map<DeviceId, Device> {
    s.devices + b.devices
  }

  /** What an accepted frame does to the overlay and the event record. */
  lemma AcceptedFrame(c: Config, s: Store, b: Building, p: Payload, frame: Device, now: int)
    requires Decorates(c) && Admits(c, b.raw, frame.id) && !IsLate(c, b, p, frame)
    ensures var configured := c.decorate(Merged(c, s, p, frame));
            var next := IngestFrame(c, s, b, p, frame, now);
            && configured.id == frame.id && configured.alerts == Merged(c, s, p, frame).alerts
            && Overlay(s, next) == Overlay(s, b)[frame.id := configured]
            && next.events == b.events + ChangeEvents(Get(s.devices, frame.id), configured)
  {
    var configured := c.decorate(Merged(c, s, p, frame));
    assert configured.id == frame.id;
    OverlayUpdate(s.devices, b.devices, frame.id, configured);
  }

  lemma OverlayUpdate(below: map<DeviceId, Device>, above: map<DeviceId, Device>, id: DeviceId, device: Device)
    ensures below + above[id := device] == (below + above)[id := device]
  {
  }

  lemma FrameTracks(m: Mirror, c: Config, s: Store, b: Building, p: Payload, frame: Device, now: int)
    requires Decorates(c) && Agrees(Replay(m, b.events), Overlay(s, b))
    requires Get(Overlay(s, b), frame.id) == Get(s.devices, frame.id)
    ensures var next := IngestFrame(c, s, b, p, frame, now);
            && Agrees(Replay(m, next.events), Overlay(s, next))
            && (Alternates(m, b.events) && DistinctAlerts(Overlay(s, b)) && DistinctIds(frame.alerts)
                ==> Alternates(m, next.events) && DistinctAlerts(Overlay(s, next)))
  {
    if Admits(c, b.raw, frame.id) && !IsLate(c, b, p, frame) {
      AcceptedFrame(c, s, b, p, frame, now);
      var configured := c.decorate(Merged(c, s, p, frame));
      ChangeTracks(m, Overlay(s, b), b.events, configured);
      if DistinctAlerts(Overlay(s, b)) && DistinctIds(frame.alerts) {
        MergedKeepsDistinct(c, s, p, frame, now);
      }
    }
  }

  lemma MergedKeepsDistinct(c: Config, s: Store, p: Payload, frame: Device, now: int)
    requires DistinctIds(frame.alerts)
    ensures DistinctIds(Merged(c, s, p, frame).alerts)
  {
    var existing := Get(s.raw, frame.id);
    var carried := CarryAlertOnsets(if p.WholeFleet? then [] else AlertsOf(existing), frame.alerts);
    DebounceKeepsDistinct(frame.id, AlertsOf(existing), carried, c.debounceMs, Merged(c, s, p, frame).stamp);
  }

  /** A whole-fleet payload names each device once. */
  predicate NamesOnce(frames: seq<Device>) {
    forall i, j | 0 <= i < j < |frames| :: frames[i].id != frames[j].id
  }

  ghost predicate DistinctFrames(frames: seq<Device>) {
    forall i | 0 <= i < |frames| :: DistinctIds(frames[i].alerts)
  }

  lemma {:induction false} FramesTrack(m: Mirror, c: Config, s: Store, b: Building, p: Payload, frames: seq<Device>, now: int)
    requires Decorates(c) && NamesOnce(frames)
    requires forall i | 0 <= i < |frames| :: Get(Overlay(s, b), frames[i].id) == Get(s.devices, frames[i].id)
    requires Agrees(Replay(m, b.events), Overlay(s, b))
    ensures var next := IngestFrames(c, s, b, p, frames, now);
            && Agrees(Replay(m, next.events), Overlay(s, next))
            && (Alternates(m, b.events) && DistinctAlerts(Overlay(s, b)) && DistinctFrames(frames)
                ==> Alternates(m, next.events) && DistinctAlerts(Overlay(s, next)))
  {
    if frames != [] {
      var init, last := frames[..|frames| - 1], frames[|frames| - 1];
      FramesTrack(m, c, s, b, p, init, now);
      FramesTouchTheirOwn(c, s, b, p, init, now, last.id);
      FrameTracks(m, c, s, IngestFrames(c, s, b, p, init, now), p, last, now);
    }
  }

  lemma {:induction false} FramesTouchTheirOwn(
    c: Config, s: Store, b: Building, p: Payload, frames: seq<Device>, now: int, id: DeviceId)
    requires Decorates(c) && forall i | 0 <= i < |frames| :: frames[i].id != id
    ensures Get(Overlay(s, IngestFrames(c, s, b, p, frames, now)), id) == Get(Overlay(s, b), id)
  {
    if frames != [] {
      var init, last := frames[..|frames| - 1], frames[|frames| - 1];
      FramesTouchTheirOwn(c, s, b, p, init, now, id);
      FrameTouchesItsOwn(c, s, IngestFrames(c, s, b, p, init, now), p, last, now, id);
    }
  }

  lemma FrameTouchesItsOwn(c: Config, s: Store, b: Building, p: Payload, frame: Device, now: int, id: DeviceId)
    requires Decorates(c) && id != frame.id
    ensures Get(Overlay(s, IngestFrame(c, s, b, p, frame, now)), id) == Get(Overlay(s, b), id)
  {
    if Admits(c, b.raw, frame.id) && !IsLate(c, b, p, frame) {
      AcceptedFrame(c, s, b, p, frame, now);
    }
  }

  // ---------------------------------------------------------------------------
  // Replacing the fleet
  // ---------------------------------------------------------------------------

  /** The alerts a listener holds of a device while the departed ones are being closed. */
  function AlertsWhileClosing(s: Store, b: Building, closed: seq<DeviceId>, id: DeviceId): seq<Alert> {
    if id in b.devices then b.devices[id].alerts
    else if id in closed then [] else AlertsOf(Get(s.devices, id))
  }

  /** A listener that agreed so far sees the departed devices of `order` lose their alerts, and nothing else. */
  ghost predicate Closes(m: Mirror, s: Store, b: Building, order: seq<DeviceId>) {
    var here, next := Replay(m, b.events), Replay(m, ForgetDeparted(s, b, order).events);
    && next.devices == here.devices && next.online == here.online
    && (forall id :: ShowsAlerts(next, id, AlertsWhileClosing(s, b, order, id)))
    && (Alternates(m, b.events) && DistinctAlerts(s.devices) ==> Alternates(m, ForgetDeparted(s, b, order).events))
  }

  lemma ForgetLast(s: Store, b: Building, init: seq<DeviceId>, last: DeviceId)
    requires last in s.raw
    ensures var before := ForgetDeparted(s, b, init);
            ForgetDeparted(s, b, init + [last]).events
            == if last in b.raw then before.events else before.events + ClosingEvents(Some(s.raw[last]))
  {
    var order := init + [last];
    assert order[..|order| - 1] == init && order[|order| - 1] == last;
  }

  lemma ClosesNone(m: Mirror, s: Store, b: Building)
    requires Agrees(Replay(m, b.events), Overlay(s, b))
    ensures Closes(m, s, b, [])
  {
    forall id
      ensures ShowsAlerts(Replay(m, b.events), id, AlertsWhileClosing(s, b, [], id))
    {
      assert Shows(Replay(m, b.events), id, Get(Overlay(s, b), id));
    }
  }

  lemma ClosesReturned(m: Mirror, s: Store, b: Building, init: seq<DeviceId>, last: DeviceId)
    requires Closes(m, s, b, init) && last in s.raw && last in b.raw && last in b.devices
    ensures Closes(m, s, b, init + [last])
  {
    ForgetLast(s, b, init, last);
    forall id
      ensures AlertsWhileClosing(s, b, init + [last], id) == AlertsWhileClosing(s, b, init, id)
    {
    }
  }

  lemma LastIsClosed(here: Mirror, next: Mirror, s: Store, b: Building, init: seq<DeviceId>, last: DeviceId)
    requires forall id :: ShowsAlerts(here, id, AlertsWhileClosing(s, b, init, id))
    requires forall k, a :: (k, a) in next.active <==> (k, a) in here.active && k != last
    requires last !in b.devices
    ensures forall id :: ShowsAlerts(next, id, AlertsWhileClosing(s, b, init + [last], id))
  {
    forall id
      ensures ShowsAlerts(next, id, AlertsWhileClosing(s, b, init + [last], id))
    {
      assert ShowsAlerts(here, id, AlertsWhileClosing(s, b, init, id));
    }
  }

  lemma ClosesDeparted(m: Mirror, s: Store, b: Building, init: seq<DeviceId>, last: DeviceId)
    requires Closes(m, s, b, init) && last !in init && last in s.raw && last !in b.raw && last !in b.devices
    requires last in s.devices && s.devices[last].alerts == s.raw[last].alerts && s.raw[last].id == last
    ensures Closes(m, s, b, init + [last])
  {
    var before, device := ForgetDeparted(s, b, init).events, s.raw[last];
    ForgetLast(s, b, init, last);
    assert ShowsAlerts(Replay(m, before), last, AlertsWhileClosing(s, b, init, last));
    ClosingTracks(m, before, device);
    LastIsClosed(Replay(m, before), Replay(m, before + ClosingEvents(Some(device))), s, b, init, last);
    assert DistinctAlerts(s.devices) ==> DistinctIds(s.devices[last].alerts);
  }

  lemma {:induction false} ForgettingTracks(m: Mirror, c: Config, s: Store, b: Building, order: seq<DeviceId>)
    requires Decorates(c) && Filed(c, s.raw, s.devices) && Filed(c, b.raw, b.devices)
    requires Walks(order, set id | id in order) && forall id | id in order :: id in s.raw
    requires Agrees(Replay(m, b.events), Overlay(s, b))
    ensures Closes(m, s, b, order)
  {
    if order == [] {
      ClosesNone(m, s, b);
    } else {
      var init, last := order[..|order| - 1], order[|order| - 1];
      assert order == init + [last];
      assert last !in init;
      ForgettingTracks(m, c, s, b, init);
      if last in b.raw {
        ClosesReturned(m, s, b, init, last);
      } else {
        ClosesDeparted(m, s, b, init, last);
      }
    }
  }

  lemma PayloadTracks(m: Mirror, c: Config, s: Store, p: Payload, order: seq<DeviceId>, now: int)
    requires Decorates(c) && Consistent(c, s) && Tracks(m, s) && NamesOnce(Frames(p))
    requires p.WholeFleet? ==> Walks(order, s.raw.Keys)
    ensures var next := ApplyPayload(c, s, p, order, now);
            && Tracks(m, next)
            && (Alternates(m, s.events) && DistinctAlerts(s.devices) && DistinctFrames(Frames(p))
                ==> Alternates(m, next.events) && DistinctAlerts(next.devices))
  {
    if p.WholeFleet? {
      ReplaceTracks(m, c, s, p, order, now);
    } else {
      SingleFrameTracks(m, c, s, p, order, now);
    }
  }

  lemma SingleFrameTracks(m: Mirror, c: Config, s: Store, p: Payload, order: seq<DeviceId>, now: int)
    requires Decorates(c) && Consistent(c, s) && Tracks(m, s) && !p.WholeFleet?
    ensures var next := ApplyPayload(c, s, p, order, now);
            && Tracks(m, next)
            && (Alternates(m, s.events) && DistinctAlerts(s.devices) && DistinctFrames(Frames(p))
                ==> Alternates(m, next.events) && DistinctAlerts(next.devices))
  {
    var start := StartBuilding(s, p);
    var built := IngestFrame(c, s, start, p, p.frame, now);
    SingleFrame(c, s, p, order, now);
    FrameTracks(m, c, s, start, p, p.frame, now);
  }

  /** A single-frame payload is one frame ingested over the live maps. */
  lemma SingleFrame(c: Config, s: Store, p: Payload, order: seq<DeviceId>, now: int)
    requires !p.WholeFleet?
    ensures var built := IngestFrame(c, s, StartBuilding(s, p), p, p.frame, now);
            && ApplyPayload(c, s, p, order, now) == SwapIn(s, built)
            && Overlay(s, StartBuilding(s, p)) == s.devices && Overlay(s, built) == built.devices
    ensures DistinctFrames(Frames(p)) == DistinctIds(p.frame.alerts)
  {
    var start := StartBuilding(s, p);
    assert Frames(p) == [p.frame] && [p.frame][..0] == [];
    assert IngestFrames(c, s, start, p, [], now) == start;
    assert Frames(p)[0] == p.frame;
    OverlayOfLive(c, s, p, now);
  }

  lemma OverlayOfLive(c: Config, s: Store, p: Payload, now: int)
    requires !p.WholeFleet?
    ensures Overlay(s, StartBuilding(s, p)) == s.devices
    ensures Overlay(s, IngestFrame(c, s, StartBuilding(s, p), p, p.frame, now))
         == IngestFrame(c, s, StartBuilding(s, p), p, p.frame, now).devices
  {
  }

  lemma ReplaceTracks(m: Mirror, c: Config, s: Store, p: Payload, order: seq<DeviceId>, now: int)
    requires Decorates(c) && Consistent(c, s) && Tracks(m, s) && p.WholeFleet? && NamesOnce(p.frames)
    requires Walks(order, s.raw.Keys)
    ensures var next := ApplyPayload(c, s, p, order, now);
            && Tracks(m, next)
            && (Alternates(m, s.events) && DistinctAlerts(s.devices) && DistinctFrames(p.frames)
                ==> Alternates(m, next.events) && DistinctAlerts(next.devices))
  {
    var start := StartBuilding(s, p);
    assert Overlay(s, start) == s.devices;
    FramesTrack(m, c, s, start, p, p.frames, now);
    var built := IngestFrames(c, s, start, p, p.frames, now);
    assert Filed(c, built.raw, built.devices) by {
      FramesKeepBuilding(c, s, start, p, p.frames, now);
    }
    WholeFleetTracks(m, c, s, built, order);
  }

  lemma WholeFleetTracks(m: Mirror, c: Config, s: Store, b: Building, order: seq<DeviceId>)
    requires Decorates(c) && Filed(c, s.raw, s.devices) && Filed(c, b.raw, b.devices)
    requires Walks(order, s.raw.Keys)
    requires Agrees(Replay(m, b.events), Overlay(s, b))
    ensures var events := ForgetDeparted(s, b, order).events + [Snapshot(b.devices)];
            && ForgetDeparted(s, b, order).devices == b.devices
            && Agrees(Replay(m, events), b.devices)
            && (Alternates(m, b.events) && DistinctAlerts(Overlay(s, b)) && DistinctAlerts(s.devices)
                ==> Alternates(m, events) && DistinctAlerts(b.devices))
  {
    ForgetDepartedKeys(s, b, order);
    var events := ForgetDeparted(s, b, order).events;
    ForgettingTracks(m, c, s, b, order);
    forall id
      ensures Get(Replay(m, events).devices, id) == Get(Overlay(s, b), id)
      ensures Get(Replay(m, events).online, id)
           == (if id in Overlay(s, b) then Some(Overlay(s, b)[id].online) else None)
      ensures ShowsAlerts(Replay(m, events), id, AlertsOf(Get(b.devices, id)))
    {
      ClosedLeavesTheNew(m, s, b, order, events, id);
    }
    SnapshotTracks(m, events, Overlay(s, b), b.devices);
  }

  /** With every departed device closed, a listener shows the new fleet's alerts over the old fleet's devices. */
  lemma ClosedLeavesTheNew(
    m: Mirror, s: Store, b: Building, order: seq<DeviceId>, events: seq<Event>, id: DeviceId)
    requires s.devices.Keys == s.raw.Keys && forall k :: k in order <==> k in s.raw
    requires Agrees(Replay(m, b.events), Overlay(s, b))
    requires Replay(m, events).devices == Replay(m, b.events).devices
    requires Replay(m, events).online == Replay(m, b.events).online
    requires ShowsAlerts(Replay(m, events), id, AlertsWhileClosing(s, b, order, id))
    ensures Get(Replay(m, events).devices, id) == Get(Overlay(s, b), id)
    ensures Get(Replay(m, events).online, id)
         == (if id in Overlay(s, b) then Some(Overlay(s, b)[id].online) else None)
    ensures ShowsAlerts(Replay(m, events), id, AlertsOf(Get(b.devices, id)))
  {
    assert Shows(Replay(m, b.events), id, Get(Overlay(s, b), id));
    if id !in b.devices && id !in order {
      assert id !in s.devices.Keys;
    }
  }
}
