/**
 * The `DashboardStore` class: the device maps it updates and the loops that walk them. `order` is the
 * insertion order of the raw device map.
 */
module FleetStore {
  import opened Wrappers
  import opened FleetSteps

  class DashboardStore {
    const config: Config
    var rawDevices: map<DeviceId, Device>
    var devices: map<DeviceId, Device>
    var lastIngestAt: map<DeviceId, int>
    var lastFrameStamp: map<DeviceId, int>
    var sourceUpSince: Option<int>
    var lastSweepAt: Option<int>
    var evictedDevices: nat
    /** The events emitted so far. */
    var emitted: seq<Event>
    /** What happened, for judging verdicts by; the source keeps no such record. */
    var log: seq<Happening>

    function State(): Store
      reads this
    {
      Store(rawDevices, devices, lastIngestAt, lastFrameStamp, sourceUpSince, lastSweepAt, emitted, log)
    }

    constructor (config: Config)
      ensures this.config == config && State() == EMPTY
    {
      this.config := config;
      rawDevices, devices, lastIngestAt, lastFrameStamp := map[], map[], map[], map[];
      sourceUpSince, lastSweepAt, evictedDevices, emitted, log := Some(0), None, 0, [], [];
    }

    method SetSource(connected: bool, now: int)
      modifies this
      ensures State() == SetSourceConnected(old(State()), connected, now)
    {
      if connected {
        if sourceUpSince.None? {
          sourceUpSince := Some(now);
        }
        log := log + [SourceUp(now)];
      } else {
        sourceUpSince := None;
        log := log + [SourceDown(now)];
      }
    }

    /** Broadcast what changed between two snapshots of one device. */
    method EmitChangeEvents(previous: Option<Device>, current: Device)
      modifies `emitted
      ensures emitted == old(emitted) + ChangeEvents(previous, current)
    {
      ghost var was := emitted;
      emitted := emitted + [Delta(current)];
      if previous.None? || previous.value.online != current.online {
        emitted := emitted + [if current.online then WentOnline(current.id) else WentOffline(current.id)];
      }
      ghost var first := [Delta(current)] + LivenessEvents(previous, current);
      assert emitted == was + first;
      EmitCreated(AlertsOf(previous), current.alerts, current.id);
      ghost var second := first + CreatedEvents(AlertsOf(previous), current.alerts, current.id);
      assert emitted == was + second;
      EmitCleared(AlertsOf(previous), current.alerts, current.id);
      assert emitted == was + (second + ClearedEvents(AlertsOf(previous), current.alerts, current.id));
    }

    method EmitCreated(previous: seq<Alert>, current: seq<Alert>, id: DeviceId)
      modifies `emitted
      ensures emitted == old(emitted) + CreatedEvents(previous, current, id)
    {
      for i := 0 to |current|
        invariant emitted == old(emitted) + CreatedEvents(previous, current[..i], id)
      {
        assert current[..i + 1][..i] == current[..i];
        if !Raises(previous, current[i].id) {
          emitted := emitted + [AlertCreated(id, current[i].id)];
        }
      }
      assert current[..|current|] == current;
    }

    method EmitCleared(previous: seq<Alert>, current: seq<Alert>, id: DeviceId)
      modifies `emitted
      ensures emitted == old(emitted) + ClearedEvents(previous, current, id)
    {
      for i := 0 to |previous|
        invariant emitted == old(emitted) + ClearedEvents(previous[..i], current, id)
      {
        assert previous[..i + 1][..i] == previous[..i];
        if !Raises(current, previous[i].id) {
          emitted := emitted + [AlertCleared(id, previous[i].id)];
        }
      }
      assert previous[..|previous|] == previous;
    }

    /** Announce that a departing device's alerts are over. */
    method CloseAlertsOf(device: Option<Device>)
      modifies `emitted
      ensures emitted == old(emitted) + ClosingEvents(device)
    {
      if device.Some? {
        EmitCleared(device.value.alerts, [], device.value.id);
      }
    }

    method ApplyStatusFrame(id: DeviceId, online: bool, alerts: seq<Alert>, rest: string, now: int)
      modifies this
      ensures State() == ApplyStatus(config, old(State()), id, online, alerts, rest, now)
    {
      if !Admits(config, rawDevices, id) {
        return;
      }
      var device := Device(id, online, now, CarryAlertOnsets(AlertsOf(Get(rawDevices, id)), alerts), rest);
      var previous := Get(devices, id);
      var configured := config.decorate(device);
      rawDevices := rawDevices[id := device];
      devices := devices[id := configured];
      lastIngestAt := lastIngestAt[id := now];
      log := log + [Heard(id, now)];
      EmitChangeEvents(previous, configured);
    }

    /** Whether a frame may enter the fleet being built. */
    method Admit(observed: map<DeviceId, Device>, id: DeviceId) returns (admitted: bool)
      ensures admitted == Admits(config, observed, id)
    {
      if !config.ingestable(id) {
        return false;
      }
      if id in observed || id in config.declared {
        return true;
      }
      return |observed| < config.maxDevices;
    }

    /** Drop a live frame older than its device's last one, or remember its stamp. */
    method CheckOrder(p: Payload, frame: Device) returns (late: bool)
      requires p.Live?
      modifies `lastFrameStamp, `log
      ensures var stamp := StampOf(config, p, frame);
              && late == (frame.id in old(lastFrameStamp) && stamp < old(lastFrameStamp)[frame.id])
              && lastFrameStamp == (if late then old(lastFrameStamp) else old(lastFrameStamp)[frame.id := stamp])
              && log == old(log) + [if late then LateFrame(frame.id, stamp, p.receivedAt)
                                    else LiveFrame(frame.id, stamp, p.receivedAt)]
    {
      var stamp := StampOf(config, p, frame);
      if frame.id in lastFrameStamp && stamp < lastFrameStamp[frame.id] {
        log := log + [LateFrame(frame.id, stamp, p.receivedAt)];
        return true;
      }
      lastFrameStamp := lastFrameStamp[frame.id := stamp];
      log := log + [LiveFrame(frame.id, stamp, p.receivedAt)];
      return false;
    }

    /** One turn of the payload loop; `before` is the store the payload was received by. */
    method IngestOne(ghost before: Store, p: Payload, frame: Device, now: int,
                     nextRaw: map<DeviceId, Device>, nextDevices: map<DeviceId, Device>)
      returns (raw: map<DeviceId, Device>, configured: map<DeviceId, Device>)
      requires before.raw == rawDevices && before.devices == devices
      modifies `lastIngestAt, `lastFrameStamp, `emitted, `log
      ensures Building(raw, configured, lastIngestAt, lastFrameStamp, emitted, log)
           == IngestFrame(config, before, old(Building(nextRaw, nextDevices, lastIngestAt, lastFrameStamp, emitted, log)),
                          p, frame, now)
    {
      raw, configured := nextRaw, nextDevices;
      var admitted := Admit(nextRaw, frame.id);
      if !admitted {
        return;
      }
      if p.Live? {
        var late := CheckOrder(p, frame);
        if late {
          return;
        }
      }
      var merged := MergeFrame(before, p, frame, now);
      var decorated := config.decorate(merged);
      raw := raw[frame.id := merged];
      configured := configured[decorated.id := decorated];
      lastIngestAt := lastIngestAt[frame.id := now];
      log := log + [Heard(frame.id, now)];
      EmitChangeEvents(Get(devices, frame.id), decorated);
    }

    method MergeFrame(ghost before: Store, p: Payload, frame: Device, now: int) returns (merged: Device)
      requires before.raw == rawDevices
      ensures merged == Merged(config, before, p, frame)
    {
      var existing := Get(rawDevices, frame.id);
      var incoming := frame.(
        stamp := StampOf(config, p, frame),
        alerts := CarryAlertOnsets(if p.WholeFleet? then [] else AlertsOf(existing), frame.alerts));
      merged := MergeDevice(config, existing, incoming);
      merged := merged.(
        alerts := ApplyRuleDebounce(merged.id, AlertsOf(existing), merged.alerts, config.debounceMs, merged.stamp));
    }

    /** Apply a payload: build the next maps frame by frame, then swap them in. */
    /** The payload loop. */
    method IngestAll(ghost before: Store, p: Payload, frames: seq<Device>, now: int,
                     startRaw: map<DeviceId, Device>, startDevices: map<DeviceId, Device>)
      returns (nextRaw: map<DeviceId, Device>, nextDevices: map<DeviceId, Device>)
      requires before.raw == rawDevices && before.devices == devices
      modifies `lastIngestAt, `lastFrameStamp, `emitted, `log
      ensures Building(nextRaw, nextDevices, lastIngestAt, lastFrameStamp, emitted, log)
           == IngestFrames(config, before, old(Building(startRaw, startDevices, lastIngestAt, lastFrameStamp, emitted, log)),
                           p, frames, now)
    {
      nextRaw, nextDevices := startRaw, startDevices;
      for i := 0 to |frames|
        invariant Building(nextRaw, nextDevices, lastIngestAt, lastFrameStamp, emitted, log)
               == IngestFrames(config, before,
                               old(Building(startRaw, startDevices, lastIngestAt, lastFrameStamp, emitted, log)),
                               p, frames[..i], now)
      {
        assert frames[..i + 1][..i] == frames[..i];
        nextRaw, nextDevices := IngestOne(before, p, frames[i], now, nextRaw, nextDevices);
      }
      assert frames[..|frames|] == frames;
    }

    method ApplyPayloadFrames(p: Payload, order: seq<DeviceId>, now: int)
      modifies this
      ensures State() == ApplyPayload(config, old(State()), p, order, now)
    {
      ghost var before := State();
      var nextRaw, nextDevices := rawDevices, devices;
      if p.WholeFleet? {
        nextRaw, nextDevices := map[], map[];
      }
      nextRaw, nextDevices := IngestAll(before, p, Frames(p), now, nextRaw, nextDevices);
      if p.WholeFleet? {
        ForgetDepartedDevices(before, nextRaw, nextDevices, order);
      }
      rawDevices, devices := nextRaw, nextDevices;
      if p.WholeFleet? {
        emitted := emitted + [Snapshot(devices)];
      }
    }

    /** After a replace, release everything kept for the devices it dropped. */
    method ForgetDepartedDevices(ghost before: Store, nextRaw: map<DeviceId, Device>,
                                 ghost nextDevices: map<DeviceId, Device>, order: seq<DeviceId>)
      requires before.raw == rawDevices
      modifies `lastIngestAt, `lastFrameStamp, `emitted, `log
      ensures Building(nextRaw, nextDevices, lastIngestAt, lastFrameStamp, emitted, log)
           == ForgetDeparted(before, old(Building(nextRaw, nextDevices, lastIngestAt, lastFrameStamp, emitted, log)), order)
    {
      ghost var built := Building(nextRaw, nextDevices, lastIngestAt, lastFrameStamp, emitted, log);
      for i := 0 to |order|
        invariant Building(nextRaw, nextDevices, lastIngestAt, lastFrameStamp, emitted, log)
               == ForgetDeparted(before, built, order[..i])
      {
        assert order[..i + 1][..i] == order[..i];
        if order[i] !in nextRaw {
          CloseAlertsOf(Get(rawDevices, order[i]));
          lastIngestAt := lastIngestAt - {order[i]};
          lastFrameStamp := lastFrameStamp - {order[i]};
          log := log + [Forgot(order[i])];
        }
      }
      assert order[..|order|] == order;
    }

    /** The offline sweep: judge silence on a settled source, then forget who has been gone too long. */
    method EvaluateOfflineDevices(rule: OfflineRule, order: seq<DeviceId>, now: int)
      modifies this
      ensures State() == Sweep(config, old(State()), rule, order, now)
    {
      if lastSweepAt.Some? && now - lastSweepAt.value > rule.thresholdMs && sourceUpSince.Some? {
        sourceUpSince := Some(Max(sourceUpSince.value, now));
        log := log + [SweepGap(now)];
      }
      lastSweepAt := Some(now);
      if sourceUpSince.Some? && now - sourceUpSince.value >= rule.thresholdMs {
        JudgeAll(rule, order, now);
      }
      EvictSilentDevices(order, now);
    }

    method JudgeAll(rule: OfflineRule, order: seq<DeviceId>, now: int)
      modifies `rawDevices, `devices, `emitted, `log
      ensures State() == JudgeDevices(config, old(State()), order, rule, now)
    {
      ghost var before := State();
      for i := 0 to |order|
        invariant State() == JudgeDevices(config, before, order[..i], rule, now)
      {
        assert order[..i + 1][..i] == order[..i];
        JudgeOne(rule, order[i], now);
      }
      assert order[..|order|] == order;
    }

    method JudgeOne(rule: OfflineRule, id: DeviceId, now: int)
      modifies `rawDevices, `devices, `emitted, `log
      ensures State() == JudgeDevice(config, old(State()), id, rule, now)
    {
      if id !in rawDevices {
        return;
      }
      var device := rawDevices[id];
      var lastHeard := if device.id in lastIngestAt then lastIngestAt[device.id] else device.stamp;
      if now - lastHeard <= rule.thresholdMs || !device.online {
        return;
      }
      var updated := MarkedOffline(config, device, rule, now);
      var configured := config.decorate(updated);
      var previous := Get(devices, id);
      rawDevices := rawDevices[id := updated];
      devices := devices[id := configured];
      log := log + [JudgedOffline(id, now, rule.thresholdMs)];
      EmitChangeEvents(previous, configured);
    }

    /** Forget undeclared devices that have been silent past the retention, and republish the fleet. */
    method EvictSilentDevices(order: seq<DeviceId>, now: int)
      modifies this
      ensures State() == EvictSilent(config, old(State()), order, now)
    {
      if config.retentionMs <= 0 {
        return;
      }
      var evictable := FindEvictable(order, now);
      EvictAll(evictable);
      if evictable != [] {
        evictedDevices := evictedDevices + |evictable|;
        emitted := emitted + [Snapshot(devices)];
      }
    }

    method FindEvictable(order: seq<DeviceId>, now: int) returns (evictable: seq<DeviceId>)
      modifies `lastIngestAt
      ensures evictable == EvictableAmong(config, old(State()), order, now)
      ensures State() == NoteUnseen(config, old(State()), order, now)
    {
      evictable := [];
      var seen := lastIngestAt;
      ghost var before := State();
      for i := 0 to |order|
        invariant evictable == EvictableAmong(config, before, order[..i], now)
        invariant before.(lastIngestAt := lastIngestAt) == NoteUnseen(config, before, order[..i], now)
      {
        assert order[..i + 1][..i] == order[..i];
        var id := order[i];
        if id in rawDevices && id !in config.declared {
          if id !in seen {
            lastIngestAt := lastIngestAt[id := now];
          } else if now - seen[id] > config.retentionMs {
            evictable := evictable + [id];
          }
        }
      }
      assert order[..|order|] == order;
    }

    method EvictAll(ids: seq<DeviceId>)
      modifies `rawDevices, `devices, `lastIngestAt, `lastFrameStamp, `emitted, `log
      ensures State() == EvictDevices(old(State()), ids)
    {
      ghost var before := State();
      for i := 0 to |ids|
        invariant State() == EvictDevices(before, ids[..i])
      {
        assert ids[..i + 1][..i] == ids[..i];
        EvictOne(ids[i]);
      }
      assert ids[..|ids|] == ids;
    }

    method EvictOne(id: DeviceId)
      modifies `rawDevices, `devices, `lastIngestAt, `lastFrameStamp, `emitted, `log
      ensures State() == EvictDevice(old(State()), id)
    {
      CloseAlertsOf(Get(rawDevices, id));
      rawDevices := rawDevices - {id};
      devices := devices - {id};
      lastIngestAt := lastIngestAt - {id};
      lastFrameStamp := lastFrameStamp - {id};
      log := log + [Forgot(id)];
    }
  }
}
