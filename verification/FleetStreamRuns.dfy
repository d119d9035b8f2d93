/** The event stream over sweeps, evictions and whole runs. */
module FleetStreamRuns {
  import opened Wrappers
  import opened FleetSteps
  import opened FleetInvariantProofs
  import opened FleetEventProofs
  import opened FleetStreamProofs

  // ---------------------------------------------------------------------------
  // The offline sweep
  // ---------------------------------------------------------------------------

  lemma JudgingTracks(m: Mirror, c: Config, s: Store, id: DeviceId, rule: OfflineRule, now: int)
    requires Decorates(c) && Filed(c, s.raw, s.devices) && Tracks(m, s)
    ensures var next := JudgeDevice(c, s, id, rule, now);
            && Tracks(m, next)
            && (Alternates(m, s.events) && DistinctAlerts(s.devices)
                ==> Alternates(m, next.events) && DistinctAlerts(next.devices))
  {
    if id in s.raw && IsSilent(s, id, rule.thresholdMs, now) {
      var updated := MarkedOffline(c, s.raw[id], rule, now);
      var configured := c.decorate(updated);
      assert s.devices[id].alerts == s.raw[id].alerts;
      assert configured.id == id && configured.alerts == updated.alerts;
      ChangeTracks(m, s.devices, s.events, configured);
      if DistinctAlerts(s.devices) {
        MarkedOfflineKeepsDistinct(c, s.raw[id], rule, now);
      }
    }
  }

  lemma {:induction false} JudgingAllTracks(
    m: Mirror, c: Config, s: Store, order: seq<DeviceId>, rule: OfflineRule, now: int)
    requires Decorates(c) && Consistent(c, s) && Tracks(m, s)
    ensures var next := JudgeDevices(c, s, order, rule, now);
            && Tracks(m, next)
            && (Alternates(m, s.events) && DistinctAlerts(s.devices)
                ==> Alternates(m, next.events) && DistinctAlerts(next.devices))
  {
    if order != [] {
      var init := order[..|order| - 1];
      JudgingAllTracks(m, c, s, init, rule, now);
      SweepKeepsFleet(c, s, init, rule, now);
      JudgingTracks(m, c, JudgeDevices(c, s, init, rule, now), order[|order| - 1], rule, now);
    }
  }

  // ---------------------------------------------------------------------------
  // Eviction
  // ---------------------------------------------------------------------------

  /** The alerts a listener holds of a device while devices are being evicted. */
  function AlertsWhileEvicting(s: Store, evicted: seq<DeviceId>, id: DeviceId): seq<Alert> {
    if id in evicted then [] else AlertsOf(Get(s.devices, id))
  }

  ghost predicate ShowsWhileEvicting(m: Mirror, s: Store, evicted: seq<DeviceId>) {
    forall id :: ShowsAlerts(m, id, AlertsWhileEvicting(s, evicted, id))
  }

  lemma EvictingOneTracks(m: Mirror, s: Store, events: seq<Event>, evicted: seq<DeviceId>, device: Device)
    requires ShowsWhileEvicting(Replay(m, events), s, evicted)
    requires device.id !in evicted && device.alerts == AlertsOf(Get(s.devices, device.id))
    ensures var here, next := Replay(m, events), Replay(m, events + ClosingEvents(Some(device)));
            && next.devices == here.devices && next.online == here.online
            && ShowsWhileEvicting(next, s, evicted + [device.id])
            && (Alternates(m, events) && DistinctIds(device.alerts) ==>
                  Alternates(m, events + ClosingEvents(Some(device))))
  {
    var here, next := Replay(m, events), Replay(m, events + ClosingEvents(Some(device)));
    assert ShowsAlerts(here, device.id, AlertsWhileEvicting(s, evicted, device.id));
    ClosingTracks(m, events, device);
    forall id
      ensures ShowsAlerts(next, id, AlertsWhileEvicting(s, evicted + [device.id], id))
    {
      assert ShowsAlerts(here, id, AlertsWhileEvicting(s, evicted, id));
    }
  }

  /** While devices are being evicted a listener still shows them, without their alerts. */
  lemma {:induction false} EvictingTracks(m: Mirror, c: Config, s: Store, ids: seq<DeviceId>)
    requires Decorates(c) && Filed(c, s.raw, s.devices) && Tracks(m, s)
    requires Distinct(ids) && forall id | id in ids :: id in s.raw
    ensures var here, next := Replay(m, s.events), Replay(m, EvictDevices(s, ids).events);
            && next.devices == here.devices && next.online == here.online
            && ShowsWhileEvicting(next, s, ids)
            && (Alternates(m, s.events) && DistinctAlerts(s.devices) ==> Alternates(m, EvictDevices(s, ids).events))
  {
    if ids == [] {
      forall id
        ensures ShowsAlerts(Replay(m, s.events), id, AlertsWhileEvicting(s, [], id))
      {
        assert Shows(Replay(m, s.events), id, Get(s.devices, id));
      }
    } else {
      var init, last := ids[..|ids| - 1], ids[|ids| - 1];
      assert ids == init + [last] && last !in init;
      EvictingTracks(m, c, s, init);
      assert Get(EvictDevices(s, init).raw, last) == Some(s.raw[last]) by {
        EvictingRemoves(s, init);
      }
      assert s.devices[last].alerts == s.raw[last].alerts;
      EvictingOneTracks(m, s, EvictDevices(s, init).events, init, s.raw[last]);
    }
  }

  lemma {:induction false} EvictableDistinct(c: Config, s: Store, order: seq<DeviceId>, now: int)
    requires Distinct(order)
    ensures Distinct(EvictableAmong(c, s, order, now))
  {
    if order != [] {
      EvictableDistinct(c, s, order[..|order| - 1], now);
      EvictableFacts(c, s, order[..|order| - 1], now);
    }
  }

  lemma {:induction false} EvictedMaps(s: Store, ids: seq<DeviceId>)
    ensures var next := EvictDevices(s, ids);
            forall id :: Get(next.devices, id) == if id in ids then None else Get(s.devices, id)
  {
    if ids != [] {
      assert ids == ids[..|ids| - 1] + [ids[|ids| - 1]];
      EvictedMaps(s, ids[..|ids| - 1]);
    }
  }

  /** The snapshot after an eviction tells a listener which devices are gone. */
  lemma EvictionSnapshotTracks(m: Mirror, c: Config, s: Store, ids: seq<DeviceId>)
    requires Decorates(c) && Filed(c, s.raw, s.devices) && Tracks(m, s)
    requires Distinct(ids) && forall id | id in ids :: id in s.raw
    ensures var evicted := EvictDevices(s, ids);
            var events := evicted.events + [Snapshot(evicted.devices)];
            && Agrees(Replay(m, events), evicted.devices)
            && (Alternates(m, s.events) && DistinctAlerts(s.devices)
                ==> Alternates(m, events) && DistinctAlerts(evicted.devices))
  {
    EvictingTracks(m, c, s, ids);
    EvictedMaps(s, ids);
    var next := EvictDevices(s, ids);
    forall id
      ensures Get(Replay(m, next.events).devices, id) == Get(s.devices, id)
      ensures Get(Replay(m, next.events).online, id)
           == (if id in s.devices then Some(s.devices[id].online) else None)
      ensures ShowsAlerts(Replay(m, next.events), id, AlertsOf(Get(next.devices, id)))
    {
      assert Shows(Replay(m, s.events), id, Get(s.devices, id));
      assert ShowsAlerts(Replay(m, next.events), id, AlertsWhileEvicting(s, ids, id));
    }
    forall id | id in next.devices
      ensures Get(s.devices, id) == Some(next.devices[id])
    {
      assert Get(next.devices, id) == Get(s.devices, id);
    }
    SnapshotTracks(m, next.events, s.devices, next.devices);
  }

  lemma EvictionTracks(m: Mirror, c: Config, s: Store, order: seq<DeviceId>, now: int)
    requires Decorates(c) && Consistent(c, s) && Tracks(m, s) && Walks(order, s.raw.Keys)
    ensures var next := EvictSilent(c, s, order, now);
            && Tracks(m, next)
            && (Alternates(m, s.events) && DistinctAlerts(s.devices)
                ==> Alternates(m, next.events) && DistinctAlerts(next.devices))
  {
    NothingUnseen(c, s, order, now);
    EvictableFacts(c, s, order, now);
    EvictableDistinct(c, s, order, now);
    EvictionSnapshotTracks(m, c, s, EvictableAmong(c, s, order, now));
  }

  lemma JudgedTracks(m: Mirror, c: Config, noted: Store, rule: OfflineRule, order: seq<DeviceId>, now: int)
    requires Decorates(c) && Consistent(c, noted) && Tracks(m, noted)
    ensures var next := Judged(c, noted, rule, order, now);
            && Tracks(m, next)
            && (Alternates(m, noted.events) && DistinctAlerts(noted.devices)
                ==> Alternates(m, next.events) && DistinctAlerts(next.devices))
  {
    JudgingAllTracks(m, c, noted, order, rule, now);
  }

  lemma SweepTracks(m: Mirror, c: Config, s: Store, rule: OfflineRule, order: seq<DeviceId>, now: int)
    requires Decorates(c) && Consistent(c, s) && Tracks(m, s) && Walks(order, s.raw.Keys)
    ensures var next := Sweep(c, s, rule, order, now);
            && Tracks(m, next)
            && (Alternates(m, s.events) && DistinctAlerts(s.devices)
                ==> Alternates(m, next.events) && DistinctAlerts(next.devices))
  {
    var noted := NoteSweep(s, rule.thresholdMs, now);
    JudgedTracks(m, c, noted, rule, order, now);
    JudgedKeepsFleet(c, noted, rule, order, now);
    EvictionTracks(m, c, Judged(c, noted, rule, order, now), order, now);
  }

  // ---------------------------------------------------------------------------
  // Runs
  // ---------------------------------------------------------------------------

  /** What the step assumes: it walks the fleet as it is, and a whole fleet names each device once. */
  ghost predicate WellFormed(s: Store, step: Step) {
    WellOrdered(s, step) && (step.Ingested? ==> NamesOnce(Frames(step.payload)))
  }

  /** The alert lists the step brings have distinct ids. */
  ghost predicate BringsDistinctAlerts(step: Step) {
    match step
    case Ingested(payload, _) => DistinctFrames(Frames(payload))
    case StatusCame(_, _, alerts, _) => DistinctIds(alerts)
    case _ => true
  }

  lemma StepTracks(m: Mirror, c: Config, s: Store, timed: TimedStep)
    requires Decorates(c) && Consistent(c, s) && WellFormed(s, timed.step) && Tracks(m, s)
    ensures var next := Apply(c, s, timed);
            && Tracks(m, next)
            && (Alternates(m, s.events) && DistinctAlerts(s.devices) && BringsDistinctAlerts(timed.step)
                ==> Alternates(m, next.events) && DistinctAlerts(next.devices))
  {
    match timed.step
    case Ingested(payload, order) => PayloadTracks(m, c, s, payload, order, timed.now);
    case StatusCame(id, online, alerts, rest) => StatusTracks(m, c, s, id, online, alerts, rest, timed.now);
    case Swept(rule, order) => SweepTracks(m, c, s, rule, order, timed.now);
    case SourceChanged(connected) =>
  }

  ghost predicate WellFormedRun(c: Config, s: Store, steps: seq<TimedStep>) {
    forall i | 0 <= i < |steps| :: WellFormed(Run(c, s, steps[..i]), steps[i].step)
  }

  lemma WellFormedPrefix(c: Config, s: Store, steps: seq<TimedStep>)
    requires steps != [] && WellFormedRun(c, s, steps)
    ensures WellFormedRun(c, s, steps[..|steps| - 1])
    ensures WellFormed(Run(c, s, steps[..|steps| - 1]), steps[|steps| - 1].step)
    ensures WellOrderedRun(c, s, steps)
  {
    var init := steps[..|steps| - 1];
    forall i | 0 <= i < |init|
      ensures WellFormed(Run(c, s, init[..i]), init[i].step)
    {
      assert init[..i] == steps[..i];
    }
  }

  /** What a listener that joins at this boundary holds. */
  ghost predicate JoinsAt(m: Mirror, s: Store) {
    s.events == [] && Agrees(m, s.devices)
  }

  /**
   * A listener that joined at a mutation boundary and replays the stream holds, after every later
   * mutation, exactly the store's devices, online flags and active alert ids.
   */
  lemma {:induction false} StreamAgreesWithState(m: Mirror, c: Config, s: Store, steps: seq<TimedStep>)
    requires Decorates(c) && Consistent(c, s) && WellFormedRun(c, s, steps) && JoinsAt(m, s)
    ensures Agrees(Replay(m, Run(c, s, steps).events), Run(c, s, steps).devices)
  {
    if steps != [] {
      var init := steps[..|steps| - 1];
      WellFormedPrefix(c, s, steps);
      StreamAgreesWithState(m, c, s, init);
      WellOrderedPrefix(c, s, steps);
      RunsStayConsistent(c, s, init);
      StepTracks(m, c, Run(c, s, init), steps[|steps| - 1]);
    }
  }

  /** Where no alert list repeats an id, created and cleared alternate per alert, and online with offline. */
  lemma {:induction false} StreamAlternates(m: Mirror, c: Config, s: Store, steps: seq<TimedStep>)
    requires Decorates(c) && Consistent(c, s) && WellFormedRun(c, s, steps) && JoinsAt(m, s)
    requires DistinctAlerts(s.devices) && forall i | 0 <= i < |steps| :: BringsDistinctAlerts(steps[i].step)
    ensures Alternates(m, Run(c, s, steps).events) && DistinctAlerts(Run(c, s, steps).devices)
  {
    if steps != [] {
      var init := steps[..|steps| - 1];
      WellFormedPrefix(c, s, steps);
      StreamAlternates(m, c, s, init);
      StreamAgreesWithState(m, c, s, init);
      WellOrderedPrefix(c, s, steps);
      RunsStayConsistent(c, s, init);
      StepTracks(m, c, Run(c, s, init), steps[|steps| - 1]);
    }
  }

  /**
   * Alert lists are deduplicated by id, severity and title together, so a vehicle's frame can carry one
   * id twice. The first live frame of a vehicle keeps the stream alternating exactly when it does not;
   * otherwise the repeated alert is announced twice.
   */
  lemma RepeatedIdIsCreatedTwice(m: Mirror, c: Config, s: Store, frame: Device, receivedAt: int, now: int)
    requires Decorates(c) && Consistent(c, s) && Tracks(m, s) && Alternates(m, s.events)
    requires frame.id !in s.raw && Admits(c, s.raw, frame.id)
    ensures Alternates(m, ApplyPayload(c, s, Live(frame, receivedAt), [], now).events) <==> DistinctIds(frame.alerts)
  {
    var p := Live(frame, receivedAt);
    OneFrame(c, s, p, now);
    assert Get(s.devices, frame.id) == None && !IsLate(c, StartBuilding(s, p), p, frame);
    var merged := Merged(c, s, p, frame);
    var configured := c.decorate(merged);
    assert configured.alerts == CarryAlertOnsets([], frame.alerts) && configured.id == frame.id;
    assert DistinctOutside(configured.alerts, []) <==> DistinctIds(frame.alerts);
    assert Shows(Replay(m, s.events), frame.id, None);
    ReplayChange(Replay(m, s.events), None, configured);
    AlternatesConcat(m, s.events, ChangeEvents(None, configured));
  }
}
