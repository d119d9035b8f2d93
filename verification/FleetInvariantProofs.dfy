/** What every mutation keeps about the fleet's maps, under a fixed roster. */
module FleetInvariantProofs {
  import opened Wrappers
  import opened FleetSteps

  /** Snapshots are filed under their own ids, and each configured one is the raw one decorated. */
  ghost predicate Filed(c: Config, raw: map<DeviceId, Device>, devices: map<DeviceId, Device>) {
    && (forall id :: id in raw <==> id in devices)
    && (forall id | id in raw :: raw[id].id == id && devices[id] == c.decorate(raw[id]))
  }

  /** Undeclared devices never exceed the cap. */
  predicate Capped(c: Config, fleet: set<DeviceId>) {
    |fleet - c.declared| <= c.maxDevices
  }

  ghost predicate Consistent(c: Config, s: Store) {
    && Filed(c, s.raw, s.devices)
    && (forall id :: id in s.lastIngestAt <==> id in s.raw)
    && (forall id | id in s.lastFrameStamp :: id in s.raw)
    && Capped(c, s.raw.Keys)
  }

  /** An order that walks the fleet visits each device once. */
  ghost predicate Walks(order: seq<DeviceId>, fleet: set<DeviceId>) {
    && (forall id :: id in order <==> id in fleet)
    && Distinct(order)
  }

  /** The step walks the fleet as it is. */
  ghost predicate WellOrdered(s: Store, step: Step) {
    match step
    case Ingested(payload, order) => payload.WholeFleet? ==> Walks(order, s.raw.Keys)
    case Swept(_, order) => Walks(order, s.raw.Keys)
    case _ => true
  }

  // ---------------------------------------------------------------------------
  // Admission
  // ---------------------------------------------------------------------------

  lemma AdmittedStaysCapped(c: Config, raw: map<DeviceId, Device>, id: DeviceId)
    requires Capped(c, raw.Keys) && Admits(c, raw, id)
    ensures Capped(c, raw.Keys + {id})
  {
    var fleet := raw.Keys;
    if id in fleet || id in c.declared {
      assert fleet + {id} - c.declared == fleet - c.declared;
    } else {
      assert |fleet| == |raw|;
    }
  }

  lemma {:induction false} Shrinks(small: set<DeviceId>, large: set<DeviceId>)
    requires small <= large
    ensures |small| <= |large|
  {
    if small != {} {
      var x :| x in small;
      Shrinks(small - {x}, large - {x});
    }
  }

  /** Filing one more snapshot under its id. */
  lemma FilingKeepsFiled(c: Config, raw: map<DeviceId, Device>, devices: map<DeviceId, Device>, device: Device)
    requires Decorates(c) && Filed(c, raw, devices)
    ensures var configured := c.decorate(device);
            && Filed(c, raw[device.id := device], devices[configured.id := configured])
            && raw[device.id := device].Keys == raw.Keys + {device.id}
  {
    assert c.decorate(device).id == device.id;
  }

  // ---------------------------------------------------------------------------
  // Payloads and status frames
  // ---------------------------------------------------------------------------

  /** A payload of one frame. */
  lemma OneFrame(c: Config, s: Store, p: Payload, now: int)
    requires !p.WholeFleet?
    ensures ApplyPayload(c, s, p, [], now) == SwapIn(s, IngestFrame(c, s, StartBuilding(s, p), p, p.frame, now))
  {
    assert Frames(p)[..0] == [] && Frames(p)[0] == p.frame;
    assert IngestFrames(c, s, StartBuilding(s, p), p, [], now) == StartBuilding(s, p);
  }

  ghost predicate BuildingConsistent(c: Config, s: Store, b: Building) {
    && Filed(c, b.raw, b.devices)
    && (forall id :: id in b.lastIngestAt <==> id in s.raw || id in b.raw)
    && (forall id | id in b.lastFrameStamp :: id in s.raw || id in b.raw)
    && Capped(c, b.raw.Keys)
  }

  /** An accepted frame files one device more, and what else it records is about that device. */
  lemma AcceptedKeepsBuilding(c: Config, s: Store, b: Building, next: Building, device: Device, now: int)
    requires Decorates(c) && BuildingConsistent(c, s, b) && Admits(c, b.raw, device.id)
    requires next.raw == b.raw[device.id := device] && next.devices == b.devices[c.decorate(device).id := c.decorate(device)]
    requires next.lastIngestAt == b.lastIngestAt[device.id := now]
    requires forall id | id in next.lastFrameStamp :: id == device.id || id in b.lastFrameStamp
    ensures BuildingConsistent(c, s, next) && forall id | id in b.raw :: id in next.raw
  {
    FilingKeepsFiled(c, b.raw, b.devices, device);
    AdmittedStaysCapped(c, b.raw, device.id);
  }

  lemma FrameKeepsBuilding(c: Config, s: Store, b: Building, p: Payload, frame: Device, now: int)
    requires Decorates(c) && BuildingConsistent(c, s, b)
    ensures BuildingConsistent(c, s, IngestFrame(c, s, b, p, frame, now))
    ensures forall id | id in b.raw :: id in IngestFrame(c, s, b, p, frame, now).raw
  {
    if Admits(c, b.raw, frame.id) && !IsLate(c, b, p, frame) {
      AcceptedKeepsBuilding(c, s, b, IngestFrame(c, s, b, p, frame, now), Merged(c, s, p, frame), now);
    }
  }

  lemma {:induction false} FramesKeepBuilding(
    c: Config, s: Store, b: Building, p: Payload, frames: seq<Device>, now: int)
    requires Decorates(c) && BuildingConsistent(c, s, b)
    ensures BuildingConsistent(c, s, IngestFrames(c, s, b, p, frames, now))
    ensures forall id | id in b.raw :: id in IngestFrames(c, s, b, p, frames, now).raw
  {
    if frames != [] {
      var init := frames[..|frames| - 1];
      FramesKeepBuilding(c, s, b, p, init, now);
      FrameKeepsBuilding(c, s, IngestFrames(c, s, b, p, init, now), p, frames[|frames| - 1], now);
    }
  }

  lemma {:induction false} ForgetDepartedKeys(s: Store, b: Building, order: seq<DeviceId>)
    ensures var next := ForgetDeparted(s, b, order);
            && next.raw == b.raw && next.devices == b.devices
            && (forall id :: id in next.lastIngestAt <==> id in b.lastIngestAt && (id in b.raw || id !in order))
            && (forall id :: id in next.lastFrameStamp <==> id in b.lastFrameStamp && (id in b.raw || id !in order))
  {
    if order != [] {
      var init, last := order[..|order| - 1], order[|order| - 1];
      assert order == init + [last];
      ForgetDepartedKeys(s, b, init);
    }
  }

  lemma PayloadKeepsConsistent(c: Config, s: Store, p: Payload, order: seq<DeviceId>, now: int)
    requires Decorates(c) && Consistent(c, s)
    requires p.WholeFleet? ==> Walks(order, s.raw.Keys)
    ensures Consistent(c, ApplyPayload(c, s, p, order, now))
  {
    var start := StartBuilding(s, p);
    FramesKeepBuilding(c, s, start, p, Frames(p), now);
    ForgetDepartedKeys(s, IngestFrames(c, s, start, p, Frames(p), now), order);
  }

  lemma StatusKeepsConsistent(
    c: Config, s: Store, id: DeviceId, online: bool, alerts: seq<Alert>, rest: string, now: int)
    requires Decorates(c) && Consistent(c, s)
    ensures Consistent(c, ApplyStatus(c, s, id, online, alerts, rest, now))
  {
    if Admits(c, s.raw, id) {
      var device := Device(id, online, now, CarryAlertOnsets(AlertsOf(Get(s.raw, id)), alerts), rest);
      FilingKeepsFiled(c, s.raw, s.devices, device);
      AdmittedStaysCapped(c, s.raw, id);
    }
  }

  // ---------------------------------------------------------------------------
  // Sweep and eviction
  // ---------------------------------------------------------------------------

  lemma JudgingKeepsConsistent(c: Config, s: Store, id: DeviceId, rule: OfflineRule, now: int)
    requires Decorates(c) && Consistent(c, s)
    ensures var next := JudgeDevice(c, s, id, rule, now);
            Consistent(c, next) && next.raw.Keys == s.raw.Keys && next.lastIngestAt == s.lastIngestAt
  {
    if id in s.raw && IsSilent(s, id, rule.thresholdMs, now) {
      assert JudgeDevice(c, s, id, rule, now).raw.Keys == s.raw.Keys;
    }
  }

  lemma {:induction false} SweepKeepsFleet(c: Config, s: Store, order: seq<DeviceId>, rule: OfflineRule, now: int)
    requires Decorates(c) && Consistent(c, s)
    ensures var next := JudgeDevices(c, s, order, rule, now);
            Consistent(c, next) && next.raw.Keys == s.raw.Keys && next.lastIngestAt == s.lastIngestAt
  {
    if order != [] {
      SweepKeepsFleet(c, s, order[..|order| - 1], rule, now);
      JudgingKeepsConsistent(c, JudgeDevices(c, s, order[..|order| - 1], rule, now), order[|order| - 1], rule, now);
    }
  }

  lemma {:induction false} EvictableFacts(c: Config, s: Store, order: seq<DeviceId>, now: int)
    ensures forall id :: id in EvictableAmong(c, s, order, now) <==> id in order && IsEvictable(c, s, id, now)
  {
    if order != [] {
      assert order == order[..|order| - 1] + [order[|order| - 1]];
      EvictableFacts(c, s, order[..|order| - 1], now);
    }
  }

  /** With a sighting recorded for every device there is nothing to note. */
  lemma {:induction false} NothingUnseen(c: Config, s: Store, order: seq<DeviceId>, now: int)
    requires forall id | id in s.raw :: id in s.lastIngestAt
    ensures NoteUnseen(c, s, order, now) == s
  {
    if order != [] {
      NothingUnseen(c, s, order[..|order| - 1], now);
    }
  }

  lemma EvictingOneKeepsConsistent(c: Config, s: Store, id: DeviceId)
    requires Consistent(c, s)
    ensures Consistent(c, EvictDevice(s, id))
  {
    assert EvictDevice(s, id).raw.Keys == s.raw.Keys - {id};
    Shrinks(s.raw.Keys - {id} - c.declared, s.raw.Keys - c.declared);
  }

  lemma {:induction false} EvictingKeepsConsistent(c: Config, s: Store, ids: seq<DeviceId>)
    requires Consistent(c, s)
    ensures Consistent(c, EvictDevices(s, ids))
  {
    if ids != [] {
      EvictingKeepsConsistent(c, s, ids[..|ids| - 1]);
      EvictingOneKeepsConsistent(c, EvictDevices(s, ids[..|ids| - 1]), ids[|ids| - 1]);
    }
  }

  lemma {:induction false} EvictingRemoves(s: Store, ids: seq<DeviceId>)
    ensures var next := EvictDevices(s, ids);
            && (forall id :: id in next.raw <==> id in s.raw && id !in ids)
            && (forall id | id in next.raw :: next.raw[id] == s.raw[id])
            && (forall id | id in s.lastIngestAt && id !in ids ::
                  id in next.lastIngestAt && next.lastIngestAt[id] == s.lastIngestAt[id])
  {
    if ids != [] {
      assert ids == ids[..|ids| - 1] + [ids[|ids| - 1]];
      EvictingRemoves(s, ids[..|ids| - 1]);
    }
  }

  lemma SnapshotKeepsConsistent(c: Config, s: Store)
    requires Consistent(c, s)
    ensures Consistent(c, s.(events := s.events + [Snapshot(s.devices)]))
  {}

  lemma EvictionKeepsConsistent(c: Config, s: Store, order: seq<DeviceId>, now: int)
    requires Consistent(c, s)
    ensures Consistent(c, EvictSilent(c, s, order, now))
  {
    NothingUnseen(c, s, order, now);
    EvictingKeepsConsistent(c, s, EvictableAmong(c, s, order, now));
    SnapshotKeepsConsistent(c, EvictDevices(s, EvictableAmong(c, s, order, now)));
  }

  lemma EvictionForgets(c: Config, s: Store, order: seq<DeviceId>, now: int, id: DeviceId)
    requires c.retentionMs > 0 && forall id | id in s.raw :: id in s.lastIngestAt
    ensures var next := EvictSilent(c, s, order, now);
            && (id in next.raw <==> id in s.raw && !(id in order && IsEvictable(c, s, id, now)))
            && (id in next.raw ==> next.raw[id] == s.raw[id])
            && (id in next.raw ==> id in next.lastIngestAt && next.lastIngestAt[id] == s.lastIngestAt[id])
  {
    NothingUnseen(c, s, order, now);
    EvictableFacts(c, s, order, now);
    EvictingRemoves(s, EvictableAmong(c, s, order, now));
  }

  /** Eviction forgets exactly the undeclared devices silent for longer than the retention. */
  lemma EvictsExactlyTheSilentUndeclared(c: Config, s: Store, order: seq<DeviceId>, now: int)
    requires Consistent(c, s) && Walks(order, s.raw.Keys)
    ensures var next := EvictSilent(c, s, order, now);
            && Consistent(c, next)
            && (forall id :: id in next.raw
                  <==> (id in s.raw
                        && (c.retentionMs <= 0 || id in c.declared || now - s.lastIngestAt[id] <= c.retentionMs)))
            && (forall id | id in next.raw :: next.raw[id] == s.raw[id] && next.lastIngestAt[id] == s.lastIngestAt[id])
  {
    EvictionKeepsConsistent(c, s, order, now);
    if c.retentionMs > 0 {
      var next := EvictSilent(c, s, order, now);
      forall id
        ensures id in next.raw <==>
                  (id in s.raw && (id in c.declared || now - s.lastIngestAt[id] <= c.retentionMs))
        ensures id in next.raw ==> next.raw[id] == s.raw[id] && next.lastIngestAt[id] == s.lastIngestAt[id]
      {
        EvictionForgets(c, s, order, now, id);
      }
    }
  }

  lemma JudgedKeepsFleet(c: Config, noted: Store, rule: OfflineRule, order: seq<DeviceId>, now: int)
    requires Decorates(c) && Consistent(c, noted)
    ensures var judged := Judged(c, noted, rule, order, now);
            Consistent(c, judged) && judged.raw.Keys == noted.raw.Keys && judged.lastIngestAt == noted.lastIngestAt
  {
    SweepKeepsFleet(c, noted, order, rule, now);
  }

  lemma SweepKeepsConsistent(c: Config, s: Store, rule: OfflineRule, order: seq<DeviceId>, now: int)
    requires Decorates(c) && Consistent(c, s)
    ensures Consistent(c, Sweep(c, s, rule, order, now))
  {
    var noted := NoteSweep(s, rule.thresholdMs, now);
    JudgedKeepsFleet(c, noted, rule, order, now);
    EvictionKeepsConsistent(c, Judged(c, noted, rule, order, now), order, now);
  }

  // ---------------------------------------------------------------------------
  // Runs
  // ---------------------------------------------------------------------------

  lemma StepKeepsConsistent(c: Config, s: Store, timed: TimedStep)
    requires Decorates(c) && Consistent(c, s) && WellOrdered(s, timed.step)
    ensures Consistent(c, Apply(c, s, timed))
  {
    match timed.step
    case Ingested(payload, order) => PayloadKeepsConsistent(c, s, payload, order, timed.now);
    case StatusCame(id, online, alerts, rest) => StatusKeepsConsistent(c, s, id, online, alerts, rest, timed.now);
    case Swept(rule, order) => SweepKeepsConsistent(c, s, rule, order, timed.now);
    case SourceChanged(connected) =>
  }

  /** Every step of the run walks the fleet as it is when the step starts. */
  ghost predicate WellOrderedRun(c: Config, s: Store, steps: seq<TimedStep>) {
    forall i | 0 <= i < |steps| :: WellOrdered(Run(c, s, steps[..i]), steps[i].step)
  }

  lemma WellOrderedPrefix(c: Config, s: Store, steps: seq<TimedStep>)
    requires steps != [] && WellOrderedRun(c, s, steps)
    ensures WellOrderedRun(c, s, steps[..|steps| - 1])
    ensures WellOrdered(Run(c, s, steps[..|steps| - 1]), steps[|steps| - 1].step)
  {
    var init := steps[..|steps| - 1];
    forall i | 0 <= i < |init|
      ensures WellOrdered(Run(c, s, init[..i]), init[i].step)
    {
      assert init[..i] == steps[..i];
    }
  }

  /**
   * Over every run: the raw, configured and last-heard maps have the same keys, frame stamps are kept
   * for known devices only, and undeclared devices never exceed the cap.
   */
  lemma {:induction false} RunsStayConsistent(c: Config, s: Store, steps: seq<TimedStep>)
    requires Decorates(c) && Consistent(c, s) && WellOrderedRun(c, s, steps)
    ensures Consistent(c, Run(c, s, steps))
  {
    if steps != [] {
      WellOrderedPrefix(c, s, steps);
      RunsStayConsistent(c, s, steps[..|steps| - 1]);
      StepKeepsConsistent(c, Run(c, s, steps[..|steps| - 1]), steps[|steps| - 1]);
    }
  }

  lemma {:induction false} RestoringIsConsistent(c: Config, restored: seq<Device>, now: int)
    requires Decorates(c)
    ensures var s := RestoreDevices(c, EMPTY, restored, now);
            && Consistent(c, s) && s.raw.Keys <= c.declared
            && s.events == [] && s.log == [] && s.lastFrameStamp == map[] && s.lastSweepAt == None
  {
    if restored == [] {
      assert EMPTY.raw.Keys - c.declared == {};
    } else {
      RestoringIsConsistent(c, restored[..|restored| - 1], now);
    }
  }

  lemma EvictionKeepsDeclared(c: Config, s: Store, order: seq<DeviceId>, now: int, id: DeviceId)
    requires Consistent(c, s) && id in s.raw && id in c.declared
    ensures id in EvictSilent(c, s, order, now).raw
  {
    if c.retentionMs > 0 { EvictionForgets(c, s, order, now, id); }
  }

  lemma SweepKeepsDeclared(c: Config, s: Store, rule: OfflineRule, order: seq<DeviceId>, now: int, id: DeviceId)
    requires Decorates(c) && Consistent(c, s) && id in s.raw && id in c.declared
    ensures id in Sweep(c, s, rule, order, now).raw
  {
    var noted := NoteSweep(s, rule.thresholdMs, now);
    var judged := Judged(c, noted, rule, order, now);
    JudgedKeepsFleet(c, noted, rule, order, now);
    assert id in judged.raw.Keys;
    EvictionKeepsDeclared(c, judged, order, now, id);
  }

  lemma FrameKeepsFleet(c: Config, s: Store, p: Payload, order: seq<DeviceId>, now: int, id: DeviceId)
    requires Decorates(c) && Consistent(c, s) && id in s.raw && !p.WholeFleet?
    ensures id in ApplyPayload(c, s, p, order, now).raw
  {
    FramesKeepBuilding(c, s, StartBuilding(s, p), p, Frames(p), now);
  }

  /** A device the roster declares is only ever removed by a whole-fleet replace, never by silence. */
  lemma DeclaredDevicesStay(c: Config, s: Store, timed: TimedStep, id: DeviceId)
    requires Decorates(c) && Consistent(c, s) && id in s.raw && id in c.declared
    requires !(timed.step.Ingested? && timed.step.payload.WholeFleet?)
    ensures id in Apply(c, s, timed).raw
  {
    match timed.step
    case Ingested(payload, order) => FrameKeepsFleet(c, s, payload, order, timed.now, id);
    case Swept(rule, order) => SweepKeepsDeclared(c, s, rule, order, timed.now, id);
    case _ =>
  }
}
