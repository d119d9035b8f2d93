/**
 * What the store holds of a vehicle after a frame, a status frame, a verdict or a restart, told by the fields
 * of what came in (`backend/src/store.ts`, `backend/src/normalize.ts`).
 */
module FleetRecordProofs {
  import opened Wrappers
  import opened FleetSteps
  import opened FleetInvariantProofs
  import opened FleetEventProofs
  import opened FleetStreamProofs
  import opened FleetEvidenceProofs

  // ---------------------------------------------------------------------------
  // Alerts
  // ---------------------------------------------------------------------------

  function OwnOnset(alert: Alert): int {
    if alert.firstSeenAt.Some? then alert.firstSeenAt.value else alert.ts
  }

  /** The last of these alerts with this id. */
  predicate IsLastOf(alerts: seq<Alert>, id: string, i: int) {
    0 <= i < |alerts| && alerts[i].id == id && forall j | i < j < |alerts| :: alerts[j].id != id
  }

  /** The alert as reported, under the onset already recorded for its id or else its own. */
  ghost predicate IsKept(previous: seq<Alert>, reported: Alert, kept: Alert) {
    && kept.id == reported.id && kept.ts == reported.ts && kept.detail == reported.detail && kept.firstSeenAt.Some?
    && (forall i | IsLastOf(previous, reported.id, i) :: kept.firstSeenAt.value == OwnOnset(previous[i]))
    && (!Raises(previous, reported.id) ==> kept.firstSeenAt.value == OwnOnset(reported))
  }

  lemma {:induction false} OnsetIsTheLast(previous: seq<Alert>, id: string)
    ensures forall i | IsLastOf(previous, id, i) :: RecordedOnset(previous, id) == Some(OwnOnset(previous[i]))
    ensures !Raises(previous, id) ==> RecordedOnset(previous, id).None?
  {
    if previous != [] {
      var init, last := previous[..|previous| - 1], previous[|previous| - 1];
      OnsetIsTheLast(init, id);
      RaisesAppend(init, last, id);
      assert previous == init + [last];
      forall i | IsLastOf(previous, id, i) ensures RecordedOnset(previous, id) == Some(OwnOnset(previous[i])) {
        if last.id != id { assert IsLastOf(init, id, i); }
      }
    }
  }

  lemma CarriedIsKept(previous: seq<Alert>, reported: Alert)
    ensures IsKept(previous, reported, CarryOnset(previous, reported))
  {
    OnsetIsTheLast(previous, reported.id);
  }

  /** The first of these alerts with this id. */
  predicate IsFirstOf(alerts: seq<Alert>, id: string, i: int) {
    0 <= i < |alerts| && alerts[i].id == id && forall j | 0 <= j < i :: alerts[j].id != id
  }

  lemma {:induction false} FoundIsTheFirst(alerts: seq<Alert>, id: string)
    ensures forall i | IsFirstOf(alerts, id, i) :: FindAlert(alerts, id) == Some(alerts[i])
    ensures FindAlert(alerts, id).Some? <==> Raises(alerts, id)
    ensures Raises(alerts, id) ==> exists i :: IsFirstOf(alerts, id, i)
  {
    if alerts != [] {
      FoundIsTheFirst(alerts[1..], id);
      if alerts[0].id == id {
        assert IsFirstOf(alerts, id, 0);
      } else {
        forall i | IsFirstOf(alerts, id, i) ensures FindAlert(alerts, id) == Some(alerts[i]) {
          assert IsFirstOf(alerts[1..], id, i - 1);
        }
        if i :| IsFirstOf(alerts[1..], id, i) { assert IsFirstOf(alerts, id, i + 1); }
        assert Raises(alerts, id) <==> Raises(alerts[1..], id) by {
          assert alerts == [alerts[0]] + alerts[1..];
          if i :| 0 <= i < |alerts| && alerts[i].id == id { assert alerts[1..][i - 1].id == id; }
        }
      }
    }
  }

  /** The low-battery alert a frame no longer reports, and that is younger than the debounce window. */
  predicate Lingers(id: DeviceId, previous: seq<Alert>, reported: seq<Alert>, debounceMs: int, now: int, alert: Alert) {
    && debounceMs > 0 && !Raises(reported, id + "-low-soc") && now - alert.ts < debounceMs
    && exists i | 0 <= i < |previous| :: IsFirstOf(previous, id + "-low-soc", i) && previous[i] == alert
  }

  /** The alerts reported, each kept, and after them the low-battery alert if it lingers. */
  ghost predicate AreKept(
    id: DeviceId, carriedFrom: seq<Alert>, previous: seq<Alert>, reported: seq<Alert>, debounceMs: int, now: int, kept: seq<Alert>)
  {
    && |reported| <= |kept| <= |reported| + 1
    && (forall i | 0 <= i < |reported| :: IsKept(carriedFrom, reported[i], kept[i]))
    && (|kept| == |reported| + 1 ==> Lingers(id, previous, reported, debounceMs, now, kept[|reported|]))
    && (|kept| == |reported| ==> forall alert :: !Lingers(id, previous, reported, debounceMs, now, alert))
  }

  lemma SameIdsRaise(reported: seq<Alert>, carried: seq<Alert>, id: string)
    requires |reported| == |carried| && forall i | 0 <= i < |reported| :: reported[i].id == carried[i].id
    ensures Raises(reported, id) == Raises(carried, id)
  {}

  lemma DebouncedAreKept(
    id: DeviceId, carriedFrom: seq<Alert>, previous: seq<Alert>, reported: seq<Alert>, debounceMs: int, now: int)
    ensures AreKept(id, carriedFrom, previous, reported, debounceMs, now,
                    ApplyRuleDebounce(id, previous, CarryAlertOnsets(carriedFrom, reported), debounceMs, now))
  {
    var low, carried := id + "-low-soc", CarryAlertOnsets(carriedFrom, reported);
    forall i | 0 <= i < |reported| ensures IsKept(carriedFrom, reported[i], carried[i]) {
      CarriedIsKept(carriedFrom, reported[i]);
    }
    SameIdsRaise(reported, carried, low);
    FoundIsTheFirst(previous, low);
    FoundIsTheFirst(carried, low);
    if Raises(previous, low) {
      var i :| IsFirstOf(previous, low, i);
      assert FindAlert(previous, low) == Some(previous[i]);
    }
  }

  // ---------------------------------------------------------------------------
  // Frames
  // ---------------------------------------------------------------------------

  /** The time a frame is recorded under: a live frame's arrival when its own clock is too far from it. */
  function RecordedStamp(c: Config, p: Payload, frame: Device): int {
    if p.Live? && (frame.stamp - p.receivedAt > c.toleranceMs || p.receivedAt - frame.stamp > c.toleranceMs)
    then p.receivedAt else frame.stamp
  }

  /** The snapshot a frame leaves. */
  ghost predicate Records(c: Config, s: Store, p: Payload, frame: Device, recorded: Device) {
    var known := if frame.id in s.raw then s.raw[frame.id].alerts else [];
    var stamp := RecordedStamp(c, p, frame);
    && recorded.id == frame.id && recorded.online == frame.online && recorded.stamp == stamp
    && recorded.rest == (if frame.id in s.raw then c.mergeRest(s.raw[frame.id].rest, frame.rest) else frame.rest)
    && AreKept(frame.id, if p.WholeFleet? then [] else known, known, frame.alerts, c.debounceMs, stamp, recorded.alerts)
  }

  lemma MergedRecords(c: Config, s: Store, p: Payload, frame: Device)
    ensures Records(c, s, p, frame, Merged(c, s, p, frame))
  {
    var known := if frame.id in s.raw then s.raw[frame.id].alerts else [];
    DebouncedAreKept(frame.id, if p.WholeFleet? then [] else known, known, frame.alerts, c.debounceMs, RecordedStamp(c, p, frame));
  }

  /** The frame enters: its id is allowed, and it is known, declared, or there is room. */
  predicate Enters(c: Config, fleet: map<DeviceId, Device>, id: DeviceId) {
    c.ingestable(id) && (id in fleet || id in c.declared || |fleet| < c.maxDevices)
  }

  /** A live frame older than the last one accepted. */
  predicate TooLate(c: Config, s: Store, p: Payload) {
    && p.Live? && p.frame.id in s.lastFrameStamp && RecordedStamp(c, p, p.frame) < s.lastFrameStamp[p.frame.id]
  }

  /** What a frame that is taken leaves: its own snapshot, heard now, and nothing else changed. */
  ghost predicate Took(c: Config, s: Store, p: Payload, now: int, next: Store)
    requires !p.WholeFleet?
  {
    var id, stamp := p.frame.id, RecordedStamp(c, p, p.frame);
    && id in next.raw && Records(c, s, p, p.frame, next.raw[id])
    && next.raw == s.raw[id := next.raw[id]] && next.devices == s.devices[id := c.decorate(next.raw[id])]
    && next.lastIngestAt == s.lastIngestAt[id := now]
    && next.lastFrameStamp == (if p.Live? then s.lastFrameStamp[id := stamp] else s.lastFrameStamp)
    && next.log == s.log + (if p.Live? then [LiveFrame(id, stamp, p.receivedAt)] else []) + [Heard(id, now)]
  }

  /** What a frame that is not taken leaves: everything as it was, and a note if it was late. */
  predicate Dropped(s: Store, next: Store, note: seq<Happening>) {
    && next.raw == s.raw && next.devices == s.devices && next.events == s.events
    && next.lastIngestAt == s.lastIngestAt && next.lastFrameStamp == s.lastFrameStamp && next.log == s.log + note
  }

  lemma FrameIsTaken(c: Config, s: Store, p: Payload, now: int)
    requires Decorates(c) && !p.WholeFleet? && Enters(c, s.raw, p.frame.id) && !TooLate(c, s, p)
    ensures Took(c, s, p, now, SwapIn(s, IngestFrame(c, s, StartBuilding(s, p), p, p.frame, now)))
  {
    MergedRecords(c, s, p, p.frame);
  }

  lemma FrameIsDropped(c: Config, s: Store, p: Payload, now: int)
    requires !p.WholeFleet? && !(Enters(c, s.raw, p.frame.id) && !TooLate(c, s, p))
    ensures Dropped(s, SwapIn(s, IngestFrame(c, s, StartBuilding(s, p), p, p.frame, now)),
                    if Enters(c, s.raw, p.frame.id) then [LateFrame(p.frame.id, RecordedStamp(c, p, p.frame), p.receivedAt)] else [])
  {}

  /**
   * A frame that enters and is not late leaves its own snapshot, heard now, and nothing else changed; any
   * other frame changes no map and emits nothing.
   */
  lemma FrameIsRecorded(c: Config, s: Store, p: Payload, order: seq<DeviceId>, now: int)
    requires Decorates(c) && !p.WholeFleet?
    ensures var next, id := ApplyPayload(c, s, p, order, now), p.frame.id;
            && next.sourceUpSince == s.sourceUpSince && next.lastSweepAt == s.lastSweepAt
            && if Enters(c, s.raw, id) && !TooLate(c, s, p) then Took(c, s, p, now, next)
               else Dropped(s, next, if Enters(c, s.raw, id) then [LateFrame(id, RecordedStamp(c, p, p.frame), p.receivedAt)] else [])
  {
    SingleFrame(c, s, p, order, now);
    if Enters(c, s.raw, p.frame.id) && !TooLate(c, s, p) { FrameIsTaken(c, s, p, now); } else { FrameIsDropped(c, s, p, now); }
  }

  /** A status frame that enters leaves the device as it says, stamped and heard now; any other changes nothing. */
  lemma StatusIsRecorded(c: Config, s: Store, id: DeviceId, online: bool, alerts: seq<Alert>, rest: string, now: int)
    requires Decorates(c)
    ensures var next := ApplyStatus(c, s, id, online, alerts, rest, now);
            var known := if id in s.raw then s.raw[id].alerts else [];
            if Enters(c, s.raw, id) then
              && id in next.raw && next.raw == s.raw[id := next.raw[id]]
              && next.raw[id] == Device(id, online, now, next.raw[id].alerts, rest)
              && |next.raw[id].alerts| == |alerts|
              && (forall i | 0 <= i < |alerts| :: IsKept(known, alerts[i], next.raw[id].alerts[i]))
              && next.devices == s.devices[id := c.decorate(next.raw[id])]
              && next.lastIngestAt == s.lastIngestAt[id := now] && next.lastFrameStamp == s.lastFrameStamp
              && next.log == s.log + [Heard(id, now)]
            else next == s
  {
    var known := if id in s.raw then s.raw[id].alerts else [];
    forall i | 0 <= i < |alerts| ensures IsKept(known, alerts[i], CarryAlertOnsets(known, alerts)[i]) {
      CarriedIsKept(known, alerts[i]);
    }
  }

  // A whole fleet.

  /** Which of these frames entered. */
  function Entered(frames: seq<Device>, fleet: map<DeviceId, Device>): set<DeviceId> {
    set frame <- frames | frame.id in fleet :: frame.id
  }

  /** The fleet holds exactly the vehicles of these frames that entered, each as its frame leaves it. */
  ghost predicate Filled(c: Config, s: Store, p: Payload, frames: seq<Device>, fleet: map<DeviceId, Device>) {
    && (forall id :: id in fleet ==> id in Entered(frames, fleet))
    && (forall i | 0 <= i < |frames| && frames[i].id in fleet :: Records(c, s, p, frames[i], fleet[frames[i].id]))
    && (forall i | 0 <= i < |frames| ::
          frames[i].id in fleet
          <==> c.ingestable(frames[i].id) && (frames[i].id in c.declared || |Entered(frames[..i], fleet)| < c.maxDevices))
  }

  lemma SameEntered(frames: seq<Device>, fleet: map<DeviceId, Device>, id: DeviceId, device: Device)
    requires forall frame <- frames :: frame.id != id
    ensures Entered(frames, fleet[id := device]) == Entered(frames, fleet)
  {}

  /** One more frame entered, as it was recorded, or was turned away. */
  ghost predicate Follows(
    c: Config, s: Store, p: Payload, frame: Device, before: map<DeviceId, Device>, after: map<DeviceId, Device>)
  {
    if Enters(c, before, frame.id)
    then frame.id in after && Records(c, s, p, frame, after[frame.id]) && after == before[frame.id := after[frame.id]]
    else after == before
  }

  /** The frames before this one entered as they did without it. */
  lemma EnteredBefore(
    c: Config, s: Store, p: Payload, init: seq<Device>, last: Device, before: map<DeviceId, Device>, after: map<DeviceId, Device>, i: nat)
    requires Follows(c, s, p, last, before, after) && (forall frame <- init :: frame.id != last.id) && i <= |init|
    ensures (init + [last])[..i] == init[..i] && Entered(init[..i], after) == Entered(init[..i], before)
  {
    assert forall frame <- init[..i] :: frame in init;
    if Enters(c, before, last.id) { SameEntered(init[..i], before, last.id, after[last.id]); }
  }

  lemma AllEntered(c: Config, s: Store, p: Payload, frames: seq<Device>, fleet: map<DeviceId, Device>)
    requires Filled(c, s, p, frames, fleet)
    ensures Entered(frames, fleet) == fleet.Keys && |Entered(frames, fleet)| == |fleet|
  {
    assert |fleet.Keys| == |fleet|;
  }

  lemma FilledOne(
    c: Config, s: Store, p: Payload, init: seq<Device>, last: Device, before: map<DeviceId, Device>, after: map<DeviceId, Device>, i: nat)
    requires Filled(c, s, p, init, before) && last.id !in before && (forall frame <- init :: frame.id != last.id)
    requires Follows(c, s, p, last, before, after) && i <= |init|
    ensures var frame := (init + [last])[i];
            && (frame.id in after ==> Records(c, s, p, frame, after[frame.id]))
            && (frame.id in after
                <==> c.ingestable(frame.id) && (frame.id in c.declared || |Entered((init + [last])[..i], after)| < c.maxDevices))
  {
    EnteredBefore(c, s, p, init, last, before, after, i);
    if i == |init| {
      assert init[..i] == init;
      AllEntered(c, s, p, init, before);
    } else {
      assert init[i] in init && (init + [last])[i] == init[i];
    }
  }

  lemma EnteredOnce(
    c: Config, s: Store, p: Payload, init: seq<Device>, last: Device, before: map<DeviceId, Device>, after: map<DeviceId, Device>)
    requires Filled(c, s, p, init, before) && Follows(c, s, p, last, before, after)
    ensures forall id :: id in after ==> id in Entered(init + [last], after)
  {
    AllEntered(c, s, p, init, before);
    forall id | id in after ensures id in Entered(init + [last], after) {
      assert last in init + [last] && forall frame <- init :: frame in init + [last];
      assert id in before ==> id in Entered(init, before);
    }
  }

  lemma FilledNext(
    c: Config, s: Store, p: Payload, init: seq<Device>, last: Device, before: map<DeviceId, Device>, after: map<DeviceId, Device>)
    requires Filled(c, s, p, init, before) && last.id !in before && (forall frame <- init :: frame.id != last.id)
    requires Follows(c, s, p, last, before, after)
    ensures Filled(c, s, p, init + [last], after)
  {
    EnteredOnce(c, s, p, init, last, before, after);
    forall i | 0 <= i < |init + [last]|
      ensures var frame := (init + [last])[i];
              && (frame.id in after ==> Records(c, s, p, frame, after[frame.id]))
              && (frame.id in after
                  <==> c.ingestable(frame.id) && (frame.id in c.declared || |Entered((init + [last])[..i], after)| < c.maxDevices))
    {
      FilledOne(c, s, p, init, last, before, after, i);
    }
  }

  lemma FrameFills(c: Config, s: Store, b: Building, p: Payload, frame: Device, now: int)
    requires p.WholeFleet?
    ensures var built := IngestFrame(c, s, b, p, frame, now);
            Follows(c, s, p, frame, b.raw, built.raw)
  {
    MergedRecords(c, s, p, frame);
  }

  lemma {:induction false} FramesAreRecorded(c: Config, s: Store, b: Building, p: Payload, frames: seq<Device>, now: int)
    requires p.WholeFleet? && NamesOnce(frames) && b.raw == map[]
    ensures Filled(c, s, p, frames, IngestFrames(c, s, b, p, frames, now).raw)
  {
    if frames != [] {
      var init, last := frames[..|frames| - 1], frames[|frames| - 1];
      FramesAreRecorded(c, s, b, p, init, now);
      var before := IngestFrames(c, s, b, p, init, now);
      FrameFills(c, s, before, p, last, now);
      assert last.id !in before.raw;
      FilledNext(c, s, p, init, last, before.raw, IngestFrames(c, s, b, p, frames, now).raw);
      assert frames == init + [last];
    }
  }

  /**
   * A whole-fleet replace holds exactly the vehicles of its frames that enter, in frame order while there is
   * room, each as its own frame leaves it.
   */
  lemma FleetIsReplaced(c: Config, s: Store, frames: seq<Device>, order: seq<DeviceId>, now: int)
    requires Decorates(c) && Consistent(c, s) && NamesOnce(frames) && Walks(order, s.raw.Keys)
    ensures var next := ApplyPayload(c, s, WholeFleet(frames), order, now);
            && (forall id | id in next.raw :: exists i :: 0 <= i < |frames| && frames[i].id == id)
            && (forall i | 0 <= i < |frames| ::
                  frames[i].id in next.raw
                  <==> c.ingestable(frames[i].id)
                       && (frames[i].id in c.declared || |Entered(frames[..i], next.raw)| < c.maxDevices))
            && (forall i | 0 <= i < |frames| && frames[i].id in next.raw ::
                  Records(c, s, WholeFleet(frames), frames[i], next.raw[frames[i].id]))
            && Consistent(c, next)
  {
    var p := WholeFleet(frames);
    var built := IngestFrames(c, s, StartBuilding(s, p), p, frames, now);
    FramesAreRecorded(c, s, StartBuilding(s, p), p, frames, now);
    ForgetDepartedKeys(s, built, order);
    PayloadKeepsConsistent(c, s, p, order, now);
    forall id | id in built.raw ensures exists i :: 0 <= i < |frames| && frames[i].id == id {
      assert id in Entered(frames, built.raw);
    }
  }

  // ---------------------------------------------------------------------------
  // Verdicts
  // ---------------------------------------------------------------------------

  /**
   * The alerts after a verdict: what was there but the offline alert, in order and each kept, and after them
   * the offline alert if the rule raises it.
   */
  ghost predicate AreMarked(id: DeviceId, previous: seq<Alert>, raised: bool, now: int, marked: seq<Alert>) {
    var others := if raised then |marked| - 1 else |marked|;
    && others >= 0
    && (raised ==> IsKept(previous, Alert(id + "-offline", now, None, ""), marked[others]))
    && (forall i | 0 <= i < others :: exists k :: 0 <= k < |previous| && IsKept(previous, previous[k], marked[i]))
    && (forall i | 0 <= i < others :: marked[i].id != id + "-offline")
    && (forall k | 0 <= k < |previous| && previous[k].id != id + "-offline" ::
          exists i :: 0 <= i < others && IsKept(previous, previous[k], marked[i]))
  }

  lemma {:induction false} WithoutKeepsTheOthers(alerts: seq<Alert>, id: string)
    ensures forall alert :: alert in WithoutAlert(alerts, id) <==> alert in alerts && alert.id != id
  {
    if alerts != [] {
      WithoutKeepsTheOthers(alerts[..|alerts| - 1], id);
      assert alerts == alerts[..|alerts| - 1] + [alerts[|alerts| - 1]];
    }
  }

  lemma MarkedAreMarked(c: Config, device: Device, rule: OfflineRule, now: int)
    ensures AreMarked(device.id, device.alerts, rule.raises(c.decorate(device)), now, MarkedOffline(c, device, rule, now).alerts)
  {
    var offline, raised := device.id + "-offline", rule.raises(c.decorate(device));
    var left := WithoutAlert(device.alerts, offline);
    var next := left + if raised then [OfflineAlert(device.id, now)] else [];
    var marked := MarkedOffline(c, device, rule, now).alerts;
    WithoutKeepsTheOthers(device.alerts, offline);
    assert marked == CarryAlertOnsets(device.alerts, next);
    forall i | 0 <= i < |next| ensures IsKept(device.alerts, next[i], marked[i]) {
      CarriedIsKept(device.alerts, next[i]);
    }
    forall i | 0 <= i < |left|
      ensures marked[i].id != offline
      ensures exists k :: 0 <= k < |device.alerts| && IsKept(device.alerts, device.alerts[k], marked[i])
    {
      assert next[i] == left[i] && left[i] in left;
      var k :| 0 <= k < |device.alerts| && device.alerts[k] == left[i];
    }
    forall k | 0 <= k < |device.alerts| && device.alerts[k].id != offline
      ensures exists i :: 0 <= i < |left| && IsKept(device.alerts, device.alerts[k], marked[i])
    {
      assert device.alerts[k] in left;
      var i :| 0 <= i < |left| && left[i] == device.alerts[k];
      assert next[i] == left[i];
    }
  }

  /** The device is silent: online, and not heard for longer than the threshold. */
  predicate Silent(s: Store, id: DeviceId, thresholdMs: int, now: int)
    requires id in s.raw && id in s.lastIngestAt
  {
    s.raw[id].online && now - s.lastIngestAt[id] > thresholdMs
  }

  /** The snapshot a verdict leaves: offline, its alerts marked, everything else as it was. */
  ghost predicate IsMarked(c: Config, rule: OfflineRule, before: Device, after: Device, now: int) {
    && after == before.(online := false, alerts := after.alerts)
    && AreMarked(before.id, before.alerts, rule.raises(c.decorate(before)), now, after.alerts)
  }

  lemma JudgingMarksTheSilent(c: Config, s: Store, rule: OfflineRule, order: seq<DeviceId>, now: int, id: DeviceId)
    requires Consistent(c, s) && Walks(order, s.raw.Keys) && id in s.raw
    ensures var judged := Judged(c, NoteSweep(s, rule.thresholdMs, now), rule, order, now);
            && id in judged.raw
            && judged.raw[id] == if Settled(s, rule.thresholdMs, now) && Silent(s, id, rule.thresholdMs, now)
                                 then MarkedOffline(c, s.raw[id], rule, now) else s.raw[id]
  {
    JudgedEach(c, NoteSweep(s, rule.thresholdMs, now), order, rule, now);
  }

  lemma EvictionLeaves(c: Config, s: Store, order: seq<DeviceId>, now: int, id: DeviceId)
    requires Consistent(c, s) && Walks(order, s.raw.Keys) && id in EvictSilent(c, s, order, now).raw
    ensures id in s.raw && EvictSilent(c, s, order, now).raw[id] == s.raw[id]
  {
    EvictsExactlyTheSilentUndeclared(c, s, order, now);
  }

  /**
   * A sweep on a settled source marks exactly the silent devices, and changes no other snapshot it does not
   * evict; on an unsettled one it changes none.
   */
  lemma SweepMarksTheSilent(c: Config, s: Store, rule: OfflineRule, order: seq<DeviceId>, now: int, id: DeviceId)
    requires Decorates(c) && Consistent(c, s) && Walks(order, s.raw.Keys)
    requires id in Sweep(c, s, rule, order, now).raw
    ensures id in s.raw && id in s.lastIngestAt
    ensures var after := Sweep(c, s, rule, order, now).raw[id];
            if Settled(s, rule.thresholdMs, now) && Silent(s, id, rule.thresholdMs, now)
            then IsMarked(c, rule, s.raw[id], after, now) else after == s.raw[id]
  {
    var noted := NoteSweep(s, rule.thresholdMs, now);
    var judged := Judged(c, noted, rule, order, now);
    JudgedKeepsFleet(c, noted, rule, order, now);
    EvictionLeaves(c, judged, order, now, id);
    assert id in judged.raw.Keys;
    JudgingMarksTheSilent(c, s, rule, order, now, id);
    MarkedAreMarked(c, s.raw[id], rule, now);
  }

  /** The log has gained a verdict on each of these devices that is silent, and nothing else. */
  ghost predicate LogsTheSilent(s: Store, log: seq<Happening>, order: seq<DeviceId>, thresholdMs: int, now: int)
    requires forall id | id in s.raw :: id in s.lastIngestAt
  {
    && s.log <= log
    && forall event :: event in log[|s.log|..]
         <==> exists id :: id in order && id in s.raw && Silent(s, id, thresholdMs, now)
                           && event == JudgedOffline(id, now, thresholdMs)
  }

  lemma NextIsLogged(s: Store, log: seq<Happening>, init: seq<DeviceId>, last: DeviceId, thresholdMs: int, now: int)
    requires forall id | id in s.raw :: id in s.lastIngestAt
    requires LogsTheSilent(s, log, init, thresholdMs, now)
    ensures var verdict := JudgedOffline(last, now, thresholdMs);
            LogsTheSilent(s, if last in s.raw && Silent(s, last, thresholdMs, now) then log + [verdict] else log,
                          init + [last], thresholdMs, now)
  {
    var verdict := JudgedOffline(last, now, thresholdMs);
    assert forall id :: id in init + [last] <==> id in init || id == last;
    if last in s.raw && Silent(s, last, thresholdMs, now) {
      assert (log + [verdict])[|s.log|..] == log[|s.log|..] + [verdict];
    }
  }

  lemma JudgingLogsOne(c: Config, s: Store, id: DeviceId, rule: OfflineRule, now: int)
    requires id in s.raw ==> s.raw[id].id == id && id in s.lastIngestAt
    ensures JudgeDevice(c, s, id, rule, now).log
         == s.log + if id in s.raw && Silent(s, id, rule.thresholdMs, now) then [JudgedOffline(id, now, rule.thresholdMs)] else []
  {}

  lemma {:induction false} JudgingLogs(c: Config, s: Store, order: seq<DeviceId>, rule: OfflineRule, now: int)
    requires Distinct(order) && (forall id | id in s.raw :: s.raw[id].id == id && id in s.lastIngestAt)
    ensures LogsTheSilent(s, JudgeDevices(c, s, order, rule, now).log, order, rule.thresholdMs, now)
  {
    if order != [] {
      var init, last := order[..|order| - 1], order[|order| - 1];
      var before := JudgeDevices(c, s, init, rule, now);
      JudgingLogs(c, s, init, rule, now);
      JudgedEach(c, s, init, rule, now);
      assert order == init + [last] && last !in init;
      JudgingLogsOne(c, before, last, rule, now);
      NextIsLogged(s, before.log, init, last, rule.thresholdMs, now);
    }
  }

  lemma NotedIsSettled(s: Store, thresholdMs: int, now: int)
    ensures var noted := NoteSweep(s, thresholdMs, now);
            && noted.raw == s.raw && noted.lastIngestAt == s.lastIngestAt
            && (SourceSettled(noted, thresholdMs, now) <==> Settled(s, thresholdMs, now))
  {}

  lemma JudgingLogsSettled(c: Config, noted: Store, order: seq<DeviceId>, rule: OfflineRule, now: int)
    requires Walks(order, noted.raw.Keys) && (forall id | id in noted.raw :: noted.raw[id].id == id && id in noted.lastIngestAt)
    ensures var log := Judged(c, noted, rule, order, now).log;
            && noted.log <= log
            && forall event :: event in log[|noted.log|..]
                 <==> exists id :: id in noted.raw && SourceSettled(noted, rule.thresholdMs, now)
                                   && Silent(noted, id, rule.thresholdMs, now)
                                   && event == JudgedOffline(id, now, rule.thresholdMs)
  {
    if SourceSettled(noted, rule.thresholdMs, now) { JudgingLogs(c, noted, order, rule, now); }
  }

  /** What a sweep adds to the log in judging: a verdict on each silent device of a settled source, and on no other. */
  lemma SweepLogsItsVerdicts(c: Config, s: Store, rule: OfflineRule, order: seq<DeviceId>, now: int)
    requires Decorates(c) && Consistent(c, s) && Walks(order, s.raw.Keys)
    ensures var noted := NoteSweep(s, rule.thresholdMs, now);
            var judged := Judged(c, noted, rule, order, now);
            && noted.log <= judged.log
            && forall event :: event in judged.log[|noted.log|..]
                 <==> exists id :: id in s.raw && id in s.lastIngestAt && Settled(s, rule.thresholdMs, now)
                                   && Silent(s, id, rule.thresholdMs, now)
                                   && event == JudgedOffline(id, now, rule.thresholdMs)
  {
    var noted := NoteSweep(s, rule.thresholdMs, now);
    JudgingLogsSettled(c, noted, order, rule, now);
    NotedIsSettled(s, rule.thresholdMs, now);
  }

  lemma {:induction false} NotedIsSeenNow(c: Config, s: Store, order: seq<DeviceId>, now: int)
    ensures var next := NoteUnseen(c, s, order, now);
            && next.raw == s.raw
            && (forall id | id in s.lastIngestAt :: id in next.lastIngestAt && next.lastIngestAt[id] == s.lastIngestAt[id])
            && (forall id | id in order && id in s.raw && id !in c.declared && id !in s.lastIngestAt ::
                  id in next.lastIngestAt && next.lastIngestAt[id] == now)
  {
    if order != [] {
      NotedIsSeenNow(c, s, order[..|order| - 1], now);
      assert order == order[..|order| - 1] + [order[|order| - 1]];
    }
  }

  /** A device nobody recorded hearing is taken as heard now, and not evicted. */
  lemma UnseenIsSeenNow(c: Config, s: Store, order: seq<DeviceId>, now: int, id: DeviceId)
    requires c.retentionMs > 0 && id in order && id in s.raw && id !in c.declared && id !in s.lastIngestAt
    ensures var next := EvictSilent(c, s, order, now);
            id in next.raw && next.raw[id] == s.raw[id] && id in next.lastIngestAt && next.lastIngestAt[id] == now
  {
    NotedIsSeenNow(c, s, order, now);
    EvictableFacts(c, s, order, now);
    EvictingRemoves(NoteUnseen(c, s, order, now), EvictableAmong(c, s, order, now));
  }

  // ---------------------------------------------------------------------------
  // The source, and a restart
  // ---------------------------------------------------------------------------

  /** A connection lasts from when it was made, a loss ends it; nothing else changes. */
  lemma SourceChangeIsNoted(s: Store, connected: bool, now: int)
    ensures var next := SetSourceConnected(s, connected, now);
            && (next.sourceUpSince.Some? <==> connected)
            && (connected ==> next.sourceUpSince.value == if s.sourceUpSince.Some? then s.sourceUpSince.value else now)
            && next.log == s.log + [if connected then SourceUp(now) else SourceDown(now)]
            && next == s.(sourceUpSince := next.sourceUpSince, log := next.log)
  {}

  /** The last word on the source. */
  function LastChange(steps: seq<TimedStep>): Option<bool> {
    if steps == [] then None
    else if steps[|steps| - 1].step.SourceChanged? then Some(steps[|steps| - 1].step.connected)
    else LastChange(steps[..|steps| - 1])
  }

  lemma {:induction false} EvictionKeepsSource(s: Store, ids: seq<DeviceId>)
    ensures EvictDevices(s, ids).sourceUpSince == s.sourceUpSince && EvictDevices(s, ids).lastSweepAt == s.lastSweepAt
  {
    if ids != [] { EvictionKeepsSource(s, ids[..|ids| - 1]); }
  }

  lemma {:induction false} NotingKeepsSource(c: Config, s: Store, order: seq<DeviceId>, now: int)
    ensures NoteUnseen(c, s, order, now).sourceUpSince == s.sourceUpSince && NoteUnseen(c, s, order, now).lastSweepAt == s.lastSweepAt
  {
    if order != [] { NotingKeepsSource(c, s, order[..|order| - 1], now); }
  }

  lemma {:induction false} JudgingKeepsSource(c: Config, s: Store, order: seq<DeviceId>, rule: OfflineRule, now: int)
    ensures var next := JudgeDevices(c, s, order, rule, now);
            next.sourceUpSince == s.sourceUpSince && next.lastSweepAt == s.lastSweepAt
  {
    if order != [] { JudgingKeepsSource(c, s, order[..|order| - 1], rule, now); }
  }

  /** This process did not run for longer than the threshold, while the source was connected. */
  predicate IsGap(s: Store, thresholdMs: int, now: int) {
    s.lastSweepAt.Some? && now - s.lastSweepAt.value > thresholdMs && s.sourceUpSince.Some?
  }

  /**
   * A sweep notes when it ran. After a gap it takes the source to be up from now on and says so; it changes
   * nothing else about the source.
   */
  lemma SweepNotesWhenItRan(c: Config, s: Store, rule: OfflineRule, order: seq<DeviceId>, now: int)
    ensures var next, gap := Sweep(c, s, rule, order, now), IsGap(s, rule.thresholdMs, now);
            && next.lastSweepAt == Some(now)
            && next.sourceUpSince
               == (if gap && s.sourceUpSince.value < now then Some(now) else s.sourceUpSince)
            && NoteSweep(s, rule.thresholdMs, now).log == s.log + if gap then [SweepGap(now)] else []
  {
    var noted := NoteSweep(s, rule.thresholdMs, now);
    var judged := Judged(c, noted, rule, order, now);
    JudgingKeepsSource(c, noted, order, rule, now);
    NotingKeepsSource(c, judged, order, now);
    EvictionKeepsSource(NoteUnseen(c, judged, order, now), EvictableAmong(c, judged, order, now));
  }

  /** When the last sweep of a run was made. */
  function LastSwept(steps: seq<TimedStep>): Option<int> {
    if steps == [] then None
    else if steps[|steps| - 1].step.Swept? then Some(steps[|steps| - 1].now)
    else LastSwept(steps[..|steps| - 1])
  }

  lemma {:induction false} LastSweepIsKnown(c: Config, s: Store, steps: seq<TimedStep>)
    ensures Run(c, s, steps).lastSweepAt
         == var last := LastSwept(steps); if last.Some? then last else s.lastSweepAt
  {
    if steps != [] {
      var front, timed := steps[..|steps| - 1], steps[|steps| - 1];
      LastSweepIsKnown(c, s, front);
      if timed.step.Swept? { SweepNotesWhenItRan(c, Run(c, s, front), timed.step.rule, timed.step.order, timed.now); }
    }
  }

  /** Over any run the source is up if and only if the last change was a connection, or none was made and it was up. */
  lemma {:induction false} SourceIsAsLastChanged(c: Config, s: Store, steps: seq<TimedStep>)
    ensures Run(c, s, steps).sourceUpSince.Some?
       <==> var last := LastChange(steps); if last.Some? then last.value else s.sourceUpSince.Some?
  {
    if steps != [] {
      var front, timed := steps[..|steps| - 1], steps[|steps| - 1];
      SourceIsAsLastChanged(c, s, front);
      if timed.step.Swept? { SweepNotesWhenItRan(c, Run(c, s, front), timed.step.rule, timed.step.order, timed.now); }
    }
  }

  /** The last of these snapshots of a device. */
  predicate IsLastSnapshot(restored: seq<Device>, id: DeviceId, i: int) {
    0 <= i < |restored| && restored[i].id == id && forall j | i < j < |restored| :: restored[j].id != id
  }

  /** The store holds the declared devices that were stored, each as it was last stored. */
  ghost predicate HoldsStored(c: Config, restored: seq<Device>, s: Store, now: int) {
    && (forall id :: id in s.raw <==> id in c.declared && exists i :: IsLastSnapshot(restored, id, i))
    && (forall id, i | id in c.declared && IsLastSnapshot(restored, id, i) ::
          && s.raw[id] == restored[i] && id in s.lastIngestAt
          && s.lastIngestAt[id] == (if restored[i].stamp == 0 || restored[i].stamp > now then now else restored[i].stamp))
  }

  lemma NextSnapshot(init: seq<Device>, last: Device, id: DeviceId, i: int)
    ensures IsLastSnapshot(init + [last], id, i) <==> if last.id == id then i == |init| else IsLastSnapshot(init, id, i)
  {
    assert (init + [last])[|init|] == last;
    assert forall j | 0 <= j < |init| :: (init + [last])[j] == init[j];
  }

  lemma NextIsRestored(c: Config, init: seq<Device>, last: Device, s: Store, now: int)
    requires HoldsStored(c, init, s, now)
    ensures HoldsStored(c, init + [last], RestoreDevice(c, s, last, now), now)
  {
    forall id, i
      ensures IsLastSnapshot(init + [last], id, i) <==> if last.id == id then i == |init| else IsLastSnapshot(init, id, i)
    {
      NextSnapshot(init, last, id, i);
    }
    assert IsLastSnapshot(init + [last], last.id, |init|);
  }

  lemma {:induction false} RestoredAreDeclared(c: Config, restored: seq<Device>, now: int)
    ensures HoldsStored(c, restored, RestoreDevices(c, EMPTY, restored, now), now)
    ensures RestoreDevices(c, EMPTY, restored, now).sourceUpSince == Some(0)
  {
    if restored != [] {
      var init, last := restored[..|restored| - 1], restored[|restored| - 1];
      RestoredAreDeclared(c, init, now);
      NextIsRestored(c, init, last, RestoreDevices(c, EMPTY, init, now), now);
      assert restored == init + [last];
    }
  }

  /**
   * A start restores exactly the declared devices that were stored, each as it was last stored, heard when it
   * was stamped but not in the future, and takes the source to be up from then on.
   */
  lemma StartRestoresDeclared(c: Config, restored: seq<Device>, now: int)
    requires Decorates(c) && now >= 0
    ensures var s := Initialize(c, restored, now);
            && Consistent(c, s)
            && (forall id :: id in s.raw <==> id in c.declared && exists i :: IsLastSnapshot(restored, id, i))
            && (forall id, i | id in c.declared && IsLastSnapshot(restored, id, i) ::
                  && s.raw[id] == restored[i]
                  && s.lastIngestAt[id] == (if restored[i].stamp == 0 || restored[i].stamp > now then now else restored[i].stamp))
            && s.sourceUpSince == Some(if restored == [] then 0 else now)
  {
    RestoredAreDeclared(c, restored, now);
    RestoringIsConsistent(c, restored, now);
  }
}
