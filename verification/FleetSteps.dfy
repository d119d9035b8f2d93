/**
 * The in-memory fleet (`backend/src/store.ts`): what each queued mutation does to the device maps,
 * which events it emits, and what it judges.
 *
 * Times are integer milliseconds. A mutation runs to its end before the next one starts (the queue
 * serializes them), so each is one step taking one reading of the clock. The order in which a step
 * walks the fleet is an argument: it is the insertion order of a JavaScript `Map`.
 */
module FleetSteps {
  import opened Wrappers

  type DeviceId = string

  datatype Alert = Alert(id: string, ts: int, firstSeenAt: Option<int>, detail: string)

  /** A device snapshot; `rest` stands for the fields no rule here depends on. */
  datatype Device = Device(id: DeviceId, online: bool, stamp: int, alerts: seq<Alert>, rest: string)

  /** The roster and settings, fixed over a run, and the parts this model leaves open. */
  datatype Config = Config(
    declared: set<DeviceId>,
    maxDevices: nat,
    retentionMs: int,
    toleranceMs: nat,
    debounceMs: int,
    ingestable: DeviceId -> bool,
    decorate: Device -> Device,
    mergeRest: (string, string) -> string)

  /** Config only decorates a snapshot: identity, liveness, time and alerts are the vehicle's own. */
  ghost predicate Decorates(c: Config) {
    forall d ::
      && c.decorate(d).id == d.id && c.decorate(d).online == d.online
      && c.decorate(d).stamp == d.stamp && c.decorate(d).alerts == d.alerts
  }

  function Get<V>(m: map<string, V>, key: string): Option<V> {
    if key in m then Some(m[key]) else None
  }

  // ---------------------------------------------------------------------------
  // Frames
  // ---------------------------------------------------------------------------

  function Abs(x: int): nat { if x < 0 then -x else x }

  /** The time a live frame is recorded under: its own stamp, or its arrival when that is too far off. */
  function TrustedStamp(stamp: int, receivedAt: int, toleranceMs: nat): int {
    if Abs(stamp - receivedAt) <= toleranceMs then stamp else receivedAt
  }

  function OnsetOf(alert: Alert): int {
    if alert.firstSeenAt.Some? then alert.firstSeenAt.value else alert.ts
  }

  /** The onset recorded for an alert id; a later entry of the same id wins, as in a `Map`. */
  function RecordedOnset(previous: seq<Alert>, id: string): Option<int> {
    if previous == [] then None
    else if previous[|previous| - 1].id == id then Some(OnsetOf(previous[|previous| - 1]))
    else RecordedOnset(previous[..|previous| - 1], id)
  }

  function CarryOnset(previous: seq<Alert>, alert: Alert): Alert {
    alert.(firstSeenAt :=
      Some(if RecordedOnset(previous, alert.id).Some? then RecordedOnset(previous, alert.id).value else OnsetOf(alert)))
  }

  /** Give each alert its onset: kept while the same alert stays present, its own when it is new. */
  function CarryAlertOnsets(previous: seq<Alert>, next: seq<Alert>): (carried: seq<Alert>)
    ensures |carried| == |next|
    ensures forall i | 0 <= i < |next| :: carried[i] == CarryOnset(previous, next[i])
  {
    seq(|next|, i requires 0 <= i < |next| => CarryOnset(previous, next[i]))
  }

  function FindAlert(alerts: seq<Alert>, id: string): Option<Alert> {
    if alerts == [] then None
    else if alerts[0].id == id then Some(alerts[0])
    else FindAlert(alerts[1..], id)
  }

  function LowBatteryAlertId(id: DeviceId): string { id + "-low-soc" }

  function OfflineAlertId(id: DeviceId): string { id + "-offline" }

  /** Linger a low-battery alert across a frame that would clear it, within the debounce window. */
  function ApplyRuleDebounce(id: DeviceId, previous: seq<Alert>, current: seq<Alert>, debounceMs: int, now: int)
    : seq<Alert>
  {
    var last := FindAlert(previous, LowBatteryAlertId(id));
    if debounceMs <= 0 || FindAlert(current, LowBatteryAlertId(id)).Some? || last.None? then current
    else if now - last.value.ts < debounceMs then current + [last.value]
    else current
  }

  function AlertsOf(device: Option<Device>): seq<Alert> {
    if device.Some? then device.value.alerts else []
  }

  function MergeDevice(c: Config, existing: Option<Device>, incoming: Device): Device {
    if existing.None? then incoming else incoming.(rest := c.mergeRest(existing.value.rest, incoming.rest))
  }

  // ---------------------------------------------------------------------------
  // Events
  // ---------------------------------------------------------------------------

  datatype Event =
    | Delta(device: Device)
    | WentOnline(id: DeviceId)
    | WentOffline(id: DeviceId)
    | AlertCreated(id: DeviceId, alertId: string)
    | AlertCleared(id: DeviceId, alertId: string)
    | Snapshot(devices: map<DeviceId, Device>)

  predicate Raises(alerts: seq<Alert>, id: string) {
    exists i | 0 <= i < |alerts| :: alerts[i].id == id
  }

  function CreatedEvents(previous: seq<Alert>, current: seq<Alert>, id: DeviceId): seq<Event> {
    if current == [] then []
    else
      var last := current[|current| - 1];
      var rest := CreatedEvents(previous, current[..|current| - 1], id);
      if Raises(previous, last.id) then rest else rest + [AlertCreated(id, last.id)]
  }

  function ClearedEvents(previous: seq<Alert>, current: seq<Alert>, id: DeviceId): seq<Event> {
    if previous == [] then []
    else
      var last := previous[|previous| - 1];
      var rest := ClearedEvents(previous[..|previous| - 1], current, id);
      if Raises(current, last.id) then rest else rest + [AlertCleared(id, last.id)]
  }

  function LivenessEvents(previous: Option<Device>, current: Device): seq<Event> {
    if previous.None? || previous.value.online != current.online
    then [if current.online then WentOnline(current.id) else WentOffline(current.id)]
    else []
  }

  /** What changed between two snapshots of one device. */
  function ChangeEvents(previous: Option<Device>, current: Device): seq<Event> {
    [Delta(current)]
    + LivenessEvents(previous, current)
    + CreatedEvents(AlertsOf(previous), current.alerts, current.id)
    + ClearedEvents(AlertsOf(previous), current.alerts, current.id)
  }

  // ---------------------------------------------------------------------------
  // State
  // ---------------------------------------------------------------------------

  /** What happened, for judging the store's verdicts by; the store itself keeps no such log. */
  datatype Happening =
    | Heard(id: DeviceId, at: int)
    | LiveFrame(id: DeviceId, stamp: int, arrival: int)
    | LateFrame(id: DeviceId, stamp: int, arrival: int)
    | Forgot(id: DeviceId)
    | SourceUp(at: int)
    | SourceDown(at: int)
    | SweepGap(at: int)
    | JudgedOffline(id: DeviceId, at: int, thresholdMs: int)

  datatype Store = Store(
    raw: map<DeviceId, Device>,
    devices: map<DeviceId, Device>,
    lastIngestAt: map<DeviceId, int>,
    lastFrameStamp: map<DeviceId, int>,
    sourceUpSince: Option<int>,
    lastSweepAt: Option<int>,
    events: seq<Event>,
    log: seq<Happening>)

  const EMPTY := Store(map[], map[], map[], map[], Some(0), None, [], [])

  // ---------------------------------------------------------------------------
  // Ingest
  // ---------------------------------------------------------------------------

  /** Whether a frame may enter, or keep updating, the fleet being built. */
  predicate Admits(c: Config, observed: map<DeviceId, Device>, id: DeviceId) {
    c.ingestable(id) && (id in observed || id in c.declared || |observed| < c.maxDevices)
  }

  /**
   * A payload: one live frame whose clock is checked, one replayed frame that is taken as it is, or
   * a whole fleet. Only the broker's frames are live, and only the seed and the debug endpoint may
   * replace the fleet.
   */
  datatype Payload =
    | Live(frame: Device, receivedAt: int)
    | Replayed(frame: Device)
    | WholeFleet(frames: seq<Device>)

  function Frames(p: Payload): seq<Device> {
    if p.WholeFleet? then p.frames else [p.frame]
  }

  /** The maps a payload builds before it swaps them in. */
  datatype Building = Building(
    raw: map<DeviceId, Device>,
    devices: map<DeviceId, Device>,
    lastIngestAt: map<DeviceId, int>,
    lastFrameStamp: map<DeviceId, int>,
    events: seq<Event>,
    log: seq<Happening>)

  function StartBuilding(s: Store, p: Payload): Building {
    if p.WholeFleet? then Building(map[], map[], s.lastIngestAt, s.lastFrameStamp, s.events, s.log)
    else Building(s.raw, s.devices, s.lastIngestAt, s.lastFrameStamp, s.events, s.log)
  }

  /** A live frame's stamp as it is recorded; any other frame's is taken as given. */
  function StampOf(c: Config, p: Payload, frame: Device): int {
    if p.Live? then TrustedStamp(frame.stamp, p.receivedAt, c.toleranceMs) else frame.stamp
  }

  /** A live frame older than the last one accepted for its device. */
  predicate IsLate(c: Config, b: Building, p: Payload, frame: Device) {
    p.Live? && frame.id in b.lastFrameStamp && StampOf(c, p, frame) < b.lastFrameStamp[frame.id]
  }

  /** The raw snapshot a frame leaves, merged with what was there. */
  function Merged(c: Config, s: Store, p: Payload, frame: Device): Device {
    var existing := Get(s.raw, frame.id);
    var incoming := frame.(
      stamp := StampOf(c, p, frame),
      alerts := CarryAlertOnsets(if p.WholeFleet? then [] else AlertsOf(existing), frame.alerts));
    var merged := MergeDevice(c, existing, incoming);
    merged.(alerts := ApplyRuleDebounce(merged.id, AlertsOf(existing), merged.alerts, c.debounceMs, merged.stamp))
  }

  function IngestFrame(c: Config, s: Store, b: Building, p: Payload, frame: Device, now: int): Building {
    if !Admits(c, b.raw, frame.id) then b
    else if IsLate(c, b, p, frame) then
      b.(log := b.log + [LateFrame(frame.id, StampOf(c, p, frame), p.receivedAt)])
    else
      var merged := Merged(c, s, p, frame);
      var configured := c.decorate(merged);
      Building(
        b.raw[frame.id := merged],
        b.devices[configured.id := configured],
        b.lastIngestAt[frame.id := now],
        if p.Live? then b.lastFrameStamp[frame.id := StampOf(c, p, frame)] else b.lastFrameStamp,
        b.events + ChangeEvents(Get(s.devices, frame.id), configured),
        b.log + (if p.Live? then [LiveFrame(frame.id, StampOf(c, p, frame), p.receivedAt)] else [])
              + [Heard(frame.id, now)])
  }

  function IngestFrames(c: Config, s: Store, b: Building, p: Payload, frames: seq<Device>, now: int): Building {
    if frames == [] then b
    else
      IngestFrame(c, s, IngestFrames(c, s, b, p, frames[..|frames| - 1], now), p, frames[|frames| - 1], now)
  }

  /** Announce that a departing device's alerts are over. */
  function ClosingEvents(device: Option<Device>): seq<Event> {
    if device.None? then [] else ClearedEvents(device.value.alerts, [], device.value.id)
  }

  function ForgetDeparted(s: Store, b: Building, order: seq<DeviceId>): Building {
    if order == [] then b
    else
      var rest := ForgetDeparted(s, b, order[..|order| - 1]);
      var id := order[|order| - 1];
      if id in b.raw then rest
      else
        rest.(events := rest.events + ClosingEvents(Get(s.raw, id)),
              lastIngestAt := rest.lastIngestAt - {id},
              lastFrameStamp := rest.lastFrameStamp - {id},
              log := rest.log + [Forgot(id)])
  }

  function SwapIn(s: Store, b: Building): Store {
    s.(raw := b.raw, devices := b.devices, lastIngestAt := b.lastIngestAt, lastFrameStamp := b.lastFrameStamp,
       events := b.events, log := b.log)
  }

  function ApplyPayload(c: Config, s: Store, p: Payload, order: seq<DeviceId>, now: int): Store {
    var built := IngestFrames(c, s, StartBuilding(s, p), p, Frames(p), now);
    if p.WholeFleet? then
      var next := SwapIn(s, ForgetDeparted(s, built, order));
      next.(events := next.events + [Snapshot(next.devices)])
    else SwapIn(s, built)
  }

  /** A status frame: the device as normalised from it, its own alerts kept, stamped with server time. */
  function ApplyStatus(c: Config, s: Store, id: DeviceId, online: bool, alerts: seq<Alert>, rest: string, now: int): Store {
    if !Admits(c, s.raw, id) then s
    else
      var device := Device(id, online, now, CarryAlertOnsets(AlertsOf(Get(s.raw, id)), alerts), rest);
      var configured := c.decorate(device);
      s.(raw := s.raw[id := device],
         devices := s.devices[id := configured],
         lastIngestAt := s.lastIngestAt[id := now],
         events := s.events + ChangeEvents(Get(s.devices, id), configured),
         log := s.log + [Heard(id, now)])
  }

  // ---------------------------------------------------------------------------
  // The offline sweep
  // ---------------------------------------------------------------------------

  /** The offline rule in effect; `raises` is its switch and scope, on the configured snapshot. */
  datatype OfflineRule = OfflineRule(thresholdMs: int, raises: Device -> bool)

  function SetSourceConnected(s: Store, connected: bool, now: int): Store {
    if connected then
      s.(sourceUpSince := if s.sourceUpSince.Some? then s.sourceUpSince else Some(now), log := s.log + [SourceUp(now)])
    else s.(sourceUpSince := None, log := s.log + [SourceDown(now)])
  }

  /** Notice that this process did not run since the last sweep, and note when this one ran. */
  function NoteSweep(s: Store, thresholdMs: int, now: int): Store {
    var gap := s.lastSweepAt.Some? && now - s.lastSweepAt.value > thresholdMs && s.sourceUpSince.Some?;
    s.(sourceUpSince := if gap then Some(Max(s.sourceUpSince.value, now)) else s.sourceUpSince,
       lastSweepAt := Some(now),
       log := if gap then s.log + [SweepGap(now)] else s.log)
  }

  predicate SourceSettled(s: Store, thresholdMs: int, now: int) {
    s.sourceUpSince.Some? && now - s.sourceUpSince.value >= thresholdMs
  }

  function LastHeard(s: Store, device: Device): int {
    if device.id in s.lastIngestAt then s.lastIngestAt[device.id] else device.stamp
  }

  function WithoutAlert(alerts: seq<Alert>, id: string): seq<Alert> {
    if alerts == [] then []
    else
      var rest := WithoutAlert(alerts[..|alerts| - 1], id);
      if alerts[|alerts| - 1].id == id then rest else rest + [alerts[|alerts| - 1]]
  }

  function OfflineAlert(id: DeviceId, now: int): Alert {
    Alert(OfflineAlertId(id), now, None, "")
  }

  function MarkedOffline(c: Config, device: Device, rule: OfflineRule, now: int): Device {
    device.(online := false,
            alerts := CarryAlertOnsets(
              device.alerts,
              WithoutAlert(device.alerts, OfflineAlertId(device.id))
              + (if rule.raises(c.decorate(device)) then [OfflineAlert(device.id, now)] else [])))
  }

  predicate IsSilent(s: Store, id: DeviceId, thresholdMs: int, now: int)
    requires id in s.raw
  {
    s.raw[id].online && now - LastHeard(s, s.raw[id]) > thresholdMs
  }

  function JudgeDevice(c: Config, s: Store, id: DeviceId, rule: OfflineRule, now: int): Store {
    if id !in s.raw || !IsSilent(s, id, rule.thresholdMs, now) then s
    else
      var updated := MarkedOffline(c, s.raw[id], rule, now);
      var configured := c.decorate(updated);
      s.(raw := s.raw[id := updated],
         devices := s.devices[id := configured],
         events := s.events + ChangeEvents(Get(s.devices, id), configured),
         log := s.log + [JudgedOffline(id, now, rule.thresholdMs)])
  }

  function JudgeDevices(c: Config, s: Store, order: seq<DeviceId>, rule: OfflineRule, now: int): Store {
    if order == [] then s
    else JudgeDevice(c, JudgeDevices(c, s, order[..|order| - 1], rule, now), order[|order| - 1], rule, now)
  }

  // ---------------------------------------------------------------------------
  // Eviction
  // ---------------------------------------------------------------------------

  /** An undeclared device not heard from for longer than the retention. */
  predicate IsEvictable(c: Config, s: Store, id: DeviceId, now: int) {
    && id in s.raw && id !in c.declared
    && id in s.lastIngestAt && now - s.lastIngestAt[id] > c.retentionMs
  }

  function EvictableAmong(c: Config, s: Store, order: seq<DeviceId>, now: int): seq<DeviceId> {
    if order == [] then []
    else
      var rest := EvictableAmong(c, s, order[..|order| - 1], now);
      if IsEvictable(c, s, order[|order| - 1], now) then rest + [order[|order| - 1]] else rest
  }

  /** A device with no recorded sighting is treated as seen now rather than evicted. */
  function NoteUnseen(c: Config, s: Store, order: seq<DeviceId>, now: int): Store {
    if order == [] then s
    else
      var rest := NoteUnseen(c, s, order[..|order| - 1], now);
      var id := order[|order| - 1];
      if id in s.raw && id !in c.declared && id !in s.lastIngestAt
      then rest.(lastIngestAt := rest.lastIngestAt[id := now]) else rest
  }

  function EvictDevice(s: Store, id: DeviceId): Store {
    s.(raw := s.raw - {id},
       devices := s.devices - {id},
       lastIngestAt := s.lastIngestAt - {id},
       lastFrameStamp := s.lastFrameStamp - {id},
       events := s.events + ClosingEvents(Get(s.raw, id)),
       log := s.log + [Forgot(id)])
  }

  function EvictDevices(s: Store, ids: seq<DeviceId>): Store {
    if ids == [] then s else EvictDevice(EvictDevices(s, ids[..|ids| - 1]), ids[|ids| - 1])
  }

  function EvictSilent(c: Config, s: Store, order: seq<DeviceId>, now: int): Store {
    if c.retentionMs <= 0 then s
    else
      var evictable := EvictableAmong(c, s, order, now);
      var next := EvictDevices(NoteUnseen(c, s, order, now), evictable);
      if evictable == [] then next else next.(events := next.events + [Snapshot(next.devices)])
  }

  /** No verdicts until the source has been up for a whole window. */
  function Judged(c: Config, noted: Store, rule: OfflineRule, order: seq<DeviceId>, now: int): Store {
    if SourceSettled(noted, rule.thresholdMs, now) then JudgeDevices(c, noted, order, rule, now) else noted
  }

  function Sweep(c: Config, s: Store, rule: OfflineRule, order: seq<DeviceId>, now: int): Store {
    EvictSilent(c, Judged(c, NoteSweep(s, rule.thresholdMs, now), rule, order, now), order, now)
  }

  // ---------------------------------------------------------------------------
  // Startup and runs
  // ---------------------------------------------------------------------------

  /** Restore the stored snapshots of declared devices; the silence clock never looks fresher than now. */
  function RestoreDevice(c: Config, s: Store, device: Device, now: int): Store {
    if device.id !in c.declared then s
    else
      s.(raw := s.raw[device.id := device],
         devices := s.devices[device.id := c.decorate(device)],
         lastIngestAt := s.lastIngestAt[device.id := Min(if device.stamp == 0 then now else device.stamp, now)])
  }

  function RestoreDevices(c: Config, s: Store, restored: seq<Device>, now: int): Store {
    if restored == [] then s
    else RestoreDevice(c, RestoreDevices(c, s, restored[..|restored| - 1], now), restored[|restored| - 1], now)
  }

  function Initialize(c: Config, restored: seq<Device>, now: int): Store {
    var s := RestoreDevices(c, EMPTY, restored, now);
    if restored == [] then s else s.(sourceUpSince := Some(Max(0, now)))
  }

  datatype Step =
    | Ingested(payload: Payload, order: seq<DeviceId>)
    | StatusCame(id: DeviceId, online: bool, alerts: seq<Alert>, rest: string)
    | Swept(rule: OfflineRule, order: seq<DeviceId>)
    | SourceChanged(connected: bool)

  datatype TimedStep = At(now: int, step: Step)

  function Apply(c: Config, s: Store, timed: TimedStep): Store {
    match timed.step
    case Ingested(payload, order) => ApplyPayload(c, s, payload, order, timed.now)
    case StatusCame(id, online, alerts, rest) => ApplyStatus(c, s, id, online, alerts, rest, timed.now)
    case Swept(rule, order) => Sweep(c, s, rule, order, timed.now)
    case SourceChanged(connected) => SetSourceConnected(s, connected, timed.now)
  }

  function Run(c: Config, s: Store, steps: seq<TimedStep>): Store {
    if steps == [] then s else Apply(c, Run(c, s, steps[..|steps| - 1]), steps[|steps| - 1])
  }
}
