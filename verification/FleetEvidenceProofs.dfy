/** What offline verdicts and frame order rest on, judged by the log of what happened. */
module FleetEvidenceProofs {
  import opened Wrappers
  import opened FleetSteps
  import opened FleetInvariantProofs

  // ---------------------------------------------------------------------------
  // Reading the log
  // ---------------------------------------------------------------------------

  /** The telemetry source has been up without a break since `since`. */
  predicate UpThrough(log: seq<Happening>, since: int) {
    if log == [] then true
    else
      match log[|log| - 1]
      case SourceDown(_) => false
      case SourceUp(at) => at <= since || UpThrough(log[..|log| - 1], since)
      case _ => UpThrough(log[..|log| - 1], since)
  }

  /** No over-long gap between sweeps was detected after `since`. */
  predicate NoGapAfter(log: seq<Happening>, since: int) {
    forall i | 0 <= i < |log| && log[i].SweepGap? :: log[i].at <= since
  }

  /** Nothing was accepted from the device at or after `since`. */
  predicate SilentSince(log: seq<Happening>, id: DeviceId, since: int) {
    forall i | 0 <= i < |log| && log[i].Heard? && log[i].id == id :: log[i].at < since
  }

  /** A verdict's evidence: silence, an unbroken source, and no suspension, all for a whole window. */
  predicate RestsOnEvidence(log: seq<Happening>, id: DeviceId, at: int, thresholdMs: int) {
    && SilentSince(log, id, at - thresholdMs)
    && UpThrough(log, at - thresholdMs)
    && NoGapAfter(log, at - thresholdMs)
  }

  /** Every verdict in the log rests on what had happened before it. */
  predicate VerdictsRest(log: seq<Happening>) {
    forall i | 0 <= i < |log| && log[i].JudgedOffline? ::
      RestsOnEvidence(log[..i], log[i].id, log[i].at, log[i].thresholdMs)
  }

  /** The last live frame accepted for a device since it was last forgotten: its stamp and arrival. */
  function LastFrame(log: seq<Happening>, id: DeviceId): Option<(int, int)> {
    if log == [] then None
    else
      match log[|log| - 1]
      case LiveFrame(k, stamp, arrival) => if k == id then Some((stamp, arrival)) else LastFrame(log[..|log| - 1], id)
      case Forgot(k) => if k == id then None else LastFrame(log[..|log| - 1], id)
      case _ => LastFrame(log[..|log| - 1], id)
  }

  /**
   * Accepted stamps never decrease, and sit within the tolerance of their arrivals. A frame is only
   * dropped as late when it arrives within twice the tolerance of the last accepted one.
   */
  predicate FrameFits(log: seq<Happening>, toleranceMs: nat, event: Happening) {
    match event
    case LiveFrame(id, stamp, arrival) =>
      && Abs(stamp - arrival) <= toleranceMs
      && (LastFrame(log, id).Some? ==> LastFrame(log, id).value.0 <= stamp)
    case LateFrame(id, stamp, arrival) =>
      && LastFrame(log, id).Some?
      && stamp < LastFrame(log, id).value.0
      && arrival < LastFrame(log, id).value.1 + 2 * toleranceMs
    case _ => true
  }

  predicate FramesFit(log: seq<Happening>, toleranceMs: nat) {
    forall i | 0 <= i < |log| :: FrameFits(log[..i], toleranceMs, log[i])
  }

  // ---------------------------------------------------------------------------
  // The invariant
  // ---------------------------------------------------------------------------

  predicate HappenedBy(event: Happening, clock: int) {
    match event
    case Heard(_, at) => at <= clock
    case SweepGap(at) => at <= clock
    case _ => true
  }

  predicate LogBefore(log: seq<Happening>, clock: int) {
    forall i | 0 <= i < |log| :: HappenedBy(log[i], clock)
  }

  /** Each recorded sighting is at least as late as every acceptance in the log. */
  ghost predicate SightingsCurrent(log: seq<Happening>, lastIngestAt: map<DeviceId, int>) {
    forall i | 0 <= i < |log| && log[i].Heard? && log[i].id in lastIngestAt :: log[i].at <= lastIngestAt[log[i].id]
  }

  /** The frame-stamp map is what the log says, and the last accepted frame was near its arrival. */
  ghost predicate StampsCurrent(log: seq<Happening>, lastFrameStamp: map<DeviceId, int>, toleranceMs: nat) {
    forall id ::
      && (id in lastFrameStamp <==> LastFrame(log, id).Some?)
      && (LastFrame(log, id).Some? ==>
            && lastFrameStamp[id] == LastFrame(log, id).value.0
            && Abs(LastFrame(log, id).value.0 - LastFrame(log, id).value.1) <= toleranceMs)
  }

  predicate SourceCurrent(log: seq<Happening>, sourceUpSince: Option<int>) {
    sourceUpSince.Some? ==> UpThrough(log, sourceUpSince.value) && NoGapAfter(log, sourceUpSince.value)
  }

  ghost predicate LogSound(
    c: Config, log: seq<Happening>, lastIngestAt: map<DeviceId, int>, lastFrameStamp: map<DeviceId, int>,
    sourceUpSince: Option<int>, clock: int)
  {
    && LogBefore(log, clock)
    && SightingsCurrent(log, lastIngestAt)
    && StampsCurrent(log, lastFrameStamp, c.toleranceMs)
    && SourceCurrent(log, sourceUpSince)
    && VerdictsRest(log)
    && FramesFit(log, c.toleranceMs)
  }

  ghost predicate Evidenced(c: Config, s: Store, clock: int) {
    LogSound(c, s.log, s.lastIngestAt, s.lastFrameStamp, s.sourceUpSince, clock)
  }

  lemma {:induction false} UpThroughLater(log: seq<Happening>, since: int, later: int)
    requires UpThrough(log, since) && since <= later
    ensures UpThrough(log, later)
  {
    if log != [] {
      var init := log[..|log| - 1];
      match log[|log| - 1]
      case SourceUp(at) =>
        if at > since {
          UpThroughLater(init, since, later);
        }
      case SourceDown(_) =>
      case _ => UpThroughLater(init, since, later);
    }
  }

  /** Appending one event keeps what the log said before it. */
  lemma AppendOne(c: Config, log: seq<Happening>, event: Happening)
    requires VerdictsRest(log) && FramesFit(log, c.toleranceMs)
    requires event.JudgedOffline? ==> RestsOnEvidence(log, event.id, event.at, event.thresholdMs)
    requires FrameFits(log, c.toleranceMs, event)
    ensures VerdictsRest(log + [event]) && FramesFit(log + [event], c.toleranceMs)
  {
    var more := log + [event];
    assert more[..|log|] == log;
    forall i | 0 <= i < |log|
      ensures more[..i] == log[..i]
    {
    }
  }

  lemma AppendSource(log: seq<Happening>, event: Happening, since: int)
    requires UpThrough(log, since) && NoGapAfter(log, since)
    requires !event.SourceDown? && (event.SweepGap? ==> event.at <= since)
    ensures UpThrough(log + [event], since) && NoGapAfter(log + [event], since)
  {
    assert (log + [event])[..|log|] == log;
  }

  lemma AppendStamps(log: seq<Happening>, event: Happening, id: DeviceId)
    ensures LastFrame(log + [event], id) ==
            if event.LiveFrame? && event.id == id then Some((event.stamp, event.arrival))
            else if event.Forgot? && event.id == id then None
            else LastFrame(log, id)
  {
    assert (log + [event])[..|log|] == log;
  }

  // ---------------------------------------------------------------------------
  // Each kind of event
  // ---------------------------------------------------------------------------

  /** Hearing from a device now. */
  lemma HearingKeepsSound(
    c: Config, log: seq<Happening>, lastIngestAt: map<DeviceId, int>, lastFrameStamp: map<DeviceId, int>,
    sourceUpSince: Option<int>, clock: int, id: DeviceId, now: int)
    requires LogSound(c, log, lastIngestAt, lastFrameStamp, sourceUpSince, clock) && clock <= now
    ensures LogSound(c, log + [Heard(id, now)], lastIngestAt[id := now], lastFrameStamp, sourceUpSince, now)
  {
    var event := Heard(id, now);
    AppendOne(c, log, event);
    if sourceUpSince.Some? {
      AppendSource(log, event, sourceUpSince.value);
    }
    forall k
      ensures LastFrame(log + [event], k) == LastFrame(log, k)
    {
      AppendStamps(log, event, k);
    }
  }

  /** Accepting a live frame, before it is recorded as heard. */
  lemma LiveFrameKeepsSound(
    c: Config, log: seq<Happening>, lastIngestAt: map<DeviceId, int>, lastFrameStamp: map<DeviceId, int>,
    sourceUpSince: Option<int>, clock: int, id: DeviceId, stamp: int, arrival: int)
    requires LogSound(c, log, lastIngestAt, lastFrameStamp, sourceUpSince, clock)
    requires stamp == TrustedStamp(stamp, arrival, c.toleranceMs)
    requires id in lastFrameStamp ==> lastFrameStamp[id] <= stamp
    ensures LogSound(c, log + [LiveFrame(id, stamp, arrival)], lastIngestAt, lastFrameStamp[id := stamp],
                     sourceUpSince, clock)
  {
    var event := LiveFrame(id, stamp, arrival);
    AppendOne(c, log, event);
    if sourceUpSince.Some? {
      AppendSource(log, event, sourceUpSince.value);
    }
    forall k
      ensures LastFrame(log + [event], k) == if k == id then Some((stamp, arrival)) else LastFrame(log, k)
    {
      AppendStamps(log, event, k);
    }
  }

  /** Dropping a late frame. */
  lemma LateFrameKeepsSound(
    c: Config, log: seq<Happening>, lastIngestAt: map<DeviceId, int>, lastFrameStamp: map<DeviceId, int>,
    sourceUpSince: Option<int>, clock: int, id: DeviceId, stamp: int, arrival: int)
    requires LogSound(c, log, lastIngestAt, lastFrameStamp, sourceUpSince, clock)
    requires stamp == TrustedStamp(stamp, arrival, c.toleranceMs)
    requires id in lastFrameStamp && stamp < lastFrameStamp[id]
    ensures LogSound(c, log + [LateFrame(id, stamp, arrival)], lastIngestAt, lastFrameStamp, sourceUpSince, clock)
  {
    var event := LateFrame(id, stamp, arrival);
    AppendOne(c, log, event);
    if sourceUpSince.Some? {
      AppendSource(log, event, sourceUpSince.value);
    }
    forall k
      ensures LastFrame(log + [event], k) == LastFrame(log, k)
    {
      AppendStamps(log, event, k);
    }
  }

  /** Forgetting a device. */
  lemma ForgettingKeepsSound(
    c: Config, log: seq<Happening>, lastIngestAt: map<DeviceId, int>, lastFrameStamp: map<DeviceId, int>,
    sourceUpSince: Option<int>, clock: int, id: DeviceId)
    requires LogSound(c, log, lastIngestAt, lastFrameStamp, sourceUpSince, clock)
    ensures LogSound(c, log + [Forgot(id)], lastIngestAt - {id}, lastFrameStamp - {id}, sourceUpSince, clock)
  {
    var event := Forgot(id);
    AppendOne(c, log, event);
    if sourceUpSince.Some? {
      AppendSource(log, event, sourceUpSince.value);
    }
    forall k
      ensures LastFrame(log + [event], k) == if k == id then None else LastFrame(log, k)
    {
      AppendStamps(log, event, k);
    }
  }

  /** Judging a device offline on a settled source. */
  lemma JudgingKeepsSound(
    c: Config, log: seq<Happening>, lastIngestAt: map<DeviceId, int>, lastFrameStamp: map<DeviceId, int>,
    sourceUpSince: Option<int>, clock: int, id: DeviceId, now: int, thresholdMs: int)
    requires LogSound(c, log, lastIngestAt, lastFrameStamp, sourceUpSince, clock)
    requires sourceUpSince.Some? && now - sourceUpSince.value >= thresholdMs
    requires id in lastIngestAt && now - lastIngestAt[id] > thresholdMs
    ensures LogSound(c, log + [JudgedOffline(id, now, thresholdMs)], lastIngestAt, lastFrameStamp, sourceUpSince, clock)
  {
    var event := JudgedOffline(id, now, thresholdMs);
    UpThroughLater(log, sourceUpSince.value, now - thresholdMs);
    AppendOne(c, log, event);
    AppendSource(log, event, sourceUpSince.value);
    forall k
      ensures LastFrame(log + [event], k) == LastFrame(log, k)
    {
      AppendStamps(log, event, k);
    }
  }

  // ---------------------------------------------------------------------------
  // Each mutation
  // ---------------------------------------------------------------------------

  ghost predicate BuildingEvidenced(c: Config, s: Store, b: Building, clock: int) {
    LogSound(c, b.log, b.lastIngestAt, b.lastFrameStamp, s.sourceUpSince, clock)
  }

  lemma FrameKeepsEvidence(c: Config, s: Store, b: Building, p: Payload, frame: Device, clock: int, now: int)
    requires BuildingEvidenced(c, s, b, clock) && clock <= now
    ensures BuildingEvidenced(c, s, IngestFrame(c, s, b, p, frame, now), now)
  {
    if Admits(c, b.raw, frame.id) {
      var stamp := StampOf(c, p, frame);
      if IsLate(c, b, p, frame) {
        LateFrameKeepsSound(c, b.log, b.lastIngestAt, b.lastFrameStamp, s.sourceUpSince, now,
                            frame.id, stamp, p.receivedAt);
      } else if p.Live? {
        LiveFrameKeepsSound(c, b.log, b.lastIngestAt, b.lastFrameStamp, s.sourceUpSince, now,
                            frame.id, stamp, p.receivedAt);
        HearingKeepsSound(c, b.log + [LiveFrame(frame.id, stamp, p.receivedAt)], b.lastIngestAt,
                          b.lastFrameStamp[frame.id := stamp], s.sourceUpSince, now, frame.id, now);
      } else {
        HearingKeepsSound(c, b.log, b.lastIngestAt, b.lastFrameStamp, s.sourceUpSince, now, frame.id, now);
        assert b.log + [] + [Heard(frame.id, now)] == b.log + [Heard(frame.id, now)];
      }
    }
  }

  lemma {:induction false} FramesKeepEvidence(
    c: Config, s: Store, b: Building, p: Payload, frames: seq<Device>, clock: int, now: int)
    requires BuildingEvidenced(c, s, b, clock) && clock <= now
    ensures BuildingEvidenced(c, s, IngestFrames(c, s, b, p, frames, now), now)
  {
    if frames != [] {
      FramesKeepEvidence(c, s, b, p, frames[..|frames| - 1], clock, now);
      FrameKeepsEvidence(c, s, IngestFrames(c, s, b, p, frames[..|frames| - 1], now), p, frames[|frames| - 1], now, now);
    }
  }

  lemma {:induction false} ForgettingDepartedKeepsEvidence(
    c: Config, s: Store, b: Building, order: seq<DeviceId>, clock: int)
    requires BuildingEvidenced(c, s, b, clock)
    ensures BuildingEvidenced(c, s, ForgetDeparted(s, b, order), clock)
  {
    if order != [] {
      ForgettingDepartedKeepsEvidence(c, s, b, order[..|order| - 1], clock);
      var rest := ForgetDeparted(s, b, order[..|order| - 1]);
      ForgettingKeepsSound(c, rest.log, rest.lastIngestAt, rest.lastFrameStamp, s.sourceUpSince, clock, order[|order| - 1]);
    }
  }

  lemma PayloadKeepsEvidence(c: Config, s: Store, p: Payload, order: seq<DeviceId>, clock: int, now: int)
    requires Evidenced(c, s, clock) && clock <= now
    ensures Evidenced(c, ApplyPayload(c, s, p, order, now), now)
  {
    FramesKeepEvidence(c, s, StartBuilding(s, p), p, Frames(p), clock, now);
    ForgettingDepartedKeepsEvidence(c, s, IngestFrames(c, s, StartBuilding(s, p), p, Frames(p), now), order, now);
  }

  lemma SourceChangeKeepsEvidence(c: Config, s: Store, connected: bool, clock: int, now: int)
    requires Evidenced(c, s, clock) && clock <= now
    ensures Evidenced(c, SetSourceConnected(s, connected, now), now)
  {
    var event := if connected then SourceUp(now) else SourceDown(now);
    AppendOne(c, s.log, event);
    assert (s.log + [event])[..|s.log|] == s.log;
    if connected && s.sourceUpSince.Some? {
      AppendSource(s.log, event, s.sourceUpSince.value);
    }
    forall k
      ensures LastFrame(s.log + [event], k) == LastFrame(s.log, k)
    {
      AppendStamps(s.log, event, k);
    }
  }

  /** Detecting an over-long gap between sweeps. */
  lemma GapKeepsSound(
    c: Config, log: seq<Happening>, lastIngestAt: map<DeviceId, int>, lastFrameStamp: map<DeviceId, int>,
    since: int, clock: int, now: int)
    requires LogSound(c, log, lastIngestAt, lastFrameStamp, Some(since), clock) && clock <= now
    ensures LogSound(c, log + [SweepGap(now)], lastIngestAt, lastFrameStamp, Some(Max(since, now)), now)
  {
    var event := SweepGap(now);
    AppendOne(c, log, event);
    UpThroughLater(log, since, Max(since, now));
    AppendSource(log, event, Max(since, now));
    forall k
      ensures LastFrame(log + [event], k) == LastFrame(log, k)
    {
      AppendStamps(log, event, k);
    }
  }

  lemma NotingKeepsEvidence(c: Config, s: Store, thresholdMs: int, clock: int, now: int)
    requires Evidenced(c, s, clock) && clock <= now
    ensures Evidenced(c, NoteSweep(s, thresholdMs, now), now)
  {
    if s.lastSweepAt.Some? && now - s.lastSweepAt.value > thresholdMs && s.sourceUpSince.Some? {
      GapKeepsSound(c, s.log, s.lastIngestAt, s.lastFrameStamp, s.sourceUpSince.value, clock, now);
    }
  }

  lemma {:induction false} JudgingKeepsEvidence(
    c: Config, s: Store, order: seq<DeviceId>, rule: OfflineRule, now: int)
    requires Decorates(c) && Consistent(c, s) && Evidenced(c, s, now) && SourceSettled(s, rule.thresholdMs, now)
    ensures var next := JudgeDevices(c, s, order, rule, now);
            Evidenced(c, next, now) && next.sourceUpSince == s.sourceUpSince
  {
    if order != [] {
      var init, id := order[..|order| - 1], order[|order| - 1];
      JudgingKeepsEvidence(c, s, init, rule, now);
      SweepKeepsFleet(c, s, init, rule, now);
      var before := JudgeDevices(c, s, init, rule, now);
      if id in before.raw && IsSilent(before, id, rule.thresholdMs, now) {
        JudgingKeepsSound(c, before.log, before.lastIngestAt, before.lastFrameStamp, before.sourceUpSince, now,
                          id, now, rule.thresholdMs);
      }
    }
  }

  lemma {:induction false} EvictingKeepsEvidence(c: Config, s: Store, ids: seq<DeviceId>, clock: int)
    requires Evidenced(c, s, clock)
    ensures Evidenced(c, EvictDevices(s, ids), clock)
  {
    if ids != [] {
      EvictingKeepsEvidence(c, s, ids[..|ids| - 1], clock);
      var before := EvictDevices(s, ids[..|ids| - 1]);
      ForgettingKeepsSound(c, before.log, before.lastIngestAt, before.lastFrameStamp, before.sourceUpSince, clock,
                           ids[|ids| - 1]);
    }
  }

  lemma JudgedKeepsEvidence(c: Config, noted: Store, rule: OfflineRule, order: seq<DeviceId>, now: int)
    requires Decorates(c) && Consistent(c, noted) && Evidenced(c, noted, now)
    ensures Evidenced(c, Judged(c, noted, rule, order, now), now)
    ensures Consistent(c, Judged(c, noted, rule, order, now))
  {
    if SourceSettled(noted, rule.thresholdMs, now) { JudgingKeepsEvidence(c, noted, order, rule, now); }
    JudgedKeepsFleet(c, noted, rule, order, now);
  }

  lemma EvictionKeepsEvidence(c: Config, s: Store, order: seq<DeviceId>, now: int)
    requires Consistent(c, s) && Evidenced(c, s, now)
    ensures Evidenced(c, EvictSilent(c, s, order, now), now)
  {
    NothingUnseen(c, s, order, now);
    EvictingKeepsEvidence(c, s, EvictableAmong(c, s, order, now), now);
  }

  lemma SweepKeepsEvidence(c: Config, s: Store, rule: OfflineRule, order: seq<DeviceId>, clock: int, now: int)
    requires Decorates(c) && Consistent(c, s)
    requires Evidenced(c, s, clock) && clock <= now
    ensures Evidenced(c, Sweep(c, s, rule, order, now), now)
  {
    var noted := NoteSweep(s, rule.thresholdMs, now);
    NotingKeepsEvidence(c, s, rule.thresholdMs, clock, now);
    JudgedKeepsEvidence(c, noted, rule, order, now);
    EvictionKeepsEvidence(c, Judged(c, noted, rule, order, now), order, now);
  }

  lemma StatusKeepsEvidence(
    c: Config, s: Store, id: DeviceId, online: bool, alerts: seq<Alert>, rest: string, clock: int, now: int)
    requires Evidenced(c, s, clock) && clock <= now
    ensures Evidenced(c, ApplyStatus(c, s, id, online, alerts, rest, now), now)
  {
    HearingKeepsSound(c, s.log, s.lastIngestAt, s.lastFrameStamp, s.sourceUpSince, now, id, now);
  }

  lemma StepKeepsEvidence(c: Config, s: Store, timed: TimedStep, clock: int)
    requires Decorates(c) && Consistent(c, s) && WellOrdered(s, timed.step)
    requires Evidenced(c, s, clock) && clock <= timed.now
    ensures Evidenced(c, Apply(c, s, timed), timed.now)
  {
    match timed.step
    case Ingested(payload, order) => PayloadKeepsEvidence(c, s, payload, order, clock, timed.now);
    case StatusCame(id, online, alerts, rest) => StatusKeepsEvidence(c, s, id, online, alerts, rest, clock, timed.now);
    case Swept(rule, order) => SweepKeepsEvidence(c, s, rule, order, clock, timed.now);
    case SourceChanged(connected) => SourceChangeKeepsEvidence(c, s, connected, clock, timed.now);
  }

  // ---------------------------------------------------------------------------
  // Runs
  // ---------------------------------------------------------------------------

  /** The clock never goes back, and starts no earlier than `clock`. */
  predicate ClockAdvances(steps: seq<TimedStep>, clock: int) {
    && (steps != [] ==> clock <= steps[0].now)
    && forall i | 0 <= i < |steps| - 1 :: steps[i].now <= steps[i + 1].now
  }

  function ClockAfter(steps: seq<TimedStep>, clock: int): int {
    if steps == [] then clock else steps[|steps| - 1].now
  }

  /**
   * Over every run with a clock that never goes back: each offline verdict rests on a whole window of
   * silence, unbroken source and undetected suspension; accepted live stamps never decrease for a
   * device, sit within the tolerance, and are only preferred over frames arriving shortly after.
   */
  lemma {:induction false} RunsRestOnEvidence(c: Config, s: Store, steps: seq<TimedStep>, clock: int)
    requires Decorates(c) && Consistent(c, s) && WellOrderedRun(c, s, steps)
    requires Evidenced(c, s, clock) && ClockAdvances(steps, clock)
    ensures Evidenced(c, Run(c, s, steps), ClockAfter(steps, clock))
  {
    if steps != [] {
      var init := steps[..|steps| - 1];
      WellOrderedPrefix(c, s, steps);
      RunsRestOnEvidence(c, s, init, clock);
      RunsStayConsistent(c, s, init);
      StepKeepsEvidence(c, Run(c, s, init), steps[|steps| - 1], ClockAfter(init, clock));
    }
  }

  /** The store as it starts has nothing to answer for. */
  lemma StartIsEvidenced(c: Config, restored: seq<Device>, now: int)
    requires Decorates(c)
    ensures Evidenced(c, Initialize(c, restored, now), now) && Consistent(c, Initialize(c, restored, now))
  {
    RestoringIsConsistent(c, restored, now);
  }

  /** Two live frames accepted for a device that was not forgotten in between: the stamps do not decrease. */
  lemma LiveStampsNeverDecrease(log: seq<Happening>, toleranceMs: nat, id: DeviceId, i: nat, j: nat)
    requires FramesFit(log, toleranceMs) && i < j < |log|
    requires log[i].LiveFrame? && log[j].LiveFrame? && log[i].id == log[j].id == id
    requires forall k | i < k < j :: log[k] != Forgot(id)
    ensures log[i].stamp <= log[j].stamp
  {
    LastFrameSince(log, toleranceMs, id, i, j);
    assert FrameFits(log[..j], toleranceMs, log[j]);
  }

  lemma {:induction false} LastFrameSince(log: seq<Happening>, toleranceMs: nat, id: DeviceId, i: nat, j: nat)
    requires FramesFit(log, toleranceMs) && i < j <= |log|
    requires log[i].LiveFrame? && log[i].id == id
    requires forall k | i < k < j :: log[k] != Forgot(id)
    ensures LastFrame(log[..j], id).Some? && log[i].stamp <= LastFrame(log[..j], id).value.0
    decreases j
  {
    assert log[..j][..j - 1] == log[..j - 1];
    if i < j - 1 {
      LastFrameSince(log, toleranceMs, id, i, j - 1);
      assert FrameFits(log[..j - 1], toleranceMs, log[j - 1]);
    }
  }

  // ---------------------------------------------------------------------------
  // What a settled sweep leaves
  // ---------------------------------------------------------------------------

  /** Each device is judged on its own, once. */
  lemma {:induction false} JudgedEach(c: Config, s: Store, order: seq<DeviceId>, rule: OfflineRule, now: int)
    requires forall id | id in s.raw :: s.raw[id].id == id
    ensures var next := JudgeDevices(c, s, order, rule, now);
            && next.lastIngestAt == s.lastIngestAt
            && forall id ::
                 && (id in next.raw <==> id in s.raw)
                 && (id in s.raw && id in order && IsSilent(s, id, rule.thresholdMs, now)
                     ==> next.raw[id] == MarkedOffline(c, s.raw[id], rule, now))
                 && (id in s.raw && !(id in order && IsSilent(s, id, rule.thresholdMs, now))
                     ==> next.raw[id] == s.raw[id])
  {
    if order != [] {
      assert order == order[..|order| - 1] + [order[|order| - 1]];
      JudgedEach(c, s, order[..|order| - 1], rule, now);
    }
  }

  /** The source has been up for a whole window, and the last sweep is no longer ago than that. */
  predicate Settled(s: Store, thresholdMs: int, now: int) {
    && s.sourceUpSince.Some? && now - s.sourceUpSince.value >= thresholdMs
    && (s.lastSweepAt.Some? && now - s.lastSweepAt.value > thresholdMs ==> thresholdMs <= 0)
  }

  /** A sweep's verdict on one device: online when it was and it is not silent, or nothing is settled. */
  predicate OnlineAfter(s: Store, id: DeviceId, rule: OfflineRule, now: int)
    requires id in s.raw && id in s.lastIngestAt
  {
    s.raw[id].online && (!Settled(s, rule.thresholdMs, now) || now - s.lastIngestAt[id] <= rule.thresholdMs)
  }

  /**
   * After a sweep on a settled source a device is online exactly when it was and something was
   * accepted from it within the threshold; after any other sweep nothing was judged.
   */
  lemma SweepJudgesBySilenceAlone(c: Config, s: Store, rule: OfflineRule, order: seq<DeviceId>, now: int)
    requires Decorates(c) && Consistent(c, s) && Walks(order, s.raw.Keys)
    ensures var next := Sweep(c, s, rule, order, now);
            forall id | id in next.raw ::
              id in s.raw && id in s.lastIngestAt && (next.raw[id].online <==> OnlineAfter(s, id, rule, now))
  {
    var noted := NoteSweep(s, rule.thresholdMs, now);
    var judged := Judged(c, noted, rule, order, now);
    SweepKeepsFleet(c, noted, order, rule, now);
    JudgedOnline(c, s, rule, order, now);
    EvictsExactlyTheSilentUndeclared(c, judged, order, now);
  }

  lemma JudgedOnline(c: Config, s: Store, rule: OfflineRule, order: seq<DeviceId>, now: int)
    requires forall id | id in s.raw :: s.raw[id].id == id && id in s.lastIngestAt && id in order
    ensures var judged := Judged(c, NoteSweep(s, rule.thresholdMs, now), rule, order, now);
            forall id | id in judged.raw :: id in s.raw && (judged.raw[id].online <==> OnlineAfter(s, id, rule, now))
  {
    JudgedEach(c, NoteSweep(s, rule.thresholdMs, now), order, rule, now);
  }

  /**
   * Silence counts accepted frames only. A vehicle whose clock ran a minute fast and was then set
   * right is dropped as late for up to two minutes, and with the default 60 s window and tolerance it
   * is judged offline 600 ms after a frame of its arrived.
   */
  lemma LateFramesAreNotHeard(c: Config, id: DeviceId, rule: OfflineRule, first: Device, second: Device)
    requires Decorates(c) && Admits(c, map[], id) && c.toleranceMs == 60000 && c.retentionMs >= 86400000
    requires rule.thresholdMs == 60000
    requires first.id == second.id == id && first.online && first.stamp == 61000 && second.stamp == 60900
    ensures var s1 := Apply(c, EMPTY, At(1000, Ingested(Live(first, 1000), [])));
            var s2 := Apply(c, s1, At(60900, Ingested(Live(second, 60900), [])));
            var s3 := Apply(c, s2, At(61500, Swept(rule, [id])));
            s3.log == s2.log + [JudgedOffline(id, 61500, 60000)] && LateFrame(id, 60900, 60900) in s2.log
  {
    var s1 := Apply(c, EMPTY, At(1000, Ingested(Live(first, 1000), [])));
    var p := Live(second, 60900);
    OneFrame(c, EMPTY, Live(first, 1000), 1000);
    assert s1.raw.Keys == {id} && s1.lastIngestAt == map[id := 1000] && s1.lastFrameStamp == map[id := 61000];
    assert s1.raw[id].online && s1.raw[id].id == id;
    OneFrame(c, s1, p, 60900);
    var s2 := Apply(c, s1, At(60900, Ingested(p, [])));
    assert s2 == s1.(log := s1.log + [LateFrame(id, 60900, 60900)]);
    assert s2.log[|s1.log|] == LateFrame(id, 60900, 60900);
    SilentOneIsJudged(c, s2, id, rule, 61500);
  }

  /** A sweep of a fleet of one silent device, early in the retention, on a settled source. */
  lemma SilentOneIsJudged(c: Config, s: Store, id: DeviceId, rule: OfflineRule, now: int)
    requires s.raw.Keys == {id} && s.raw[id].online && s.raw[id].id == id && id in s.lastIngestAt
    requires now - s.lastIngestAt[id] > rule.thresholdMs && now - s.lastIngestAt[id] <= c.retentionMs
    requires s.sourceUpSince.Some? && now - s.sourceUpSince.value >= rule.thresholdMs && s.lastSweepAt.None?
    ensures Apply(c, s, At(now, Swept(rule, [id]))).log == s.log + [JudgedOffline(id, now, rule.thresholdMs)]
  {
    var noted := NoteSweep(s, rule.thresholdMs, now);
    assert [id][..0] == [];
    assert JudgeDevices(c, noted, [], rule, now) == noted;
    var judged := JudgeDevices(c, noted, [id], rule, now);
    assert judged.log == s.log + [JudgedOffline(id, now, rule.thresholdMs)];
    assert EvictableAmong(c, judged, [], now) == [];
    assert EvictableAmong(c, judged, [id], now) == [];
    NothingUnseen(c, judged, [id], now);
  }
}
