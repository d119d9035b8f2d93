/**
 * Offline verdicts against arrivals. The store counts a vehicle as heard when a frame is accepted, so
 * a frame dropped as late arrives unheard. How far a verdict can then be from the arrivals, and
 * exactly when none is.
 */
module FleetArrivalProofs {
  import opened Wrappers
  import opened FleetSteps
  import opened FleetInvariantProofs
  import opened FleetEvidenceProofs

  // ---------------------------------------------------------------------------
  // Every run
  // ---------------------------------------------------------------------------

  /** Each accepted live frame is heard at once, no earlier than it arrived. */
  predicate HeardOnArrival(log: seq<Happening>) {
    forall i | 0 <= i < |log| && log[i].LiveFrame? ::
      && i + 1 < |log| && log[i + 1].Heard?
      && log[i + 1].id == log[i].id && log[i].arrival <= log[i + 1].at
  }

  lemma HeardAppend(log: seq<Happening>, more: seq<Happening>)
    requires HeardOnArrival(log) && HeardOnArrival(more)
    ensures HeardOnArrival(log + more)
  {}

  /** A live frame is taken from the queue after it arrived. */
  predicate Timely(timed: TimedStep) {
    timed.step.Ingested? && timed.step.payload.Live? ==> timed.step.payload.receivedAt <= timed.now
  }

  lemma FrameIsHeard(c: Config, s: Store, b: Building, p: Payload, frame: Device, now: int)
    requires HeardOnArrival(b.log) && (p.Live? ==> p.receivedAt <= now)
    ensures HeardOnArrival(IngestFrame(c, s, b, p, frame, now).log)
  {
    HeardAppend(b.log, IngestLog(c, b, p, frame, now));
    IngestLogs(c, s, b, p, frame, now);
  }

  /** What a frame adds to the log. */
  function IngestLog(c: Config, b: Building, p: Payload, frame: Device, now: int): seq<Happening> {
    var stamp := StampOf(c, p, frame);
    if !Admits(c, b.raw, frame.id) then []
    else if IsLate(c, b, p, frame) then [LateFrame(frame.id, stamp, p.receivedAt)]
    else if p.Live? then [LiveFrame(frame.id, stamp, p.receivedAt), Heard(frame.id, now)]
    else [Heard(frame.id, now)]
  }

  lemma IngestLogs(c: Config, s: Store, b: Building, p: Payload, frame: Device, now: int)
    ensures IngestFrame(c, s, b, p, frame, now).log == b.log + IngestLog(c, b, p, frame, now)
  {}

  lemma {:induction false} FramesAreHeard(c: Config, s: Store, b: Building, p: Payload, frames: seq<Device>, now: int)
    requires HeardOnArrival(b.log) && (p.Live? ==> p.receivedAt <= now)
    ensures HeardOnArrival(IngestFrames(c, s, b, p, frames, now).log)
  {
    if frames != [] {
      FramesAreHeard(c, s, b, p, frames[..|frames| - 1], now);
      FrameIsHeard(c, s, IngestFrames(c, s, b, p, frames[..|frames| - 1], now), p, frames[|frames| - 1], now);
    }
  }

  lemma {:induction false} ForgettingIsHeard(s: Store, b: Building, order: seq<DeviceId>)
    requires HeardOnArrival(b.log)
    ensures HeardOnArrival(ForgetDeparted(s, b, order).log)
  {
    if order != [] {
      ForgettingIsHeard(s, b, order[..|order| - 1]);
      HeardAppend(ForgetDeparted(s, b, order[..|order| - 1]).log, [Forgot(order[|order| - 1])]);
    }
  }

  lemma {:induction false} JudgingIsHeard(c: Config, s: Store, order: seq<DeviceId>, rule: OfflineRule, now: int)
    requires HeardOnArrival(s.log)
    ensures HeardOnArrival(JudgeDevices(c, s, order, rule, now).log)
  {
    if order != [] {
      JudgingIsHeard(c, s, order[..|order| - 1], rule, now);
      HeardAppend(JudgeDevices(c, s, order[..|order| - 1], rule, now).log,
                  [JudgedOffline(order[|order| - 1], now, rule.thresholdMs)]);
    }
  }

  lemma {:induction false} EvictingIsHeard(s: Store, ids: seq<DeviceId>)
    requires HeardOnArrival(s.log)
    ensures HeardOnArrival(EvictDevices(s, ids).log)
  {
    if ids != [] {
      EvictingIsHeard(s, ids[..|ids| - 1]);
      HeardAppend(EvictDevices(s, ids[..|ids| - 1]).log, [Forgot(ids[|ids| - 1])]);
    }
  }

  lemma {:induction false} NotingUnseenKeepsLog(c: Config, s: Store, order: seq<DeviceId>, now: int)
    ensures NoteUnseen(c, s, order, now).log == s.log
  {
    if order != [] { NotingUnseenKeepsLog(c, s, order[..|order| - 1], now); }
  }

  lemma SweepIsHeard(c: Config, s: Store, rule: OfflineRule, order: seq<DeviceId>, now: int)
    requires HeardOnArrival(s.log)
    ensures HeardOnArrival(Sweep(c, s, rule, order, now).log)
  {
    var noted := NoteSweep(s, rule.thresholdMs, now);
    HeardAppend(s.log, [SweepGap(now)]);
    JudgingIsHeard(c, noted, order, rule, now);
    var judged := Judged(c, noted, rule, order, now);
    NotingUnseenKeepsLog(c, judged, order, now);
    EvictingIsHeard(NoteUnseen(c, judged, order, now), EvictableAmong(c, judged, order, now));
  }

  lemma StepIsHeard(c: Config, s: Store, timed: TimedStep)
    requires HeardOnArrival(s.log) && Timely(timed)
    ensures HeardOnArrival(Apply(c, s, timed).log)
  {
    match timed.step
    case Ingested(payload, order) =>
      var start := StartBuilding(s, payload);
      FramesAreHeard(c, s, start, payload, Frames(payload), timed.now);
      ForgettingIsHeard(s, IngestFrames(c, s, start, payload, Frames(payload), timed.now), order);
    case StatusCame(id, _, _, _) => HeardAppend(s.log, [Heard(id, timed.now)]);
    case Swept(rule, order) => SweepIsHeard(c, s, rule, order, timed.now);
    case SourceChanged(connected) =>
      HeardAppend(s.log, [if connected then SourceUp(timed.now) else SourceDown(timed.now)]);
  }

  lemma {:induction false} RunsAreHeard(c: Config, s: Store, steps: seq<TimedStep>)
    requires HeardOnArrival(s.log) && forall timed | timed in steps :: Timely(timed)
    ensures HeardOnArrival(Run(c, s, steps).log)
  {
    if steps != [] {
      RunsAreHeard(c, s, steps[..|steps| - 1]);
      StepIsHeard(c, Run(c, s, steps[..|steps| - 1]), steps[|steps| - 1]);
    }
  }

  predicate Arrived(event: Happening, id: DeviceId, since: int) {
    (event.LiveFrame? || event.LateFrame?) && event.id == id && event.arrival >= since
  }

  /**
   * A verdict against the arrivals before it: only frames dropped as late may have arrived in its
   * window, and none at or after twice the tolerance into it.
   */
  predicate TrailsArrivals(log: seq<Happening>, toleranceMs: nat, id: DeviceId, since: int) {
    && (forall i | 0 <= i < |log| :: Arrived(log[i], id, since) ==> log[i].LateFrame?)
    && (forall i | 0 <= i < |log| :: !Arrived(log[i], id, since + 2 * toleranceMs))
  }

  lemma {:induction false} LastFrameIsLogged(log: seq<Happening>, id: DeviceId) returns (i: nat)
    requires LastFrame(log, id).Some?
    ensures i < |log| && log[i] == LiveFrame(id, LastFrame(log, id).value.0, LastFrame(log, id).value.1)
  {
    var last := log[|log| - 1];
    if last.LiveFrame? && last.id == id {
      i := |log| - 1;
    } else {
      i := LastFrameIsLogged(log[..|log| - 1], id);
    }
  }

  lemma AcceptedBeforeSilence(log: seq<Happening>, id: DeviceId, since: int, i: nat)
    requires HeardOnArrival(log) && SilentSince(log, id, since)
    requires i < |log| && log[i].LiveFrame? && log[i].id == id
    ensures log[i].arrival < since
  {
    assert log[i + 1].Heard?;
  }

  lemma DroppedNearSilence(log: seq<Happening>, toleranceMs: nat, id: DeviceId, since: int, i: nat)
    requires HeardOnArrival(log) && FramesFit(log, toleranceMs) && SilentSince(log, id, since)
    requires i < |log| && log[i].LateFrame? && log[i].id == id
    ensures log[i].arrival < since + 2 * toleranceMs
  {
    assert FrameFits(log[..i], toleranceMs, log[i]);
    var k := LastFrameIsLogged(log[..i], id);
    AcceptedBeforeSilence(log, id, since, k);
  }

  lemma SilenceTrailsArrivals(log: seq<Happening>, toleranceMs: nat, id: DeviceId, since: int)
    requires HeardOnArrival(log) && FramesFit(log, toleranceMs) && SilentSince(log, id, since)
    ensures TrailsArrivals(log, toleranceMs, id, since)
  {
    forall i | 0 <= i < |log| && log[i].LiveFrame? && log[i].id == id ensures log[i].arrival < since {
      AcceptedBeforeSilence(log, id, since, i);
    }
    forall i | 0 <= i < |log| && log[i].LateFrame? && log[i].id == id
      ensures log[i].arrival < since + 2 * toleranceMs
    {
      DroppedNearSilence(log, toleranceMs, id, since, i);
    }
  }

  /** What had happened before a verdict. */
  lemma BeforeVerdict(log: seq<Happening>, toleranceMs: nat, v: nat)
    requires HeardOnArrival(log) && FramesFit(log, toleranceMs) && v < |log| && log[v].JudgedOffline?
    ensures HeardOnArrival(log[..v]) && FramesFit(log[..v], toleranceMs)
  {
    forall i | 0 <= i < v ensures FrameFits(log[..v][..i], toleranceMs, log[..v][i]) {
      assert log[..v][..i] == log[..i];
    }
  }

  /**
   * Over every run in which frames are taken from the queue after they arrived: when a vehicle is judged
   * offline, every frame of its that arrived within the window was dropped as late, and arrived less
   * than twice the tolerance into it.
   */
  lemma VerdictsTrailArrivals(c: Config, s: Store, steps: seq<TimedStep>, clock: int, v: nat)
    requires Decorates(c) && Consistent(c, s) && WellOrderedRun(c, s, steps)
    requires Evidenced(c, s, clock) && ClockAdvances(steps, clock)
    requires HeardOnArrival(s.log) && forall timed | timed in steps :: Timely(timed)
    requires v < |Run(c, s, steps).log| && Run(c, s, steps).log[v].JudgedOffline?
    ensures var log := Run(c, s, steps).log;
            TrailsArrivals(log[..v], c.toleranceMs, log[v].id, log[v].at - log[v].thresholdMs)
  {
    var log := Run(c, s, steps).log;
    assert VerdictsRest(log) && FramesFit(log, c.toleranceMs) by { RunsRestOnEvidence(c, s, steps, clock); }
    assert HeardOnArrival(log) by { RunsAreHeard(c, s, steps); }
    BeforeVerdict(log, c.toleranceMs, v);
    SilenceTrailsArrivals(log[..v], c.toleranceMs, log[v].id, log[v].at - log[v].thresholdMs);
  }

  // ---------------------------------------------------------------------------
  // One vehicle's frames
  // ---------------------------------------------------------------------------

  /** A live frame, when it arrived, and when it was taken from the queue. */
  datatype Arrival = Arrival(frame: Device, receivedAt: int, now: int)

  predicate IsFeed(feed: seq<Arrival>, id: DeviceId) {
    && (forall k | 0 <= k < |feed| :: feed[k].frame.id == id && feed[k].receivedAt <= feed[k].now)
    && (forall j, k | 0 <= j < k < |feed| :: feed[j].now <= feed[k].now)
  }

  function Stamp(c: Config, a: Arrival): int {
    TrustedStamp(a.frame.stamp, a.receivedAt, c.toleranceMs)
  }

  /** Some earlier frame of the feed carries a newer stamp. */
  predicate Behind(c: Config, feed: seq<Arrival>, k: nat)
    requires k < |feed|
  {
    exists j | 0 <= j < k :: Stamp(c, feed[j]) > Stamp(c, feed[k])
  }

  /** The last of the first `n` frames that no earlier one is ahead of. */
  predicate IsNewest(c: Config, feed: seq<Arrival>, n: nat, k: nat)
    requires n <= |feed|
  {
    k < n && !Behind(c, feed, k) && forall m | k < m < n :: Behind(c, feed, m)
  }

  /** A vehicle that may join the fleet and is not in it yet. */
  ghost predicate MayJoin(c: Config, s: Store, id: DeviceId) {
    Decorates(c) && Consistent(c, s) && id !in s.raw && Admits(c, s.raw, id)
  }

  function TakeFrame(c: Config, s: Store, a: Arrival): Store {
    Apply(c, s, At(a.now, Ingested(Live(a.frame, a.receivedAt), [])))
  }

  /** The store after the feed, taken frame by frame. */
  function AfterFeed(c: Config, s: Store, feed: seq<Arrival>): Store {
    if feed == [] then s
    else
      TakeFrame(c, AfterFeed(c, s, feed[..|feed| - 1]), feed[|feed| - 1])
  }

  lemma FrameTaken(c: Config, s: Store, a: Arrival)
    ensures var p := Live(a.frame, a.receivedAt);
            TakeFrame(c, s, a) == SwapIn(s, IngestFrame(c, s, StartBuilding(s, p), p, a.frame, a.now))
  {
    OneFrame(c, s, Live(a.frame, a.receivedAt), a.now);
  }

  /** A live frame older than the last one accepted changes nothing the sweep reads. */
  lemma LateFrameStep(c: Config, s: Store, a: Arrival)
    requires Admits(c, s.raw, a.frame.id)
    requires a.frame.id in s.lastFrameStamp && Stamp(c, a) < s.lastFrameStamp[a.frame.id]
    ensures var next := TakeFrame(c, s, a);
            next.raw == s.raw && next.lastIngestAt == s.lastIngestAt && next.lastFrameStamp == s.lastFrameStamp
  {
    FrameTaken(c, s, a);
  }

  /** The vehicle has joined, and its last accepted frame is this one. */
  ghost predicate HeardWith(c: Config, s: Store, id: DeviceId, a: Arrival, after: Store) {
    && after.raw.Keys == s.raw.Keys + {id} && after.raw[id].online == a.frame.online
    && id in after.lastIngestAt && after.lastIngestAt[id] == a.now
    && id in after.lastFrameStamp && after.lastFrameStamp[id] == Stamp(c, a)
  }

  lemma MergedLiveness(c: Config, s: Store, p: Payload, frame: Device, now: int)
    ensures Merged(c, s, p, frame).online == frame.online
  {}

  lemma RecordedFrame(c: Config, s: Store, b: Building, p: Payload, frame: Device, now: int)
    requires p.Live? && Admits(c, b.raw, frame.id) && !IsLate(c, b, p, frame)
    ensures var next := IngestFrame(c, s, b, p, frame, now);
            && next.raw == b.raw[frame.id := Merged(c, s, p, frame)]
            && next.lastIngestAt == b.lastIngestAt[frame.id := now]
            && next.lastFrameStamp == b.lastFrameStamp[frame.id := StampOf(c, p, frame)]
  {}

  lemma RecordedFrameHeard(c: Config, s: Store, a: Arrival, merged: Device, after: Store)
    requires merged.online == a.frame.online && after.raw == s.raw[a.frame.id := merged]
    requires after.lastIngestAt == s.lastIngestAt[a.frame.id := a.now]
    requires after.lastFrameStamp == s.lastFrameStamp[a.frame.id := Stamp(c, a)]
    ensures HeardWith(c, s, a.frame.id, a, after)
  {}

  /** Any other live frame is recorded, and its vehicle heard. */
  lemma RecordedFrameStep(c: Config, s: Store, a: Arrival)
    requires Admits(c, s.raw, a.frame.id)
    requires a.frame.id in s.lastFrameStamp ==> s.lastFrameStamp[a.frame.id] <= Stamp(c, a)
    ensures HeardWith(c, s, a.frame.id, a, TakeFrame(c, s, a))
  {
    var p := Live(a.frame, a.receivedAt);
    RecordedFrame(c, s, StartBuilding(s, p), p, a.frame, a.now);
    MergedLiveness(c, s, p, a.frame, a.now);
    var after := SwapIn(s, IngestFrame(c, s, StartBuilding(s, p), p, a.frame, a.now));
    RecordedFrameHeard(c, s, a, Merged(c, s, p, a.frame), after);
    assert TakeFrame(c, s, a) == after by { FrameTaken(c, s, a); }
  }

  /** The newest frame of the feed: none is ahead of it. */
  predicate Leads(c: Config, feed: seq<Arrival>, k: nat) {
    IsNewest(c, feed, |feed|, k) && forall j | 0 <= j < |feed| :: Stamp(c, feed[j]) <= Stamp(c, feed[k])
  }

  /** After the feed the vehicle is as its newest frame left it, and was last heard when that was taken. */
  ghost predicate FeedTaken(c: Config, s: Store, id: DeviceId, feed: seq<Arrival>, k: nat) {
    Leads(c, feed, k) && HeardWith(c, s, id, feed[k], AfterFeed(c, s, feed))
  }

  /** Whether a frame is behind does not depend on what follows it. */
  lemma NewestInPrefix(c: Config, feed: seq<Arrival>, n: nat)
    requires n <= |feed|
    ensures forall k | 0 <= k < n :: Behind(c, feed[..n], k) == Behind(c, feed, k)
  {
    forall k | 0 <= k < n ensures Behind(c, feed[..n], k) == Behind(c, feed, k) {
      if Behind(c, feed, k) {
        var j :| 0 <= j < k && Stamp(c, feed[j]) > Stamp(c, feed[k]);
        assert feed[..n][j] == feed[j];
      }
    }
  }

  /** The next frame takes the lead unless it is older. */
  lemma NextLeads(c: Config, feed: seq<Arrival>, j: nat)
    requires |feed| > 1 && Leads(c, feed[..|feed| - 1], j)
    ensures Leads(c, feed, if Stamp(c, feed[|feed| - 1]) < Stamp(c, feed[j]) then j else |feed| - 1)
  {
    var last := |feed| - 1;
    NewestInPrefix(c, feed, last);
    assert forall i | 0 <= i < last :: Stamp(c, feed[..last][i]) == Stamp(c, feed[i]);
    assert Behind(c, feed, last) <==> Stamp(c, feed[last]) < Stamp(c, feed[j]);
  }

  lemma NextHeard(c: Config, s: Store, id: DeviceId, last: Arrival, before: Store, a: Arrival)
    requires c.ingestable(id) && a.frame.id == id && HeardWith(c, s, id, last, before)
    ensures HeardWith(c, s, id, if Stamp(c, a) < Stamp(c, last) then last else a, TakeFrame(c, before, a))
  {
    assert id in before.raw.Keys;
    if Stamp(c, a) < Stamp(c, last) {
      LateFrameStep(c, before, a);
    } else {
      RecordedFrameStep(c, before, a);
      assert before.raw.Keys + {id} == before.raw.Keys;
    }
  }

  lemma FirstIsTaken(c: Config, s: Store, id: DeviceId, feed: seq<Arrival>)
    requires MayJoin(c, s, id) && IsFeed(feed, id) && |feed| == 1
    ensures FeedTaken(c, s, id, feed, 0)
  {
    RecordedFrameStep(c, s, feed[0]);
    assert feed[..0] == [] && AfterFeed(c, s, []) == s;
  }

  lemma NextIsTaken(c: Config, s: Store, id: DeviceId, feed: seq<Arrival>, j: nat) returns (k: nat)
    requires c.ingestable(id) && IsFeed(feed, id) && |feed| > 1 && FeedTaken(c, s, id, feed[..|feed| - 1], j)
    ensures FeedTaken(c, s, id, feed, k)
  {
    var init, a := feed[..|feed| - 1], feed[|feed| - 1];
    NextHeard(c, s, id, init[j], AfterFeed(c, s, init), a);
    NextLeads(c, feed, j);
    k := if Stamp(c, a) < Stamp(c, feed[j]) then j else |init|;
  }

  lemma {:induction false} FeedIsTaken(c: Config, s: Store, id: DeviceId, feed: seq<Arrival>) returns (k: nat)
    requires MayJoin(c, s, id) && IsFeed(feed, id) && feed != []
    ensures FeedTaken(c, s, id, feed, k)
  {
    if |feed| == 1 {
      FirstIsTaken(c, s, id, feed);
      k := 0;
    } else {
      var j := FeedIsTaken(c, s, id, feed[..|feed| - 1]);
      k := NextIsTaken(c, s, id, feed, j);
    }
  }

  /** The store with any history of the source and of earlier sweeps. */
  function WithHistory(s: Store, source: Option<int>, lastSweep: Option<int>): Store {
    s.(sourceUpSince := source, lastSweepAt := lastSweep)
  }

  /** A sweep now takes the vehicle offline. */
  ghost predicate TakenOffline(c: Config, s: Store, id: DeviceId, rule: OfflineRule, order: seq<DeviceId>, now: int) {
    var judged := Judged(c, NoteSweep(s, rule.thresholdMs, now), rule, order, now);
    id in s.raw && s.raw[id].online && id in judged.raw && !judged.raw[id].online
  }

  lemma TakenOfflineBySilence(c: Config, s: Store, id: DeviceId, rule: OfflineRule, order: seq<DeviceId>, now: int)
    requires Decorates(c) && Consistent(c, s) && Walks(order, s.raw.Keys) && id in s.raw
    ensures TakenOffline(c, s, id, rule, order, now) <==>
              && s.raw[id].online && now - s.lastIngestAt[id] > rule.thresholdMs
              && SourceSettled(NoteSweep(s, rule.thresholdMs, now), rule.thresholdMs, now)
  {
    var noted := NoteSweep(s, rule.thresholdMs, now);
    assert forall k | k in s.raw :: k in s.raw.Keys;
    JudgedOnline(c, s, rule, order, now);
    assert Judged(c, noted, rule, order, now).raw.Keys == s.raw.Keys by { JudgedKeepsFleet(c, noted, rule, order, now); }
    assert id in Judged(c, noted, rule, order, now).raw.Keys;
  }

  lemma {:induction false} FeedStaysConsistent(c: Config, s: Store, feed: seq<Arrival>)
    requires Decorates(c) && Consistent(c, s)
    ensures Consistent(c, AfterFeed(c, s, feed))
  {
    if feed != [] {
      var init, a := feed[..|feed| - 1], feed[|feed| - 1];
      FeedStaysConsistent(c, s, init);
      PayloadKeepsConsistent(c, AfterFeed(c, s, init), Live(a.frame, a.receivedAt), [], a.now);
    }
  }

  /** A sweep after the first `n` frames, with the source and the sweeps before it anyhow. */
  datatype Check = Check(n: nat, now: int, source: Option<int>, lastSweep: Option<int>)

  ghost predicate CheckedOffline(
    c: Config, s: Store, id: DeviceId, feed: seq<Arrival>, rule: OfflineRule, order: seq<DeviceId>, check: Check)
  {
    && check.n <= |feed| && (check.n > 0 ==> feed[check.n - 1].now <= check.now)
    && TakenOffline(c, WithHistory(AfterFeed(c, s, feed[..check.n]), check.source, check.lastSweep),
                    id, rule, order, check.now)
  }

  /** Nothing from the vehicle had arrived in the window. */
  predicate SilentOnArrival(feed: seq<Arrival>, rule: OfflineRule, check: Check)
    requires check.n <= |feed|
  {
    forall j | 0 <= j < check.n :: feed[j].receivedAt < check.now - rule.thresholdMs
  }

  ghost predicate VerdictsRestOnArrivals(
    c: Config, s: Store, id: DeviceId, feed: seq<Arrival>, rule: OfflineRule, order: seq<DeviceId>)
  {
    forall check | CheckedOffline(c, s, id, feed, rule, order, check) :: SilentOnArrival(feed, rule, check)
  }

  /**
   * A frame of the feed that goes unheard: it is behind, it arrived after its newest predecessor, an
   * online one, was taken, and it waited in the queue no longer than the window.
   */
  predicate Overlooked(c: Config, feed: seq<Arrival>, thresholdMs: int, j: nat, k: nat) {
    && j < |feed| && IsNewest(c, feed, j, k) && Behind(c, feed, j)
    && feed[k].frame.online
    && feed[k].now < feed[j].receivedAt && feed[j].now <= feed[j].receivedAt + thresholdMs
  }

  /** No over-long gap since the sweep before, and the source up for the whole window. */
  predicate Settled(rule: OfflineRule, check: Check) {
    && check.source.Some? && check.now - check.source.value >= rule.thresholdMs
    && (check.lastSweep.Some? && check.now - check.lastSweep.value > rule.thresholdMs ==> rule.thresholdMs <= 0)
  }

  lemma SettledSweep(s: Store, rule: OfflineRule, check: Check)
    ensures Settled(rule, check) <==>
              SourceSettled(NoteSweep(WithHistory(s, check.source, check.lastSweep), rule.thresholdMs, check.now),
                            rule.thresholdMs, check.now)
  {}

  /** The verdict on a vehicle whose newest frame is this one. */
  predicate Judges(a: Arrival, rule: OfflineRule, check: Check) {
    a.frame.online && check.now - a.now > rule.thresholdMs && Settled(rule, check)
  }

  lemma CheckDecides(
    c: Config, s: Store, after: Store, id: DeviceId, rule: OfflineRule, order: seq<DeviceId>, check: Check, a: Arrival)
    requires Decorates(c) && Consistent(c, after) && HeardWith(c, s, id, a, after)
    requires Walks(order, s.raw.Keys + {id})
    ensures TakenOffline(c, WithHistory(after, check.source, check.lastSweep), id, rule, order, check.now)
       <==> Judges(a, rule, check)
  {
    assert id in after.raw.Keys;
    SettledSweep(after, rule, check);
    TakenOfflineBySilence(c, WithHistory(after, check.source, check.lastSweep), id, rule, order, check.now);
  }

  lemma NewestOfPart(c: Config, s: Store, id: DeviceId, feed: seq<Arrival>, n: nat) returns (k: nat)
    requires MayJoin(c, s, id) && IsFeed(feed, id) && 0 < n <= |feed|
    ensures IsNewest(c, feed, n, k)
    ensures HeardWith(c, s, id, feed[k], AfterFeed(c, s, feed[..n])) && Consistent(c, AfterFeed(c, s, feed[..n]))
  {
    k := FeedIsTaken(c, s, id, feed[..n]);
    NewestInPrefix(c, feed, n);
    FeedStaysConsistent(c, s, feed[..n]);
  }

  lemma PartDecides(
    c: Config, s: Store, id: DeviceId, feed: seq<Arrival>, rule: OfflineRule, order: seq<DeviceId>, check: Check)
    returns (k: nat)
    requires MayJoin(c, s, id) && IsFeed(feed, id) && Walks(order, s.raw.Keys + {id}) && 0 < check.n <= |feed|
    ensures IsNewest(c, feed, check.n, k)
    ensures var after := WithHistory(AfterFeed(c, s, feed[..check.n]), check.source, check.lastSweep);
            TakenOffline(c, after, id, rule, order, check.now) <==> Judges(feed[k], rule, check)
  {
    k := NewestOfPart(c, s, id, feed, check.n);
    CheckDecides(c, s, AfterFeed(c, s, feed[..check.n]), id, rule, order, check, feed[k]);
  }

  /** A sweep after `n` frames decides by the newest of them. */
  lemma CheckedByNewest(
    c: Config, s: Store, id: DeviceId, feed: seq<Arrival>, rule: OfflineRule, order: seq<DeviceId>, check: Check)
    returns (k: nat)
    requires MayJoin(c, s, id) && IsFeed(feed, id) && Walks(order, s.raw.Keys + {id})
    requires 0 < check.n <= |feed| && feed[check.n - 1].now <= check.now
    ensures IsNewest(c, feed, check.n, k)
    ensures CheckedOffline(c, s, id, feed, rule, order, check) <==> Judges(feed[k], rule, check)
  {
    k := PartDecides(c, s, id, feed, rule, order, check);
  }

  /** A verdict that an arrival contradicts: the arrival was overlooked. */
  lemma ContradictedIsOverlooked(c: Config, feed: seq<Arrival>, id: DeviceId, rule: OfflineRule, check: Check, k: nat, j: nat)
    requires IsFeed(feed, id) && 0 < check.n <= |feed| && feed[check.n - 1].now <= check.now
    requires IsNewest(c, feed, check.n, k) && Judges(feed[k], rule, check)
    requires j < check.n && feed[j].receivedAt >= check.now - rule.thresholdMs
    ensures Overlooked(c, feed, rule.thresholdMs, j, k)
  {
    assert k < j;
  }

  lemma UnheardIsOverlooked(
    c: Config, s: Store, id: DeviceId, feed: seq<Arrival>, rule: OfflineRule, order: seq<DeviceId>, check: Check, j: nat)
    requires MayJoin(c, s, id) && IsFeed(feed, id) && Walks(order, s.raw.Keys + {id})
    requires CheckedOffline(c, s, id, feed, rule, order, check)
    requires j < check.n && feed[j].receivedAt >= check.now - rule.thresholdMs
    ensures exists k :: Overlooked(c, feed, rule.thresholdMs, j, k)
  {
    var k := CheckedByNewest(c, s, id, feed, rule, order, check);
    ContradictedIsOverlooked(c, feed, id, rule, check, k, j);
  }

  /** The sweep that judges an overlooked frame's vehicle, as soon as the window allows. */
  lemma CheckAfter(c: Config, feed: seq<Arrival>, rule: OfflineRule, j: nat, k: nat) returns (check: Check)
    requires Overlooked(c, feed, rule.thresholdMs, j, k)
    ensures check.n == j + 1 && feed[j].now <= check.now
    ensures Judges(feed[k], rule, check) && !SilentOnArrival(feed, rule, check)
  {
    var now := Max(feed[j].now, feed[k].now + rule.thresholdMs + 1);
    check := Check(j + 1, now, Some(now - rule.thresholdMs), None);
    assert feed[j].receivedAt >= now - rule.thresholdMs;
  }

  lemma NewestGoesOn(c: Config, feed: seq<Arrival>, j: nat, k: nat)
    requires j < |feed| && IsNewest(c, feed, j, k) && Behind(c, feed, j)
    ensures IsNewest(c, feed, j + 1, k)
  {}

  lemma NewestIsOne(c: Config, feed: seq<Arrival>, n: nat, j: nat, k: nat)
    requires n <= |feed| && IsNewest(c, feed, n, j) && IsNewest(c, feed, n, k)
    ensures j == k
  {}

  lemma JudgedMeansChecked(
    c: Config, s: Store, id: DeviceId, feed: seq<Arrival>, rule: OfflineRule, order: seq<DeviceId>, check: Check, k: nat)
    requires MayJoin(c, s, id) && IsFeed(feed, id) && Walks(order, s.raw.Keys + {id})
    requires 0 < check.n <= |feed| && feed[check.n - 1].now <= check.now
    requires IsNewest(c, feed, check.n, k) && Judges(feed[k], rule, check)
    ensures CheckedOffline(c, s, id, feed, rule, order, check)
  {
    var newest := CheckedByNewest(c, s, id, feed, rule, order, check);
    assert newest == k by { NewestIsOne(c, feed, check.n, newest, k); }
  }

  lemma OverlookedIsUnheard(
    c: Config, s: Store, id: DeviceId, feed: seq<Arrival>, rule: OfflineRule, order: seq<DeviceId>, j: nat, k: nat)
    requires MayJoin(c, s, id) && IsFeed(feed, id) && Walks(order, s.raw.Keys + {id})
    requires Overlooked(c, feed, rule.thresholdMs, j, k)
    ensures !VerdictsRestOnArrivals(c, s, id, feed, rule, order)
  {
    var check := CheckAfter(c, feed, rule, j, k);
    NewestGoesOn(c, feed, j, k);
    JudgedMeansChecked(c, s, id, feed, rule, order, check, k);
  }

  /**
   * For any live frames of one vehicle, in any order of stamps and with any wait in the queue: every
   * verdict of a sweep after any part of them rests on a whole window without an arrival, if and only
   * if no frame of them is overlooked.
   */
  lemma VerdictsRestOnArrivalsIff(
    c: Config, s: Store, id: DeviceId, feed: seq<Arrival>, rule: OfflineRule, order: seq<DeviceId>)
    requires MayJoin(c, s, id) && IsFeed(feed, id) && Walks(order, s.raw.Keys + {id})
    ensures VerdictsRestOnArrivals(c, s, id, feed, rule, order)
       <==> !exists j, k :: Overlooked(c, feed, rule.thresholdMs, j, k)
  {
    if j, k :| Overlooked(c, feed, rule.thresholdMs, j, k) {
      OverlookedIsUnheard(c, s, id, feed, rule, order, j, k);
    } else {
      forall check | CheckedOffline(c, s, id, feed, rule, order, check) ensures SilentOnArrival(feed, rule, check) {
        forall j | 0 <= j < check.n ensures feed[j].receivedAt < check.now - rule.thresholdMs {
          if feed[j].receivedAt >= check.now - rule.thresholdMs {
            UnheardIsOverlooked(c, s, id, feed, rule, order, check, j);
          }
        }
      }
    }
  }

  /** Online frames that arrive one after another and are taken at once. */
  predicate TakenAtOnce(feed: seq<Arrival>) {
    && (forall k | 0 <= k < |feed| :: feed[k].frame.online && feed[k].receivedAt == feed[k].now)
    && (forall j, k | 0 <= j < k < |feed| :: feed[j].now < feed[k].now)
  }

  predicate StampsAdvance(c: Config, feed: seq<Arrival>) {
    forall j, k | 0 <= j < k < |feed| :: Stamp(c, feed[j]) <= Stamp(c, feed[k])
  }

  lemma {:induction false} SomeNewest(c: Config, feed: seq<Arrival>, n: nat) returns (k: nat)
    requires 0 < n <= |feed|
    ensures IsNewest(c, feed, n, k)
  {
    if n == 1 || !Behind(c, feed, n - 1) {
      k := n - 1;
    } else {
      k := SomeNewest(c, feed, n - 1);
    }
  }

  /** For frames taken at once, the verdicts rest on arrivals if and only if no trusted stamp goes back. */
  lemma VerdictsRestIffStampsAdvance(
    c: Config, s: Store, id: DeviceId, feed: seq<Arrival>, rule: OfflineRule, order: seq<DeviceId>)
    requires MayJoin(c, s, id) && IsFeed(feed, id) && Walks(order, s.raw.Keys + {id})
    requires TakenAtOnce(feed) && rule.thresholdMs >= 0
    ensures VerdictsRestOnArrivals(c, s, id, feed, rule, order) <==> StampsAdvance(c, feed)
  {
    VerdictsRestOnArrivalsIff(c, s, id, feed, rule, order);
    if j, k :| 0 <= j < k < |feed| && Stamp(c, feed[j]) > Stamp(c, feed[k]) {
      var newest := SomeNewest(c, feed, k);
      assert Overlooked(c, feed, rule.thresholdMs, k, newest);
    }
  }
}
