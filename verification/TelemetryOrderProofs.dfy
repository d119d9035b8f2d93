/** With one insert and one flush at a time the write-behind buffer stays in arrival order. */
module TelemetryOrderProofs {
  import opened Wrappers
  import opened TelemetrySteps
  import opened TelemetryProofs

  predicate Ascending(docs: seq<Sample>) {
    forall i, j | 0 <= i < j < |docs| :: docs[i].arrival < docs[j].arrival
  }

  predicate Below(docs: seq<Sample>, bound: nat) {
    forall i | 0 <= i < |docs| :: docs[i].arrival < bound
  }

  predicate Ordered(docs: seq<Sample>, bound: nat) {
    Ascending(docs) && Below(docs, bound)
  }

  function Flying(s: Buffer): seq<Sample> {
    if s.flushing == [] then [] else s.flushing[0]
  }

  /** The flush in flight, if there is one, then the buffer, then the insert in flight. */
  function Line(s: Buffer): seq<Sample> {
    Flying(s) + s.pending + s.inserting
  }

  predicate InArrivalOrder(s: Buffer) {
    |s.flushing| <= 1 && |s.inserting| <= 1 && Ordered(Line(s), |s.accepted|)
  }

  /** What is kept to one at a time: frames, as the store's queue hands them over, and flushes. */
  datatype Serial = Serial(inserts: bool, flushes: bool)

  predicate Allowed(serial: Serial, s: Buffer, step: Step) {
    && (serial.inserts && step.Arrive? ==> s.inserting == [])
    && (serial.flushes && step.StartFlush? ==> s.flushing == [])
  }

  predicate AllowedRun(serial: Serial, steps: seq<Step>, limit: int) {
    steps == [] ||
    (AllowedRun(serial, steps[..|steps| - 1], limit)
     && Allowed(serial, Run(EMPTY, steps[..|steps| - 1], limit), steps[|steps| - 1]))
  }

  // Lists that stay in order.

  lemma CutMiddle(front: seq<Sample>, rest: seq<Sample>, cut: nat, bound: nat)
    requires Ordered(front + rest, bound) && cut <= |rest|
    ensures Ordered(front + rest[cut..], bound)
  {
    var all, after := front + rest, front + rest[cut..];
    assert forall i | 0 <= i < |after| :: after[i] == all[if i < |front| then i else i + cut];
  }

  lemma CutEnd(front: seq<Sample>, rest: seq<Sample>, bound: nat)
    requires Ordered(front + rest, bound)
    ensures Ordered(front, bound)
  {
    assert forall i | 0 <= i < |front| :: (front + rest)[i] == front[i];
  }

  lemma ReplaceFront(front: seq<Sample>, thin: seq<Sample>, rest: seq<Sample>, bound: nat)
    requires Ordered(front + rest, bound)
    requires Ascending(thin) && forall i | 0 <= i < |thin| :: thin[i] in front
    ensures Ordered(thin + rest, bound)
  {
    var all, after := front + rest, thin + rest;
    forall i | 0 <= i < |thin| ensures thin[i].arrival < bound {
      var k :| 0 <= k < |front| && front[k] == thin[i];
      assert all[k] == thin[i];
    }
    forall i, j | 0 <= i < |thin| && 0 <= j < |rest| ensures thin[i].arrival < rest[j].arrival {
      var k :| 0 <= k < |front| && front[k] == thin[i];
      assert all[k] == thin[i] && all[|front| + j] == rest[j];
    }
    forall j | 0 <= j < |rest| ensures rest[j].arrival < bound {
      assert all[|front| + j] == rest[j];
    }
    forall i, j | 0 <= i < j < |rest| ensures rest[i].arrival < rest[j].arrival {
      assert all[|front| + i] == rest[i] && all[|front| + j] == rest[j];
    }
  }

  lemma {:induction false} PickThins(batch: seq<Sample>, chosen: set<nat>)
    requires Ascending(batch)
    ensures Ascending(Pick(batch, chosen))
    ensures forall i | 0 <= i < |Pick(batch, chosen)| :: Pick(batch, chosen)[i] in batch
  {
    if batch != [] {
      var front, last := batch[..|batch| - 1], batch[|batch| - 1];
      PickThins(front, chosen);
      assert forall doc <- front :: doc in batch && doc.arrival < last.arrival;
    }
  }

  // Steps.

  lemma PushKeepsOrder(s: Buffer, doc: Sample, limit: int)
    requires |s.flushing| <= 1 && s.inserting == []
    requires Ordered(Flying(s) + (s.pending + [doc]), |s.accepted|)
    ensures InArrivalOrder(Push(s, doc, limit))
  {
    var all := s.pending + [doc];
    var after := Push(s, doc, limit);
    var overflow := |all| - limit;
    var cut := if overflow <= 0 then 0 else Min(overflow, |all|);
    assert after.pending == all[cut..];
    CutMiddle(Flying(s), all, cut, |s.accepted|);
    assert Line(after) == Flying(s) + all[cut..];
  }

  lemma ArrivalKeepsOrder(s: Buffer, frame: string, connected: bool, limit: int)
    requires InArrivalOrder(s) && s.inserting == []
    ensures InArrivalOrder(Apply(s, Arrive(frame, connected), limit))
  {
    var doc := Sample(|s.accepted|, frame);
    var taken := s.(accepted := s.accepted + [doc]);
    assert Line(s) == Flying(s) + s.pending;
    if connected {
      assert Line(taken.(inserting := [doc])) == Flying(s) + s.pending + [doc];
    } else {
      assert Flying(s) + s.pending + [doc] == Flying(s) + (s.pending + [doc]);
      PushKeepsOrder(taken, doc, limit);
    }
  }

  lemma InsertSettlesInOrder(s: Buffer, step: Step, limit: int)
    requires InArrivalOrder(s) && (step.InsertDone? || step.InsertFailed?)
    ensures InArrivalOrder(Apply(s, step, limit))
  {
    if step.k < |s.inserting| {
      var doc := s.inserting[0];
      assert s.inserting == [doc] && Drop(s.inserting, 0) == [];
      if step.InsertDone? {
        CutEnd(Flying(s) + s.pending, [doc], |s.accepted|);
        assert Line(Apply(s, step, limit)) == Flying(s) + s.pending;
      } else {
        assert Line(s) == Flying(s) + (s.pending + [doc]);
        var failed := s.(inserting := []);
        PushKeepsOrder(
          if step.landed then failed.(written := s.written + [doc], twice := s.twice + [doc]) else failed, doc, limit);
      }
    }
  }

  lemma ThinnedLineKeepsOrder(batch: seq<Sample>, thin: seq<Sample>, rest: seq<Sample>, cut: nat, bound: nat)
    requires Ordered(batch + rest, bound) && cut <= |thin + rest|
    requires Ascending(thin) && forall i | 0 <= i < |thin| :: thin[i] in batch
    ensures Ordered((thin + rest)[cut..], bound)
  {
    ReplaceFront(batch, thin, rest, bound);
    assert [] + (thin + rest) == thin + rest;
    CutMiddle([], thin + rest, cut, bound);
    assert [] + (thin + rest)[cut..] == (thin + rest)[cut..];
  }

  lemma UnwrittenThins(batch: seq<Sample>, failure: Failure)
    requires Ascending(batch)
    ensures Ascending(Unwritten(batch, failure))
    ensures forall i | 0 <= i < |Unwritten(batch, failure)| :: Unwritten(batch, failure)[i] in batch
  {
    if Tells(failure) { PickThins(batch, failure.failed); }
  }

  lemma RequeuedLineKeepsOrder(s: Buffer, batch: seq<Sample>, thin: seq<Sample>, limit: int)
    requires s.flushing == [] && |s.inserting| <= 1
    requires Ordered(batch + (s.pending + s.inserting), |s.accepted|)
    requires Ascending(thin) && forall i | 0 <= i < |thin| :: thin[i] in batch
    ensures InArrivalOrder(Requeue(s, thin, limit))
  {
    var rest := s.pending + s.inserting;
    var cut := RequeueCuts(s, thin, limit);
    ThinnedLineKeepsOrder(batch, thin, rest, cut, |s.accepted|);
    assert [] + (thin + s.pending)[cut..] + s.inserting == (thin + rest)[cut..];
  }

  lemma RequeueKeepsOrder(s: Buffer, failure: Failure, reached: set<nat>, limit: int)
    requires InArrivalOrder(s) && |s.flushing| == 1
    ensures InArrivalOrder(Apply(s, FlushFailed(0, failure, reached), limit))
  {
    var batch, rest := s.flushing[0], s.pending + s.inserting;
    var arrived := Pick(batch, Landed(batch, failure, reached));
    var settled := s.(
      flushing := [],
      written := s.written + arrived,
      twice := if Tells(failure) then s.twice else s.twice + arrived);
    assert Drop(s.flushing, 0) == [];
    assert Line(s) == batch + rest;
    CutEnd(batch, rest, |s.accepted|);
    UnwrittenThins(batch, failure);
    RequeuedLineKeepsOrder(settled, batch, Unwritten(batch, failure), limit);
  }

  lemma FlushSettlesInOrder(s: Buffer, limit: int)
    requires InArrivalOrder(s) && |s.flushing| == 1
    ensures InArrivalOrder(Apply(s, FlushDone(0), limit))
  {
    var after := Apply(s, FlushDone(0), limit);
    var batch, rest := s.flushing[0], s.pending + s.inserting;
    assert Drop(s.flushing, 0) == [];
    assert Line(s) == batch + rest && [] + Line(s) == Line(s);
    CutMiddle([], Line(s), |batch|, |s.accepted|);
    assert Line(after) == [] + Line(s)[|batch|..];
  }

  lemma SerialStepKeepsOrder(s: Buffer, step: Step, limit: int)
    requires InArrivalOrder(s) && Allowed(Serial(true, true), s, step)
    ensures InArrivalOrder(Apply(s, step, limit))
  {
    match step
    case Arrive(frame, connected) => ArrivalKeepsOrder(s, frame, connected, limit);
    case InsertDone(_) => InsertSettlesInOrder(s, step, limit);
    case InsertFailed(_, _) => InsertSettlesInOrder(s, step, limit);
    case StartFlush => assert Line(Apply(s, StartFlush, limit)) == Line(s);
    case FlushDone(k) => if k < |s.flushing| { FlushSettlesInOrder(s, limit); }
    case FlushFailed(k, failure, reached) => if k < |s.flushing| { RequeueKeepsOrder(s, failure, reached, limit); }
  }

  /** Through every failure the buffer stays in arrival order, and everything in flight before it or after it too. */
  lemma {:induction false} SerialRunsKeepOrder(steps: seq<Step>, limit: int)
    requires AllowedRun(Serial(true, true), steps, limit)
    ensures InArrivalOrder(Run(EMPTY, steps, limit)) && Ascending(Run(EMPTY, steps, limit).pending)
  {
    if steps != [] {
      SerialRunsKeepOrder(steps[..|steps| - 1], limit);
      SerialStepKeepsOrder(Run(EMPTY, steps[..|steps| - 1], limit), steps[|steps| - 1], limit);
    }
    var last := Run(EMPTY, steps, limit);
    CutEnd(Flying(last) + last.pending, last.inserting, |last.accepted|);
    assert [] + (Flying(last) + last.pending) == Flying(last) + last.pending;
    CutMiddle([], Flying(last) + last.pending, |Flying(last)|, |last.accepted|);
    assert [] + (Flying(last) + last.pending)[|Flying(last)|..] == last.pending;
  }

  lemma {:induction false} PickNone(batch: seq<Sample>)
    ensures Pick(batch, {}) == []
  {
    if batch != [] { PickNone(batch[..|batch| - 1]); }
  }

  /** A run that is allowed and ends here. */
  predicate Reaches(serial: Serial, steps: seq<Step>, limit: int, s: Buffer) {
    AllowedRun(serial, steps, limit) && Run(EMPTY, steps, limit) == s
  }

  lemma ReachesNext(serial: Serial, steps: seq<Step>, limit: int, s: Buffer, step: Step, next: Buffer)
    requires Reaches(serial, steps, limit, s) && Allowed(serial, s, step) && Apply(s, step, limit) == next
    ensures Reaches(serial, steps + [step], limit, next)
  {
    assert (steps + [step])[..|steps|] == steps;
  }

  /** A second flush started before the first has failed leaves the buffer out of order. */
  lemma TwoFlushesBreakTheOrder(frame: string, limit: int) returns (steps: seq<Step>)
    requires limit >= 2
    ensures AllowedRun(Serial(true, false), steps, limit) && !Ascending(Run(EMPTY, steps, limit).pending)
  {
    var serial, arrive, fail := Serial(true, false), Arrive(frame, false), FlushFailed(0, Blind, {});
    var one, two := Sample(0, frame), Sample(1, frame);
    PickNone([one]);
    PickNone([two]);
    var s1 := EMPTY.(accepted := [one], pending := [one]);
    var s2 := s1.(pending := [], flushing := [[one]]);
    var s3 := s2.(accepted := [one, two], pending := [two]);
    var s4 := s3.(pending := [], flushing := [[one], [two]]);
    var s5 := s4.(pending := [one], flushing := [[two]]);
    assert Apply(s4, fail, limit) == s5 by { assert Drop(s4.flushing, 0) == [[two]]; }
    ReachesNext(serial, [], limit, EMPTY, arrive, s1);
    ReachesNext(serial, [] + [arrive], limit, s1, StartFlush, s2);
    ReachesNext(serial, [] + [arrive] + [StartFlush], limit, s2, arrive, s3);
    ReachesNext(serial, [] + [arrive] + [StartFlush] + [arrive], limit, s3, StartFlush, s4);
    ReachesNext(serial, [] + [arrive] + [StartFlush] + [arrive] + [StartFlush], limit, s4, fail, s5);
    var last := Apply(s5, fail, limit);
    ReachesNext(serial, [] + [arrive] + [StartFlush] + [arrive] + [StartFlush] + [fail], limit, s5, fail, last);
    steps := [] + [arrive] + [StartFlush] + [arrive] + [StartFlush] + [fail] + [fail];
    assert last.pending == [two, one];
    assert last.pending[1].arrival < last.pending[0].arrival;
  }

  /** So does a second insert that fails before the first. */
  lemma TwoInsertsBreakTheOrder(frame: string, limit: int) returns (steps: seq<Step>)
    requires limit >= 2
    ensures AllowedRun(Serial(false, true), steps, limit) && !Ascending(Run(EMPTY, steps, limit).pending)
  {
    var serial, arrive := Serial(false, true), Arrive(frame, true);
    var one, two := Sample(0, frame), Sample(1, frame);
    var s1 := EMPTY.(accepted := [one], inserting := [one]);
    var s2 := s1.(accepted := [one, two], inserting := [one, two]);
    var s3 := s2.(inserting := [one], pending := [two]);
    var s4 := s3.(inserting := [], pending := [two, one]);
    assert Drop(s2.inserting, 1) == [one] && Drop(s3.inserting, 0) == [];
    ReachesNext(serial, [], limit, EMPTY, arrive, s1);
    ReachesNext(serial, [] + [arrive], limit, s1, arrive, s2);
    ReachesNext(serial, [] + [arrive] + [arrive], limit, s2, InsertFailed(1, false), s3);
    ReachesNext(serial, [] + [arrive] + [arrive] + [InsertFailed(1, false)], limit, s3, InsertFailed(0, false), s4);
    steps := [] + [arrive] + [arrive] + [InsertFailed(1, false)] + [InsertFailed(0, false)];
    assert s4.pending[1].arrival < s4.pending[0].arrival;
  }

  lemma {:induction false} StricterRun(serial: Serial, weaker: Serial, steps: seq<Step>, limit: int)
    requires AllowedRun(serial, steps, limit)
    requires (weaker.inserts ==> serial.inserts) && (weaker.flushes ==> serial.flushes)
    ensures AllowedRun(weaker, steps, limit)
  {
    if steps != [] { StricterRun(serial, weaker, steps[..|steps| - 1], limit); }
  }

  ghost predicate AlwaysInOrder(serial: Serial, limit: int) {
    forall steps | AllowedRun(serial, steps, limit) :: Ascending(Run(EMPTY, steps, limit).pending)
  }

  /**
   * Every allowed interleaving keeps the buffer in arrival order, if and only if both inserts and flushes
   * go one at a time, or the buffer never holds two documents.
   */
  lemma OrderNeedsBothIff(serial: Serial, limit: int)
    ensures AlwaysInOrder(serial, limit) <==> (serial.inserts && serial.flushes) || limit <= 1
  {
    if serial.inserts && serial.flushes {
      forall steps | AllowedRun(serial, steps, limit) ensures Ascending(Run(EMPTY, steps, limit).pending) {
        SerialRunsKeepOrder(steps, limit);
      }
    } else if limit <= 1 {
      forall steps | AllowedRun(serial, steps, limit) ensures Ascending(Run(EMPTY, steps, limit).pending) {
        CounterIsExactIff(steps, limit);
      }
    } else if serial.inserts {
      var steps := TwoFlushesBreakTheOrder("", limit);
      StricterRun(Serial(true, false), serial, steps, limit);
    } else {
      var steps := TwoInsertsBreakTheOrder("", limit);
      StricterRun(Serial(false, true), serial, steps, limit);
    }
  }
}
