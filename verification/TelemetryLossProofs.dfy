/** What the write-behind buffer gives up: only when it is full, and then its oldest documents. */
module TelemetryLossProofs {
  import opened Wrappers
  import opened TelemetrySteps
  import opened TelemetryProofs
  import opened TelemetryOrderProofs

  /** The last documents, as many as the limit allows. */
  function Newest(docs: seq<Sample>, limit: int): seq<Sample> {
    if limit <= 0 then [] else if |docs| <= limit then docs else docs[|docs| - limit..]
  }

  /** A step that puts these documents at the end, or these ones back at the front, of the buffer keeps the newest. */
  ghost predicate KeepsTheNewest(before: Buffer, docs: seq<Sample>, after: Buffer, limit: int) {
    && after.pending == Newest(docs, limit)
    && after.lost == before.lost + docs[..|docs| - |after.pending|]
  }

  /**
   * A frame that finds no database, or whose insert fails, goes to the end of the buffer, which keeps its newest
   * documents up to the limit and loses the others.
   */
  lemma BufferedFramesPushOutTheOldest(s: Buffer, frame: string, k: nat, landed: bool, limit: int)
    ensures var doc := Sample(|s.accepted|, frame);
            KeepsTheNewest(s, s.pending + [doc], Apply(s, Arrive(frame, false), limit), limit)
    ensures k < |s.inserting| ==>
              KeepsTheNewest(s, s.pending + [s.inserting[k]], Apply(s, InsertFailed(k, landed), limit), limit)
  {}

  /** The documents of a failed flush that are queued again: those listed as failed, or all of them. */
  function Failed(batch: seq<Sample>, failure: Failure): seq<Sample> {
    if failure.Listed? && failure.failed != {} then Chosen(batch, failure.failed) else batch
  }

  function Chosen(batch: seq<Sample>, indexes: set<nat>): seq<Sample> {
    if batch == [] then []
    else Chosen(batch[..|batch| - 1], indexes) + if |batch| - 1 in indexes then [batch[|batch| - 1]] else []
  }

  lemma {:induction false} PickedAreChosen(batch: seq<Sample>, indexes: set<nat>)
    ensures Pick(batch, indexes) == Chosen(batch, indexes)
  {
    if batch != [] { PickedAreChosen(batch[..|batch| - 1], indexes); }
  }

  lemma UnwrittenAreFailed(batch: seq<Sample>, failure: Failure)
    ensures Unwritten(batch, failure) == Failed(batch, failure)
  {
    if failure.Listed? { PickedAreChosen(batch, failure.failed); }
  }

  lemma RequeueKeepsTheNewest(s: Buffer, failed: seq<Sample>, limit: int)
    requires limit > 0
    ensures KeepsTheNewest(s, failed + s.pending, Requeue(s, failed, limit), limit)
  {}

  /**
   * A failed flush goes back to the front of the buffer, which again keeps its newest documents up to the limit.
   * Without a positive limit nothing is ever buffered, so nothing is flushed.
   */
  lemma FailedFlushesAreCutFirst(s: Buffer, k: nat, failure: Failure, reached: set<nat>, limit: int)
    requires k < |s.flushing| && limit > 0
    ensures KeepsTheNewest(s, Failed(s.flushing[k], failure) + s.pending, Apply(s, FlushFailed(k, failure, reached), limit), limit)
  {
    var batch := s.flushing[k];
    var arrived := Pick(batch, Landed(batch, failure, reached));
    var settled := s.(flushing := Drop(s.flushing, k), written := s.written + arrived,
                      twice := if Tells(failure) then s.twice else s.twice + arrived);
    UnwrittenAreFailed(batch, failure);
    RequeueKeepsTheNewest(settled, Unwritten(batch, failure), limit);
  }

  // Over runs.

  predicate Older(docs: seq<Sample>, others: seq<Sample>) {
    forall i, j | 0 <= i < |docs| && 0 <= j < |others| :: docs[i].arrival < others[j].arrival
  }

  /**
   * What is lost is older than what is buffered or being inserted. It is older than what is being flushed too,
   * unless the buffer is full, and then a flush that fails finds no room.
   */
  predicate OldestGone(s: Buffer, limit: int) {
    && Older(s.lost, s.pending) && Older(s.lost, s.inserting) && Below(s.lost, |s.accepted|)
    && (Older(s.lost, Flying(s)) || |s.pending| >= limit)
    && (limit <= 0 ==> s.pending == [] && s.flushing == [])
  }

  lemma OlderWhenCut(lost: seq<Sample>, docs: seq<Sample>, cut: nat)
    requires Older(lost, docs) && Ascending(docs) && cut <= |docs|
    ensures Older(lost + docs[..cut], docs[cut..])
  {}

  lemma BelowWhenCut(lost: seq<Sample>, docs: seq<Sample>, cut: nat, bound: nat)
    requires Below(lost, bound) && Below(docs, bound) && cut <= |docs|
    ensures Below(lost + docs[..cut], bound)
  {}

  lemma OrderedParts(left: seq<Sample>, right: seq<Sample>, bound: nat)
    requires Ordered(left + right, bound)
    ensures Ordered(left, bound) && Ordered(right, bound) && Older(left, right)
  {
    forall i | 0 <= i < |left| ensures (left + right)[i] == left[i] {}
    forall j | 0 <= j < |right| ensures (left + right)[|left| + j] == right[j] {}
  }

  lemma OlderParts(docs: seq<Sample>, left: seq<Sample>, right: seq<Sample>)
    ensures Older(docs, left + right) <==> Older(docs, left) && Older(docs, right)
  {
    if Older(docs, left + right) {
      forall i, j | 0 <= i < |docs| && 0 <= j < |left| ensures docs[i].arrival < left[j].arrival {
        assert (left + right)[j] == left[j];
      }
      forall i, j | 0 <= i < |docs| && 0 <= j < |right| ensures docs[i].arrival < right[j].arrival {
        assert (left + right)[|left| + j] == right[j];
      }
    }
  }

  lemma LineParts(s: Buffer)
    requires InArrivalOrder(s)
    ensures Ordered(s.pending + s.inserting, |s.accepted|) && Ordered(Flying(s), |s.accepted|)
    ensures Older(Flying(s), s.pending) && Older(s.pending, s.inserting) && Older(Flying(s), s.inserting)
  {
    assert Line(s) == Flying(s) + (s.pending + s.inserting);
    OrderedParts(Flying(s), s.pending + s.inserting, |s.accepted|);
    OrderedParts(s.pending, s.inserting, |s.accepted|);
    OlderParts(Flying(s), s.pending, s.inserting);
  }

  /** A document newer than the buffer pushes out its oldest. */
  lemma PushLosesTheOldest(s: Buffer, doc: Sample, limit: int)
    requires s.inserting == [] && OldestGone(s, limit) && Older(s.lost, [doc])
    requires Ascending(s.pending + [doc]) && Below(s.pending + [doc], |s.accepted|)
    ensures OldestGone(Push(s, doc, limit), limit)
  {
    var all, after := s.pending + [doc], Push(s, doc, limit);
    var cut := if |all| <= limit then 0 else if limit <= 0 then |all| else |all| - limit;
    assert Older(s.lost, all);
    OlderWhenCut(s.lost, all, cut);
    BelowWhenCut(s.lost, all, cut, |s.accepted|);
    assert after.pending == all[cut..] && after.lost == s.lost + all[..cut];
  }

  lemma OrderedPush(s: Buffer, doc: Sample)
    requires InArrivalOrder(s) && s.inserting == [doc]
    ensures Ascending(s.pending + [doc]) && Below(s.pending + [doc], |s.accepted|)
  {
    LineParts(s);
  }

  lemma ArrivalLosesTheOldest(s: Buffer, frame: string, connected: bool, limit: int)
    requires InArrivalOrder(s) && s.inserting == [] && OldestGone(s, limit)
    ensures OldestGone(Apply(s, Arrive(frame, connected), limit), limit)
  {
    var doc := Sample(|s.accepted|, frame);
    var taken := s.(accepted := s.accepted + [doc]);
    LineParts(s);
    assert s.pending + s.inserting == s.pending;
    if !connected { PushLosesTheOldest(taken, doc, limit); }
  }

  lemma InsertLosesTheOldest(s: Buffer, landed: bool, limit: int)
    requires InArrivalOrder(s) && |s.inserting| == 1 && OldestGone(s, limit)
    ensures OldestGone(Apply(s, InsertFailed(0, landed), limit), limit)
  {
    var doc := s.inserting[0];
    assert s.inserting == [doc] && Drop(s.inserting, 0) == [];
    OrderedPush(s, doc);
    var failed := s.(inserting := []);
    PushLosesTheOldest(if landed then failed.(written := s.written + [doc], twice := s.twice + [doc]) else failed, doc, limit);
  }

  lemma {:induction false} PickIsInside(batch: seq<Sample>, chosen: set<nat>)
    ensures forall doc <- Pick(batch, chosen) :: doc in batch
  {
    if batch != [] {
      PickIsInside(batch[..|batch| - 1], chosen);
      assert batch == batch[..|batch| - 1] + [batch[|batch| - 1]];
    }
  }

  lemma OlderThanPart(lost: seq<Sample>, batch: seq<Sample>, part: seq<Sample>)
    requires Older(lost, batch) && forall doc <- part :: doc in batch
    ensures Older(lost, part)
  {
    forall i, j | 0 <= i < |lost| && 0 <= j < |part| ensures lost[i].arrival < part[j].arrival {
      assert part[j] in batch;
      var k :| 0 <= k < |batch| && batch[k] == part[j];
    }
  }

  lemma PartBeforeRest(batch: seq<Sample>, part: seq<Sample>, rest: seq<Sample>, bound: nat)
    requires Ascending(part) && Ascending(rest) && Older(batch, rest) && Below(batch, bound) && Below(rest, bound)
    requires forall doc <- part :: doc in batch
    ensures Ascending(part + rest) && Below(part + rest, bound)
  {
    forall i | 0 <= i < |part| ensures part[i].arrival < bound && forall j | 0 <= j < |rest| :: part[i].arrival < rest[j].arrival {
      assert part[i] in batch;
      var k :| 0 <= k < |batch| && batch[k] == part[i];
    }
  }

  /** The documents of a failed flush go back to the front and are the first to be cut. */
  lemma RequeueLosesTheOldest(s: Buffer, batch: seq<Sample>, part: seq<Sample>, limit: int)
    requires s.flushing == [] && limit > 0 && Older(s.lost, s.pending) && Older(s.lost, s.inserting)
    requires Older(s.lost, batch) || |s.pending| >= limit
    requires Below(s.lost, |s.accepted|) && Below(part + s.pending, |s.accepted|)
    requires Ascending(part + s.pending) && Older(part + s.pending, s.inserting) && forall doc <- part :: doc in batch
    ensures OldestGone(Requeue(s, part, limit), limit)
  {
    var all, after := part + s.pending, Requeue(s, part, limit);
    var cut := if |all| <= limit then 0 else |all| - limit;
    assert after.pending == all[cut..] && after.lost == s.lost + all[..cut];
    if Older(s.lost, batch) {
      OlderThanPart(s.lost, batch, part);
      OlderWhenCut(s.lost, all, cut);
    } else {
      assert all[cut..] == s.pending[|s.pending| - limit..];
      forall i, j | 0 <= i < |after.lost| && 0 <= j < |after.pending| ensures after.lost[i].arrival < after.pending[j].arrival {
        if i >= |s.lost| { assert after.lost[i] == all[i - |s.lost|] && after.pending[j] == all[cut + j]; }
      }
    }
    BelowWhenCut(s.lost, all, cut, |s.accepted|);
  }

  lemma FailedFlushLosesTheOldest(s: Buffer, failure: Failure, reached: set<nat>, limit: int)
    requires InArrivalOrder(s) && |s.flushing| == 1 && OldestGone(s, limit)
    ensures OldestGone(Apply(s, FlushFailed(0, failure, reached), limit), limit)
  {
    var batch := s.flushing[0];
    var part, arrived := Unwritten(batch, failure), Pick(batch, Landed(batch, failure, reached));
    LineParts(s);
    UnwrittenThins(batch, failure);
    PickIsInside(batch, if failure.Listed? then failure.failed else {});
    PendingIsOrdered(s);
    PartBeforeRest(batch, part, s.pending, |s.accepted|);
    OlderTogether(batch, part, s.pending, s.inserting);
    var settled := s.(flushing := [], written := s.written + arrived,
                      twice := if Tells(failure) then s.twice else s.twice + arrived);
    assert Drop(s.flushing, 0) == [];
    RequeueLosesTheOldest(settled, batch, part, limit);
  }

  lemma PendingIsOrdered(s: Buffer)
    requires InArrivalOrder(s)
    ensures Ascending(s.pending) && Below(s.pending, |s.accepted|)
  {
    LineParts(s);
    OrderedParts(s.pending, s.inserting, |s.accepted|);
  }

  lemma OlderTogether(batch: seq<Sample>, part: seq<Sample>, rest: seq<Sample>, others: seq<Sample>)
    requires Older(batch, others) && Older(rest, others) && forall doc <- part :: doc in batch
    ensures Older(part + rest, others)
  {
    forall i, j | 0 <= i < |part| && 0 <= j < |others| ensures part[i].arrival < others[j].arrival {
      assert part[i] in batch;
      var k :| 0 <= k < |batch| && batch[k] == part[i];
    }
  }

  lemma FlushTakesTheBuffer(s: Buffer, limit: int)
    requires s.flushing == [] && OldestGone(s, limit)
    ensures OldestGone(Apply(s, StartFlush, limit), limit)
  {}

  lemma FlushIsOver(s: Buffer, limit: int)
    requires |s.flushing| == 1 && OldestGone(s, limit)
    ensures OldestGone(Apply(s, FlushDone(0), limit), limit)
  {
    assert Drop(s.flushing, 0) == [];
  }

  lemma SerialStepLosesTheOldest(s: Buffer, step: Step, limit: int)
    requires InArrivalOrder(s) && OldestGone(s, limit) && Allowed(Serial(true, true), s, step)
    ensures OldestGone(Apply(s, step, limit), limit)
  {
    match step
    case Arrive(frame, connected) => ArrivalLosesTheOldest(s, frame, connected, limit);
    case InsertDone(k) => if k < |s.inserting| { assert Drop(s.inserting, 0) == []; }
    case InsertFailed(k, landed) => if k < |s.inserting| { InsertLosesTheOldest(s, landed, limit); }
    case StartFlush => FlushTakesTheBuffer(s, limit);
    case FlushDone(k) => if k < |s.flushing| { FlushIsOver(s, limit); }
    case FlushFailed(k, failure, reached) => if k < |s.flushing| { FailedFlushLosesTheOldest(s, failure, reached, limit); }
  }

  /** With one insert and one flush at a time, every document given up is older than every one still buffered. */
  lemma {:induction false} SerialRunsLoseTheOldest(steps: seq<Step>, limit: int)
    requires AllowedRun(Serial(true, true), steps, limit)
    ensures var s := Run(EMPTY, steps, limit); OldestGone(s, limit) && Older(s.lost, s.pending)
  {
    if steps != [] {
      SerialRunsLoseTheOldest(steps[..|steps| - 1], limit);
      SerialRunsKeepOrder(steps[..|steps| - 1], limit);
      SerialStepLosesTheOldest(Run(EMPTY, steps[..|steps| - 1], limit), steps[|steps| - 1], limit);
    }
  }
}
