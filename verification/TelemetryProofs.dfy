/** No accepted telemetry document is lost without being counted, and the buffer stays bounded. */
module TelemetryProofs {
  import opened Wrappers
  import opened TelemetrySteps

  // Conservation, document by document.

  function Count(docs: seq<Sample>, doc: Sample): nat {
    multiset(docs)[doc]
  }

  function CountAll(batches: seq<seq<Sample>>, doc: Sample): nat {
    if batches == [] then 0 else CountAll(batches[..|batches| - 1], doc) + Count(batches[|batches| - 1], doc)
  }

  /** How many copies can be accounted for: stored, buffered, in flight, or forced out by the cap. */
  function Places(s: Buffer, doc: Sample): nat {
    Count(s.written, doc) + Count(s.pending, doc) + Count(s.inserting, doc) + CountAll(s.flushing, doc) + Count(s.lost, doc)
  }

  /** Every accepted document is somewhere, once more for each time it landed and was queued again. */
  predicate Conserved(s: Buffer, doc: Sample) {
    Count(s.accepted, doc) + Count(s.twice, doc) == Places(s, doc)
  }

  lemma CountSplit(docs: seq<Sample>, k: nat, doc: Sample)
    requires k <= |docs|
    ensures Count(docs, doc) == Count(docs[..k], doc) + Count(docs[k..], doc)
  {
    assert docs == docs[..k] + docs[k..];
  }

  lemma CountDrop(items: seq<Sample>, k: nat, doc: Sample)
    requires k < |items|
    ensures Count(items, doc) == Count(Drop(items, k), doc) + Count([items[k]], doc)
  {
    assert items == items[..k] + ([items[k]] + items[k + 1..]);
  }

  lemma {:induction false} CountAllAppend(a: seq<seq<Sample>>, b: seq<seq<Sample>>, doc: Sample)
    ensures CountAll(a + b, doc) == CountAll(a, doc) + CountAll(b, doc)
  {
    if b == [] {
      assert a + b == a;
    } else {
      CountAllAppend(a, b[..|b| - 1], doc);
      assert (a + b)[..|a + b| - 1] == a + b[..|b| - 1];
    }
  }

  lemma CountAllOne(batch: seq<Sample>, doc: Sample)
    ensures CountAll([batch], doc) == Count(batch, doc)
  {
    assert [batch][..0] == [];
  }

  lemma CountAllDrop(batches: seq<seq<Sample>>, k: nat, doc: Sample)
    requires k < |batches|
    ensures CountAll(batches, doc) == CountAll(Drop(batches, k), doc) + Count(batches[k], doc)
  {
    assert batches == batches[..k] + ([batches[k]] + batches[k + 1..]);
    CountAllAppend(batches[..k], [batches[k]] + batches[k + 1..], doc);
    CountAllAppend([batches[k]], batches[k + 1..], doc);
    CountAllAppend(batches[..k], batches[k + 1..], doc);
    CountAllOne(batches[k], doc);
  }

  lemma {:induction false} PickSplits(batch: seq<Sample>, chosen: set<nat>, others: set<nat>, doc: Sample)
    requires forall i: nat | i < |batch| :: i in others <==> i !in chosen
    ensures Count(batch, doc) == Count(Pick(batch, chosen), doc) + Count(Pick(batch, others), doc)
  {
    if batch != [] {
      var front, last := batch[..|batch| - 1], [batch[|batch| - 1]];
      PickSplits(front, chosen, others, doc);
      assert batch == front + last;
    }
  }

  lemma PushPlaces(s: Buffer, added: Sample, limit: int, doc: Sample)
    ensures Places(Push(s, added, limit), doc) == Places(s, doc) + Count([added], doc)
  {
    var pending := s.pending + [added];
    var overflow := |pending| - limit;
    if overflow > 0 {
      var cut := Min(overflow, |pending|);
      CountSplit(pending, cut, doc);
    }
  }

  /** Requeueing cuts the list at one point: the newest part is kept, the rest is lost. */
  lemma RequeueCuts(s: Buffer, failed: seq<Sample>, limit: int) returns (cut: nat)
    ensures cut <= |failed + s.pending|
    ensures var after := Requeue(s, failed, limit);
            after == s.(pending := (failed + s.pending)[cut..], lost := s.lost + (failed + s.pending)[..cut],
                        dropped := after.dropped)
  {
    var requeued := failed + s.pending;
    cut := |requeued| - |SliceFrom(requeued, -limit)|;
    assert requeued[cut..] == SliceFrom(requeued, -limit);
  }

  lemma RequeuePlaces(s: Buffer, failed: seq<Sample>, limit: int, doc: Sample)
    ensures Places(Requeue(s, failed, limit), doc) == Places(s, doc) + Count(failed, doc)
  {
    var cut := RequeueCuts(s, failed, limit);
    CountSplit(failed + s.pending, cut, doc);
  }

  /** What a failed flush writes and queues again is the batch, plus once more what landed unseen. */
  lemma FailedBatchSplits(batch: seq<Sample>, failure: Failure, reached: set<nat>, doc: Sample)
    ensures var arrived := Count(Pick(batch, Landed(batch, failure, reached)), doc);
            arrived + Count(Unwritten(batch, failure), doc)
            == Count(batch, doc) + if Tells(failure) then 0 else arrived
  {
    if Tells(failure) {
      PickSplits(batch, failure.failed, Others(|batch|, failure.failed), doc);
    }
  }

  lemma FailedFlushConserves(s: Buffer, k: nat, failure: Failure, reached: set<nat>, limit: int, doc: Sample)
    requires Conserved(s, doc) && k < |s.flushing|
    ensures Conserved(Apply(s, FlushFailed(k, failure, reached), limit), doc)
  {
    var batch := s.flushing[k];
    var arrived := Pick(batch, Landed(batch, failure, reached));
    var settled := s.(
      flushing := Drop(s.flushing, k),
      written := s.written + arrived,
      twice := if Tells(failure) then s.twice else s.twice + arrived);
    CountAllDrop(s.flushing, k, doc);
    FailedBatchSplits(batch, failure, reached, doc);
    RequeuePlaces(settled, Unwritten(batch, failure), limit, doc);
  }

  lemma FailedInsertConserves(s: Buffer, k: nat, landed: bool, limit: int, doc: Sample)
    requires Conserved(s, doc) && k < |s.inserting|
    ensures Conserved(Apply(s, InsertFailed(k, landed), limit), doc)
  {
    var added := s.inserting[k];
    CountDrop(s.inserting, k, doc);
    var failed := s.(inserting := Drop(s.inserting, k));
    var settled := if landed then failed.(written := s.written + [added], twice := s.twice + [added]) else failed;
    LandedTwice(failed, added, doc);
    PushPlaces(settled, added, limit, doc);
    assert Apply(s, InsertFailed(k, landed), limit) == Push(settled, added, limit);
  }

  /** What landed unseen is in one place more, and counted as such. */
  lemma LandedTwice(s: Buffer, added: Sample, doc: Sample)
    ensures var landed := s.(written := s.written + [added], twice := s.twice + [added]);
            && Places(landed, doc) == Places(s, doc) + Count([added], doc)
            && Count(landed.twice, doc) == Count(s.twice, doc) + Count([added], doc)
  {}

  lemma ArrivalConserves(s: Buffer, frame: string, connected: bool, limit: int, doc: Sample)
    requires Conserved(s, doc)
    ensures Conserved(Apply(s, Arrive(frame, connected), limit), doc)
  {
    var added := Sample(|s.accepted|, frame);
    if !connected { PushPlaces(s.(accepted := s.accepted + [added]), added, limit, doc); }
  }

  lemma FlushConserves(s: Buffer, limit: int, doc: Sample)
    requires Conserved(s, doc)
    ensures Conserved(Apply(s, StartFlush, limit), doc)
  {
    CountAllAppend(s.flushing, [s.pending], doc);
    CountAllOne(s.pending, doc);
  }

  lemma StepConserves(s: Buffer, step: Step, limit: int, doc: Sample)
    requires Conserved(s, doc)
    ensures Conserved(Apply(s, step, limit), doc)
  {
    match step
    case Arrive(frame, connected) => ArrivalConserves(s, frame, connected, limit, doc);
    case InsertDone(k) =>
      if k < |s.inserting| {
        CountDrop(s.inserting, k, doc);
      }
    case InsertFailed(k, landed) => if k < |s.inserting| { FailedInsertConserves(s, k, landed, limit, doc); }
    case StartFlush => FlushConserves(s, limit, doc);
    case FlushDone(k) =>
      if k < |s.flushing| {
        CountAllDrop(s.flushing, k, doc);
      }
    case FlushFailed(k, failure, reached) =>
      if k < |s.flushing| { FailedFlushConserves(s, k, failure, reached, limit, doc); }
  }

  /**
   * Over any run, with any number of inserts and flushes in flight and any failures, every accepted
   * document is written, pending, in flight or dropped; it is in more than one place only if it
   * landed without the server saying so.
   */
  lemma {:induction false} RunsConserve(steps: seq<Step>, limit: int, doc: Sample)
    ensures Conserved(Run(EMPTY, steps, limit), doc)
  {
    if steps != [] {
      RunsConserve(steps[..|steps| - 1], limit, doc);
      StepConserves(Run(EMPTY, steps[..|steps| - 1], limit), steps[|steps| - 1], limit, doc);
    }
  }

  predicate Known(step: Step) {
    (step.InsertFailed? ==> !step.landed) && (step.FlushFailed? ==> Tells(step.failure))
  }

  lemma {:induction false} KnownRunsRepeatNothing(steps: seq<Step>, limit: int)
    requires forall step <- steps :: Known(step)
    ensures Run(EMPTY, steps, limit).twice == []
  {
    if steps != [] {
      assert steps[|steps| - 1] in steps;
      KnownRunsRepeatNothing(steps[..|steps| - 1], limit);
    }
  }

  /** When the outcome of every write is known, each accepted document is in exactly one place. */
  lemma KnownOutcomesPlaceEachOnce(steps: seq<Step>, limit: int, doc: Sample)
    requires forall step <- steps :: Known(step)
    ensures Count(Run(EMPTY, steps, limit).accepted, doc) == Places(Run(EMPTY, steps, limit), doc)
  {
    RunsConserve(steps, limit, doc);
    KnownRunsRepeatNothing(steps, limit);
  }

  // The bound and the counter.

  /** What the cap keeps true, for a limit of either sign. */
  predicate Capped(s: Buffer, limit: int) {
    && |s.pending| <= (if limit > 0 then limit else 0)
    && (limit <= 0 ==> s.flushing == [])
    && s.dropped == |s.lost| * (if limit >= 0 then 1 else 1 - limit)
  }

  lemma PushKeepsCap(s: Buffer, doc: Sample, limit: int)
    requires Capped(s, limit)
    ensures Capped(Push(s, doc, limit), limit)
  {
    var after := Push(s, doc, limit);
    if limit < 0 {
      assert s.pending == [] && |after.lost| == |s.lost| + 1;
      assert after.dropped == |s.lost| * (1 - limit) + (1 - limit) == (|s.lost| + 1) * (1 - limit);
    }
  }

  lemma StepKeepsCap(s: Buffer, step: Step, limit: int)
    requires Capped(s, limit)
    ensures Capped(Apply(s, step, limit), limit)
  {
    match step
    case Arrive(frame, connected) =>
      var doc := Sample(|s.accepted|, frame);
      if !connected { PushKeepsCap(s.(accepted := s.accepted + [doc]), doc, limit); }
    case InsertDone(_) =>
    case InsertFailed(k, landed) =>
      if k < |s.inserting| {
        var doc := s.inserting[k];
        var failed := s.(inserting := Drop(s.inserting, k));
        PushKeepsCap(if landed then failed.(written := s.written + [doc], twice := s.twice + [doc]) else failed, doc, limit);
      }
    case StartFlush =>
    case FlushDone(_) =>
    case FlushFailed(_, _, _) =>
  }

  lemma {:induction false} RunsKeepCap(s: Buffer, steps: seq<Step>, limit: int)
    requires Capped(s, limit)
    ensures Capped(Run(s, steps, limit), limit)
  {
    if steps != [] {
      RunsKeepCap(s, steps[..|steps| - 1], limit);
      StepKeepsCap(Run(s, steps[..|steps| - 1], limit), steps[|steps| - 1], limit);
    }
  }

  /**
   * The buffer never holds more than its limit, and the drop counter is the number of documents
   * dropped exactly when the limit is not negative or nothing was dropped.
   */
  lemma CounterIsExactIff(steps: seq<Step>, limit: int)
    ensures var s := Run(EMPTY, steps, limit);
            && |s.pending| <= (if limit > 0 then limit else 0)
            && (s.dropped == |s.lost| <==> limit >= 0 || s.lost == [])
  {
    RunsKeepCap(EMPTY, steps, limit);
    var s := Run(EMPTY, steps, limit);
    Grows(|s.lost|, if limit >= 0 then 1 else 1 - limit);
  }

  lemma Grows(count: nat, factor: int)
    requires factor >= 1
    ensures count * factor == count <==> count == 0 || factor == 1
  {}
}
