/**
 * The telemetry write-behind buffer (`backend/src/persistence.ts`, `writeTelemetry`,
 * `bufferTelemetry`, `flushPendingTelemetry`, `unwrittenDocuments`).
 *
 * Single inserts and bulk flushes stay in flight while other steps happen; what MongoDB did with
 * them is decided when they settle. `accepted`, `lost` and `twice` record history: every document
 * taken in, every document the cap forced out, and every document that landed and was queued again.
 */
module TelemetrySteps {
  import opened Wrappers

  datatype Sample = Sample(arrival: nat, frame: string)

  datatype Buffer = Buffer(
    pending: seq<Sample>,
    inserting: seq<Sample>,
    flushing: seq<seq<Sample>>,
    written: seq<Sample>,
    dropped: int,
    accepted: seq<Sample>,
    lost: seq<Sample>,
    twice: seq<Sample>)

  const EMPTY := Buffer([], [], [], [], 0, [], [], [])

  /** `MongoBulkWriteError`: the failing indexes are listed, or nothing is known. */
  datatype Failure = Listed(failed: set<nat>) | Blind

  predicate Tells(failure: Failure) {
    failure.Listed? && failure.failed != {}
  }

  /** The documents at the chosen indexes, in order. */
  function Pick(batch: seq<Sample>, chosen: set<nat>): seq<Sample> {
    if batch == [] then []
    else
      var front := Pick(batch[..|batch| - 1], chosen);
      if |batch| - 1 in chosen then front + [batch[|batch| - 1]] else front
  }

  function Others(count: nat, chosen: set<nat>): (r: set<nat>)
    ensures forall i: nat :: i in r <==> i < count && i !in chosen
  {
    if count == 0 then {}
    else if count - 1 in chosen then Others(count - 1, chosen)
    else Others(count - 1, chosen) + {count - 1}
  }

  function Unwritten(batch: seq<Sample>, failure: Failure): seq<Sample> {
    if Tells(failure) then Pick(batch, failure.failed) else batch
  }

  /** The indexes that landed: those not listed as failed, or, when nothing is known, any. */
  function Landed(batch: seq<Sample>, failure: Failure, landed: set<nat>): set<nat> {
    if Tells(failure) then Others(|batch|, failure.failed) else landed
  }

  /** JavaScript's `slice(start)`: a negative start counts from the end. */
  function SliceFrom(docs: seq<Sample>, start: int): seq<Sample> {
    if start >= 0 then (if start <= |docs| then docs[start..] else [])
    else if -start <= |docs| then docs[|docs| + start..]
    else docs
  }

  function Push(s: Buffer, doc: Sample, limit: int): Buffer {
    var pending := s.pending + [doc];
    var overflow := |pending| - limit;
    if overflow <= 0 then s.(pending := pending)
    else
      var cut := Min(overflow, |pending|);
      s.(pending := pending[cut..], lost := s.lost + pending[..cut], dropped := s.dropped + overflow)
  }

  function Requeue(s: Buffer, failed: seq<Sample>, limit: int): Buffer {
    var requeued := failed + s.pending;
    var kept := SliceFrom(requeued, -limit);
    var overflow := |requeued| - limit;
    s.(pending := kept,
       lost := s.lost + requeued[..|requeued| - |kept|],
       dropped := if overflow > 0 then s.dropped + overflow else s.dropped)
  }

  datatype Step =
    | Arrive(frame: string, connected: bool)
    | InsertDone(k: nat)
    | InsertFailed(k: nat, landed: bool)
    | StartFlush
    | FlushDone(k: nat)
    | FlushFailed(k: nat, failure: Failure, reached: set<nat>)

  function Drop<T>(items: seq<T>, k: nat): seq<T>
    requires k < |items|
  {
    items[..k] + items[k + 1..]
  }

  function Apply(s: Buffer, step: Step, limit: int): Buffer {
    match step
    case Arrive(frame, connected) =>
      var doc := Sample(|s.accepted|, frame);
      var taken := s.(accepted := s.accepted + [doc]);
      if connected then taken.(inserting := s.inserting + [doc]) else Push(taken, doc, limit)
    case InsertDone(k) =>
      if k >= |s.inserting| then s
      else s.(inserting := Drop(s.inserting, k), written := s.written + [s.inserting[k]])
    case InsertFailed(k, landed) =>
      if k >= |s.inserting| then s
      else
        var doc := s.inserting[k];
        var failed := s.(inserting := Drop(s.inserting, k));
        Push(if landed then failed.(written := s.written + [doc], twice := s.twice + [doc]) else failed, doc, limit)
    case StartFlush =>
      if s.pending == [] then s else s.(pending := [], flushing := s.flushing + [s.pending])
    case FlushDone(k) =>
      if k >= |s.flushing| then s
      else s.(flushing := Drop(s.flushing, k), written := s.written + s.flushing[k])
    case FlushFailed(k, failure, landed) =>
      if k >= |s.flushing| then s
      else
        var batch := s.flushing[k];
        var arrived := Pick(batch, Landed(batch, failure, landed));
        var settled := s.(
          flushing := Drop(s.flushing, k),
          written := s.written + arrived,
          twice := if Tells(failure) then s.twice else s.twice + arrived);
        Requeue(settled, Unwritten(batch, failure), limit)
  }

  function Run(s: Buffer, steps: seq<Step>, limit: int): Buffer {
    if steps == [] then s else Apply(Run(s, steps[..|steps| - 1], limit), steps[|steps| - 1], limit)
  }
}
