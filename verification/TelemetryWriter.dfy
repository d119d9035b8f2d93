/**
 * The write-behind half of `backend/src/persistence.ts` as an object. Each `await` splits a method in
 * two: the write is put in flight, and another method settles it. `written` is the collection.
 */
module TelemetryWriter {
  import opened Wrappers
  import opened TelemetrySteps

  method UnwrittenDocuments(batch: seq<Sample>, failure: Failure) returns (left: seq<Sample>)
    ensures left == Unwritten(batch, failure)
  {
    if failure.Blind? || failure.failed == {} { return batch; }
    left := [];
    for i := 0 to |batch|
      invariant left == Pick(batch[..i], failure.failed)
    {
      assert batch[..i + 1][..i] == batch[..i];
      if i in failure.failed { left := left + [batch[i]]; }
    }
    assert batch[..|batch|] == batch;
  }

  class Writer {
    const limit: int
    var pending: seq<Sample>
    var inserting: seq<Sample>
    var flushing: seq<seq<Sample>>
    var written: seq<Sample>
    var dropped: int
    var arrivals: nat
    ghost var accepted: seq<Sample>
    ghost var lost: seq<Sample>
    ghost var twice: seq<Sample>

    ghost function State(): Buffer
      reads this
    {
      Buffer(pending, inserting, flushing, written, dropped, accepted, lost, twice)
    }

    ghost predicate Valid()
      reads this
    {
      arrivals == |accepted|
    }

    constructor (limit: int)
      ensures Valid() && State() == EMPTY && this.limit == limit
    {
      this.limit := limit;
      pending, inserting, flushing, written, dropped, arrivals := [], [], [], [], 0, 0;
      accepted, lost, twice := [], [], [];
    }

    method BufferTelemetry(document: Sample)
      modifies `pending, `dropped, `lost
      ensures State() == Push(old(State()), document, limit)
    {
      pending := pending + [document];
      var overflow := |pending| - limit;
      if overflow > 0 {
        var cut := Min(overflow, |pending|);
        lost := lost + pending[..cut];
        pending := pending[cut..];
        dropped := dropped + overflow;
      }
    }

    method WriteTelemetry(frame: string, connected: bool)
      requires Valid()
      modifies this
      ensures Valid() && State() == Apply(old(State()), Arrive(frame, connected), limit)
    {
      var document := Sample(arrivals, frame);
      arrivals, accepted := arrivals + 1, accepted + [document];
      if connected {
        inserting := inserting + [document];
      } else {
        BufferTelemetry(document);
      }
    }

    method InsertSettled(k: nat)
      requires Valid()
      modifies this
      ensures Valid() && State() == Apply(old(State()), InsertDone(k), limit)
    {
      if k < |inserting| {
        written := written + [inserting[k]];
        inserting := inserting[..k] + inserting[k + 1..];
      }
    }

    method InsertRejected(k: nat, landed: bool)
      requires Valid()
      modifies this
      ensures Valid() && State() == Apply(old(State()), InsertFailed(k, landed), limit)
    {
      if k < |inserting| {
        var document := inserting[k];
        inserting := inserting[..k] + inserting[k + 1..];
        if landed {
          written := written + [document];
          twice := twice + [document];
        }
        BufferTelemetry(document);
      }
    }

    method FlushPendingTelemetry()
      requires Valid()
      modifies this
      ensures Valid() && State() == Apply(old(State()), StartFlush, limit)
    {
      if pending == [] { return; }
      var copy := pending;
      pending := [];
      flushing := flushing + [copy];
    }

    method FlushSettled(k: nat)
      requires Valid()
      modifies this
      ensures Valid() && State() == Apply(old(State()), FlushDone(k), limit)
    {
      if k < |flushing| {
        written := written + flushing[k];
        flushing := flushing[..k] + flushing[k + 1..];
      }
    }

    method FlushRejected(k: nat, failure: Failure, reached: set<nat>)
      requires Valid()
      modifies this
      ensures Valid() && State() == Apply(old(State()), FlushFailed(k, failure, reached), limit)
    {
      if k < |flushing| {
        var batch := flushing[k];
        var arrived := Pick(batch, Landed(batch, failure, reached));
        flushing := flushing[..k] + flushing[k + 1..];
        written := written + arrived;
        if !Tells(failure) { twice := twice + arrived; }
        var failed := UnwrittenDocuments(batch, failure);
        var requeued := failed + pending;
        var overflow := |requeued| - limit;
        if overflow > 0 { dropped := dropped + overflow; }
        pending := SliceFrom(requeued, -limit);
        lost := lost + requeued[..|requeued| - |pending|];
      }
    }
  }
}
