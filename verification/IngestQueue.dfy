/** The queue the store serializes its mutations with: its fields and its loops. */
module IngestQueue {
  import opened Wrappers
  import opened QueueSteps

  class MutationQueue {
    const limit: nat
    var queue: seq<Mutation>
    var pumping: bool
    var droppedMutations: nat
    // How each mutation was settled.
    var running: Option<Mutation>
    var ran: seq<Mutation>
    var shed: seq<Mutation>
    var arrived: nat

    function State(): Queue
      reads this
    {
      Queue(queue, running, pumping, ran, shed, arrived)
    }

    /** The drop counter on `/metrics` is exact. */
    predicate Valid()
      reads this
    {
      droppedMutations == |shed|
    }

    constructor (limit: nat)
      ensures this.limit == limit && State() == EMPTY && Valid()
    {
      this.limit := limit;
      queue, pumping, droppedMutations, running, ran, shed, arrived := [], false, 0, None, [], [], 0;
    }

    method Push(sheddable: bool)
      requires Valid()
      modifies this
      ensures Valid() && State() == Apply(old(State()), Enqueued(sheddable), limit)
    {
      queue := queue + [Mutation(arrived, sheddable)];
      arrived := arrived + 1;
      DropOverflow();
      if !pumping {
        TakeTurn();
      }
    }

    /** Drop the oldest sheddable mutations until the queue fits or nothing droppable is left. */
    method DropOverflow()
      requires Valid()
      modifies this
      ensures Valid() && State() == ShedOverflow(old(State()), limit)
    {
      var dropped := 0;
      while |queue| > limit
        invariant droppedMutations + dropped == |shed|
        invariant ShedOverflow(State(), limit) == ShedOverflow(old(State()), limit)
        decreases |queue|
      {
        var index := FindSheddable();
        if index < 0 {
          break;
        }
        shed := shed + [queue[index]];
        queue := queue[..index] + queue[index + 1..];
        dropped := dropped + 1;
      }
      droppedMutations := droppedMutations + dropped;
    }

    method FindSheddable() returns (index: int)
      ensures index == if FirstSheddable(queue) < |queue| then FirstSheddable(queue) else -1
    {
      for i := 0 to |queue|
        invariant FirstSheddable(queue) == i + FirstSheddable(queue[i..])
      {
        if queue[i].sheddable {
          return i;
        }
        assert queue[i..][1..] == queue[i + 1..];
      }
      return -1;
    }

    /** The pump's loop body up to its await, or its exit. */
    method TakeTurn()
      requires Valid()
      modifies this
      ensures Valid() && State() == PumpTurn(old(State()))
    {
      if queue == [] {
        pumping := false;
      } else {
        pumping := true;
        running, queue := Some(queue[0]), queue[1..];
      }
    }

    /** The running mutation settled its caller. */
    method Settle()
      requires Valid() && running.Some?
      modifies this
      ensures Valid() && State() == Apply(old(State()), Finished, limit)
    {
      ran, running := ran + [running.value], None;
    }

    method ResumePump()
      requires Valid() && pumping && running.None?
      modifies this
      ensures Valid() && State() == Apply(old(State()), PumpResumed, limit)
    {
      TakeTurn();
    }
  }
}
