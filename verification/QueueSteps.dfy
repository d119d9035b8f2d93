/**
 * The store's serial mutation queue (`backend/src/store.ts`, `enqueue` / `pump` / `shedOverflow`).
 *
 * A mutation may arrive while another runs, and between a run and the pump's next turn. Mutations
 * are numbered in arrival order; `ran` and `shed` record how each was settled.
 */
module QueueSteps {
  import opened Wrappers

  datatype Mutation = Mutation(id: nat, sheddable: bool)

  datatype Queue = Queue(
    waiting: seq<Mutation>,
    running: Option<Mutation>,
    pumping: bool,
    ran: seq<Mutation>,
    shed: seq<Mutation>,
    arrived: nat)

  const EMPTY := Queue([], None, false, [], [], 0)

  /** The oldest sheddable mutation's position, or the length when there is none. */
  function FirstSheddable(waiting: seq<Mutation>): (index: nat)
    ensures index <= |waiting|
    ensures index < |waiting| ==> waiting[index].sheddable
    ensures forall i | 0 <= i < index :: !waiting[i].sheddable
  {
    if waiting == [] then 0
    else if waiting[0].sheddable then 0
    else 1 + FirstSheddable(waiting[1..])
  }

  function ShedOverflow(q: Queue, limit: nat): Queue
    decreases |q.waiting|
  {
    var index := FirstSheddable(q.waiting);
    if |q.waiting| <= limit || index == |q.waiting| then q
    else
      ShedOverflow(q.(waiting := q.waiting[..index] + q.waiting[index + 1..], shed := q.shed + [q.waiting[index]]), limit)
  }

  /** The pump's turn: start the oldest waiting mutation, or go idle. */
  function PumpTurn(q: Queue): Queue {
    if q.waiting == [] then q.(pumping := false)
    else q.(pumping := true, running := Some(q.waiting[0]), waiting := q.waiting[1..])
  }

  function Enqueue(q: Queue, sheddable: bool, limit: nat): Queue {
    var pushed := q.(waiting := q.waiting + [Mutation(q.arrived, sheddable)], arrived := q.arrived + 1);
    var kept := ShedOverflow(pushed, limit);
    if kept.pumping then kept else PumpTurn(kept)
  }

  datatype Step = Enqueued(sheddable: bool) | Finished | PumpResumed

  function Apply(q: Queue, step: Step, limit: nat): Queue {
    match step
    case Enqueued(sheddable) => Enqueue(q, sheddable, limit)
    case Finished => if q.running.None? then q else q.(running := None, ran := q.ran + [q.running.value])
    case PumpResumed => if q.pumping && q.running.None? then PumpTurn(q) else q
  }

  function Run(q: Queue, steps: seq<Step>, limit: nat): Queue {
    if steps == [] then q else Apply(Run(q, steps[..|steps| - 1], limit), steps[|steps| - 1], limit)
  }
}
