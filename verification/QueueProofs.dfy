/** What the mutation queue promises over every interleaving of arrivals with a running task. */
module QueueProofs {
  import opened Wrappers
  import opened QueueSteps

  /** Everything not shed, in the order it runs: what ran, what is running, what waits. */
  function Line(q: Queue): seq<Mutation> {
    q.ran + (if q.running.Some? then [q.running.value] else []) + q.waiting
  }

  predicate InArrivalOrder(line: seq<Mutation>) {
    forall i, j | 0 <= i < j < |line| :: line[i].id < line[j].id
  }

  predicate Has(line: seq<Mutation>, id: nat) {
    exists i | 0 <= i < |line| :: line[i].id == id
  }

  /** Each mutation that arrived is in the line or was shed, and not both. */
  ghost predicate SettledOnce(q: Queue) {
    && (forall id: nat :: Has(Line(q), id) || Has(q.shed, id) <==> id < q.arrived)
    && (forall id: nat :: !(Has(Line(q), id) && Has(q.shed, id)))
    && |Line(q)| + |q.shed| == q.arrived
  }

  /** Shedding takes the oldest first: whatever was shed arrived before every sheddable one waiting. */
  predicate ShedOldestFirst(q: Queue) {
    && InArrivalOrder(q.shed)
    && (forall i | 0 <= i < |q.shed| :: q.shed[i].sheddable)
    && (forall i, j | 0 <= i < |q.shed| && 0 <= j < |q.waiting| && q.waiting[j].sheddable ::
          q.shed[i].id < q.waiting[j].id)
  }

  predicate WithinLimit(q: Queue, limit: nat) {
    |q.waiting| <= limit || forall i | 0 <= i < |q.waiting| :: !q.waiting[i].sheddable
  }

  predicate PumpIsAlive(q: Queue) {
    && (q.waiting != [] ==> q.pumping)
    && (q.running.Some? ==> q.pumping)
  }

  ghost predicate Sound(q: Queue, limit: nat) {
    && InArrivalOrder(Line(q)) && SettledOnce(q) && ShedOldestFirst(q) && WithinLimit(q, limit) && PumpIsAlive(q)
  }

  lemma RemovedHas(line: seq<Mutation>, index: nat, id: nat)
    requires index < |line| && InArrivalOrder(line)
    ensures Has(line[..index] + line[index + 1..], id) <==> Has(line, id) && id != line[index].id
  {
    var rest := line[..index] + line[index + 1..];
    if Has(rest, id) {
      var i :| 0 <= i < |rest| && rest[i].id == id;
      assert line[if i < index then i else i + 1].id == id;
    }
    if Has(line, id) && id != line[index].id {
      var i :| 0 <= i < |line| && line[i].id == id;
      assert rest[if i < index then i else i - 1].id == id;
    }
  }

  /** Removing one entry keeps the order and everything else. */
  lemma RemoveAt(line: seq<Mutation>, index: nat)
    requires index < |line| && InArrivalOrder(line)
    ensures InArrivalOrder(line[..index] + line[index + 1..])
    ensures forall id: nat :: Has(line[..index] + line[index + 1..], id) <==> Has(line, id) && id != line[index].id
  {
    forall id: nat
      ensures Has(line[..index] + line[index + 1..], id) <==> Has(line, id) && id != line[index].id
    {
      RemovedHas(line, index, id);
    }
  }

  lemma HasAppend(line: seq<Mutation>, m: Mutation)
    ensures forall id: nat :: Has(line + [m], id) <==> Has(line, id) || id == m.id
  {
    forall id: nat
      ensures Has(line + [m], id) <==> Has(line, id) || id == m.id
    {
      assert (line + [m])[|line|] == m;
      if Has(line, id) {
        var i :| 0 <= i < |line| && line[i].id == id;
        assert (line + [m])[i].id == id;
      }
    }
  }

  /** What a queue keeps between a push and the end of shedding. */
  ghost predicate Orderly(q: Queue) {
    InArrivalOrder(Line(q)) && SettledOnce(q) && ShedOldestFirst(q)
  }

  function ShedOne(q: Queue, index: nat): Queue
    requires index < |q.waiting|
  {
    q.(waiting := q.waiting[..index] + q.waiting[index + 1..], shed := q.shed + [q.waiting[index]])
  }

  lemma ShedOneMovesIt(q: Queue, index: nat)
    requires index < |q.waiting| && InArrivalOrder(Line(q)) && SettledOnce(q)
    ensures InArrivalOrder(Line(ShedOne(q, index))) && SettledOnce(ShedOne(q, index))
  {
    var next := ShedOne(q, index);
    var at := |Line(q)| - |q.waiting| + index;
    assert Line(q)[at] == q.waiting[index];
    assert Line(next) == Line(q)[..at] + Line(q)[at + 1..];
    RemoveAt(Line(q), at);
    HasAppend(q.shed, q.waiting[index]);
    forall id: nat
      ensures Has(Line(next), id) || Has(next.shed, id) <==> id < q.arrived
      ensures !(Has(Line(next), id) && Has(next.shed, id))
    {
      assert Has(Line(q), q.waiting[index].id);
      RemovedHas(Line(q), at, id);
    }
  }

  lemma ShedOneTakesTheOldest(q: Queue, index: nat)
    requires index < |q.waiting| && index == FirstSheddable(q.waiting) && InArrivalOrder(Line(q)) && ShedOldestFirst(q)
    ensures ShedOldestFirst(ShedOne(q, index))
  {
    var next := ShedOne(q, index);
    assert Line(q)[|Line(q)| - |q.waiting| + index] == q.waiting[index];
    forall j | 0 <= j < |next.waiting| && next.waiting[j].sheddable
      ensures q.waiting[index].id < next.waiting[j].id
    {
      assert j >= index;
      assert next.waiting[j] == q.waiting[j + 1];
      assert Line(q)[|Line(q)| - |q.waiting| + j + 1] == q.waiting[j + 1];
    }
  }

  /** Shedding moves the oldest sheddable mutations out of the line until the queue fits. */
  lemma {:induction false} SheddingKeepsSound(q: Queue, limit: nat)
    requires Orderly(q)
    ensures var kept := ShedOverflow(q, limit);
            && Orderly(kept) && WithinLimit(kept, limit)
            && kept.ran == q.ran && kept.running == q.running && kept.pumping == q.pumping
            && kept.arrived == q.arrived
    decreases |q.waiting|
  {
    var index := FirstSheddable(q.waiting);
    if |q.waiting| > limit && index < |q.waiting| {
      ShedOneMovesIt(q, index);
      ShedOneTakesTheOldest(q, index);
      SheddingKeepsSound(ShedOne(q, index), limit);
    }
  }

  function Pushed(q: Queue, sheddable: bool): Queue {
    q.(waiting := q.waiting + [Mutation(q.arrived, sheddable)], arrived := q.arrived + 1)
  }

  lemma PushKeepsOrderly(q: Queue, sheddable: bool)
    requires Orderly(q)
    ensures Orderly(Pushed(q, sheddable))
  {
    var m := Mutation(q.arrived, sheddable);
    assert Line(Pushed(q, sheddable)) == Line(q) + [m];
    HasAppend(Line(q), m);
    forall i | 0 <= i < |Line(q)|
      ensures Line(q)[i].id < q.arrived
    {
      assert Has(Line(q), Line(q)[i].id);
    }
    forall i | 0 <= i < |q.shed|
      ensures q.shed[i].id < q.arrived
    {
      assert Has(q.shed, q.shed[i].id);
    }
  }

  lemma PumpTurnKeepsSound(q: Queue, limit: nat)
    requires InArrivalOrder(Line(q)) && SettledOnce(q) && ShedOldestFirst(q) && WithinLimit(q, limit)
    requires q.running.None?
    ensures Sound(PumpTurn(q), limit)
  {
    assert Line(PumpTurn(q)) == Line(q);
  }

  lemma StepKeepsSound(q: Queue, step: Step, limit: nat)
    requires Sound(q, limit)
    ensures Sound(Apply(q, step, limit), limit)
  {
    match step
    case Enqueued(sheddable) =>
      PushKeepsOrderly(q, sheddable);
      SheddingKeepsSound(Pushed(q, sheddable), limit);
      var kept := ShedOverflow(Pushed(q, sheddable), limit);
      if !kept.pumping {
        PumpTurnKeepsSound(kept, limit);
      }
    case Finished =>
      assert Line(Apply(q, step, limit)) == Line(q);
    case PumpResumed =>
      if q.pumping && q.running.None? {
        PumpTurnKeepsSound(q, limit);
      }
  }

  /**
   * Over every interleaving: each mutation is settled exactly once, runs keep arrival order, only
   * sheddable ones are shed, oldest first, the queue is over its limit only with unsheddable entries,
   * and a non-empty queue has a pump.
   */
  lemma {:induction false} RunsStaySound(steps: seq<Step>, limit: nat)
    ensures Sound(Run(EMPTY, steps, limit), limit)
  {
    if steps == [] {
      assert Line(EMPTY) == [];
    } else {
      RunsStaySound(steps[..|steps| - 1], limit);
      StepKeepsSound(Run(EMPTY, steps[..|steps| - 1], limit), steps[|steps| - 1], limit);
    }
  }

  /** The sheddable mutations, in order. */
  function SheddableOf(waiting: seq<Mutation>): seq<Mutation> {
    if waiting == [] then []
    else (if waiting[0].sheddable then [waiting[0]] else []) + SheddableOf(waiting[1..])
  }

  /** The line without its first `n` sheddable mutations, the rest in order. */
  function WithoutSheddable(waiting: seq<Mutation>, n: nat): seq<Mutation> {
    if waiting == [] then []
    else if n > 0 && waiting[0].sheddable then WithoutSheddable(waiting[1..], n - 1)
    else [waiting[0]] + WithoutSheddable(waiting[1..], n)
  }

  /** How many mutations a line over its limit sheds. */
  function ShedCount(waiting: seq<Mutation>, limit: nat): (n: nat)
    ensures n <= |SheddableOf(waiting)|
  {
    Min(|SheddableOf(waiting)|, Max(0, |waiting| - limit))
  }

  lemma {:induction false} NoneSheddable(waiting: seq<Mutation>)
    requires FirstSheddable(waiting) == |waiting|
    ensures SheddableOf(waiting) == []
  {
    if waiting != [] { NoneSheddable(waiting[1..]); }
  }

  lemma {:induction false} NoneTaken(waiting: seq<Mutation>)
    ensures WithoutSheddable(waiting, 0) == waiting
  {
    if waiting != [] { NoneTaken(waiting[1..]); }
  }

  lemma {:induction false} FirstTaken(waiting: seq<Mutation>, i: nat)
    requires i == FirstSheddable(waiting) < |waiting|
    ensures SheddableOf(waiting) == [waiting[i]] + SheddableOf(waiting[..i] + waiting[i + 1..])
    decreases i
  {
    var rest := waiting[..i] + waiting[i + 1..];
    if i == 0 {
      assert rest == waiting[1..];
    } else {
      FirstTaken(waiting[1..], i - 1);
      assert rest[1..] == waiting[1..][..i - 1] + waiting[1..][i..];
      assert rest[0] == waiting[0] && SheddableOf(rest) == SheddableOf(rest[1..]);
      assert SheddableOf(waiting) == SheddableOf(waiting[1..]);
    }
  }

  lemma {:induction false} FirstGone(waiting: seq<Mutation>, i: nat, n: nat)
    requires i == FirstSheddable(waiting) < |waiting|
    ensures WithoutSheddable(waiting, n + 1) == WithoutSheddable(waiting[..i] + waiting[i + 1..], n)
    decreases i
  {
    var rest := waiting[..i] + waiting[i + 1..];
    if i == 0 {
      assert rest == waiting[1..];
    } else {
      FirstGone(waiting[1..], i - 1, n);
      assert rest[1..] == waiting[1..][..i - 1] + waiting[1..][i..];
    }
  }

  /**
   * What one arrival sheds: of a line over its limit, the oldest sheddable mutations, as many as it is
   * over or as there are. The others stay in order.
   */
  lemma {:induction false} ShedsTheOldest(q: Queue, limit: nat)
    ensures ShedOverflow(q, limit) == ShedFirst(q, ShedCount(q.waiting, limit))
    decreases |q.waiting|
  {
    var index := FirstSheddable(q.waiting);
    if |q.waiting| <= limit || index == |q.waiting| {
      NothingToShed(q, limit);
    } else {
      ShedsTheOldest(ShedOne(q, index), limit);
      OneMoreIsShed(q, limit, index);
    }
  }

  lemma NothingToShed(q: Queue, limit: nat)
    requires |q.waiting| <= limit || FirstSheddable(q.waiting) == |q.waiting|
    ensures ShedOverflow(q, limit) == q == ShedFirst(q, ShedCount(q.waiting, limit))
  {
    if FirstSheddable(q.waiting) == |q.waiting| { NoneSheddable(q.waiting); }
    NoneTaken(q.waiting);
  }

  /** The line without its first `n` sheddable mutations, and those shed in order. */
  function ShedFirst(q: Queue, n: nat): Queue
    requires n <= |SheddableOf(q.waiting)|
  {
    q.(waiting := WithoutSheddable(q.waiting, n), shed := q.shed + SheddableOf(q.waiting)[..n])
  }

  lemma OneMoreIsShed(q: Queue, limit: nat, index: nat)
    requires |q.waiting| > limit && index == FirstSheddable(q.waiting) < |q.waiting|
    ensures ShedFirst(ShedOne(q, index), ShedCount(ShedOne(q, index).waiting, limit))
         == ShedFirst(q, ShedCount(q.waiting, limit))
  {
    var rest := q.waiting[..index] + q.waiting[index + 1..];
    var n := ShedCount(rest, limit);
    assert ShedOne(q, index).waiting == rest;
    FirstTaken(q.waiting, index);
    FirstGone(q.waiting, index, n);
    assert ShedCount(q.waiting, limit) == n + 1;
    TakeOneMore(q.shed, q.waiting[index], SheddableOf(rest), n);
  }

  lemma TakeOneMore(shed: seq<Mutation>, first: Mutation, rest: seq<Mutation>, n: nat)
    requires n <= |rest|
    ensures shed + [first] + rest[..n] == shed + ([first] + rest)[..n + 1]
  {}

  /**
   * An arrival joins the end of the line, and the line sheds if and only if that makes it longer than its limit
   * and something in it can be shed: then the oldest, as many as it is over. An idle pump starts the oldest left.
   */
  lemma ArrivalJoinsTheLine(q: Queue, sheddable: bool, limit: nat)
    ensures var line := q.waiting + [Mutation(q.arrived, sheddable)];
            var next, n := Enqueue(q, sheddable, limit), ShedCount(line, limit);
            && n == (if |line| <= limit then 0 else if |SheddableOf(line)| <= |line| - limit then |SheddableOf(line)| else |line| - limit)
            && next.arrived == q.arrived + 1 && next.ran == q.ran && next.shed == q.shed + SheddableOf(line)[..n]
            && var left := WithoutSheddable(line, n);
               if q.pumping then next.waiting == left && next.running == q.running && next.pumping
               else if left == [] then next.waiting == [] && next.running == q.running && !next.pumping
               else next.waiting == left[1..] && next.running == Some(left[0]) && next.pumping
  {
    var line := q.waiting + [Mutation(q.arrived, sheddable)];
    ShedsTheOldest(q.(waiting := line, arrived := q.arrived + 1), limit);
  }

  /** The first arrival runs at once, unless it may be shed and the line may hold nothing. */
  lemma FirstArrivalRuns(sheddable: bool, limit: nat)
    ensures Apply(EMPTY, Enqueued(sheddable), limit).running
         == if sheddable && limit == 0 then None else Some(Mutation(0, sheddable))
  {
    ArrivalJoinsTheLine(EMPTY, sheddable, limit);
  }

  /** Nothing is shed while the line, with what has just arrived, is within its limit. */
  lemma {:induction false} NothingIsShedWithinTheLimit(q: Queue, steps: seq<Step>, limit: nat)
    requires forall i | 0 <= i < |steps| && steps[i].Enqueued? :: |Run(q, steps[..i], limit).waiting| < limit
    ensures Run(q, steps, limit).shed == q.shed
  {
    if steps != [] {
      var front, last := steps[..|steps| - 1], steps[|steps| - 1];
      assert forall i | 0 <= i < |front| :: front[..i] == steps[..i];
      NothingIsShedWithinTheLimit(q, front, limit);
      if last.Enqueued? { ArrivalJoinsTheLine(Run(q, front, limit), last.sheddable, limit); }
    }
  }

  /** With no new arrivals the queue drains: everything in the line runs, in order, and nothing is shed. */
  lemma Drains(q: Queue, limit: nat) returns (steps: seq<Step>)
    requires Sound(q, limit)
    ensures forall step | step in steps :: step == Finished || step == PumpResumed
    ensures Run(q, steps, limit) == q.(ran := Line(q), running := None, waiting := [], pumping := false)
  {
    if q.running.Some? {
      steps := DrainsRunning(q, limit);
    } else if q.pumping {
      var next := Apply(q, PumpResumed, limit);
      assert Run(q, [], limit) == q && [PumpResumed][..0] == [];
      assert Run(q, [PumpResumed], limit) == next;
      assert Line(next) == Line(q);
      steps := [PumpResumed];
      if next.running.Some? {
        StepKeepsSound(q, PumpResumed, limit);
        var rest := DrainsRunning(next, limit);
        steps := [PumpResumed] + rest;
        RunConcat(q, [PumpResumed], rest, limit);
      }
    } else {
      steps := [];
      assert Line(q) == q.ran;
    }
  }

  lemma {:induction false} DrainsRunning(q: Queue, limit: nat) returns (steps: seq<Step>)
    requires Sound(q, limit) && q.running.Some?
    ensures forall step | step in steps :: step == Finished || step == PumpResumed
    ensures Run(q, steps, limit) == q.(ran := Line(q), running := None, waiting := [], pumping := false)
    decreases |q.waiting|
  {
    var finished := Apply(q, Finished, limit);
    var next := Apply(finished, PumpResumed, limit);
    StepKeepsSound(q, Finished, limit);
    StepKeepsSound(finished, PumpResumed, limit);
    assert Line(finished) == Line(q) && Line(next) == Line(q);
    var first := [Finished, PumpResumed];
    assert first[..1] == [Finished] && [Finished][..0] == [];
    assert Run(q, [], limit) == q && Run(q, [Finished], limit) == finished && Run(q, first, limit) == next;
    if q.waiting == [] {
      steps := first;
      assert Line(q) == next.ran;
    } else {
      var rest := DrainsRunning(next, limit);
      steps := first + rest;
      RunConcat(q, first, rest, limit);
    }
  }

  lemma {:induction false} RunConcat(q: Queue, left: seq<Step>, right: seq<Step>, limit: nat)
    ensures Run(q, left + right, limit) == Run(Run(q, left, limit), right, limit)
  {
    if right == [] {
      assert left + right == left;
    } else {
      assert (left + right)[..|left + right| - 1] == left + right[..|right| - 1];
      RunConcat(q, left, right[..|right| - 1], limit);
    }
  }
}
