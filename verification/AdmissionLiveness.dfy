/** Block admission comes to rest: between two arrivals there are boundedly many steps, however the workers
    interleave, and when no worker can move none has anything left to do. */
module AdmissionLiveness {
  import opened Common
  import opened BlockBuffers
  import opened Admission
  import opened Wakeups
  import opened AdmissionTheorems

  // ---- how much is left ----

  /** Blocks in the hands of workers, not in the chain yet. */
  function OpenCount(ws: seq<Worker>): nat {
    if ws == [] then 0 else OpenCount(ws[..|ws| - 1]) + |Open(ws[|ws| - 1])|
  }

  function WakingCount(ws: seq<Worker>): nat {
    if ws == [] then 0 else WakingCount(ws[..|ws| - 1]) + One(ws[|ws| - 1].phase.Admitted?)
  }

  function TodoEffort(blocks: seq<Block>): nat {
    if blocks == [] then 0 else TodoEffort(blocks[..|blocks| - 1]) + |blocks[|blocks| - 1].needs| + 3
  }

  function PhaseEffort(p: Phase): nat {
    match p
    case Checking(b, next, _) => (if next <= |b.needs| then |b.needs| - next else 0) + 2
    case Validating(_) => 1
    case _ => 0
  }

  /** Steps until the worker has decided about everything it holds. */
  function Effort(ws: seq<Worker>): nat {
    if ws == [] then 0
    else Effort(ws[..|ws| - 1]) + TodoEffort(ws[|ws| - 1].todo) + PhaseEffort(ws[|ws| - 1].phase)
  }

  /** Blocks that can still enter the chain. */
  function Blocks(s: Node): nat {
    OpenCount(s.workers) + |s.buffer|
  }

  function Rank(s: Node): nat {
    2 * Blocks(s) + WakingCount(s.workers)
  }

  ghost predicate NeedsAtMost(s: Node, k: nat) {
    && (forall w, b :: 0 <= w < |s.workers| && b in Open(s.workers[w]) ==> |b.needs| <= k)
    && (forall x :: x in s.buffer ==> |s.buffer[x].block.needs| <= k)
  }

  /** `bound` is at least the effort that any worker distribution of the present blocks can cause. */
  ghost predicate Small(s: Node, k: nat, bound: nat) {
    NeedsAtMost(s, k) && Blocks(s) * (k + 3) <= bound
  }

  function Work(s: Node, bound: nat): nat {
    Rank(s) * (bound + 1) + Effort(s.workers)
  }

  // ---- counting ----

  lemma {:induction false} WorkerMoves(ws: seq<Worker>, i: nat, w: Worker)
    requires i < |ws|
    ensures OpenCount(ws[i := w]) + |Open(ws[i])| == OpenCount(ws) + |Open(w)|
    ensures WakingCount(ws[i := w]) + One(ws[i].phase.Admitted?) == WakingCount(ws) + One(w.phase.Admitted?)
    ensures Effort(ws[i := w]) + TodoEffort(ws[i].todo) + PhaseEffort(ws[i].phase)
            == Effort(ws) + TodoEffort(w.todo) + PhaseEffort(w.phase)
  {
    hide Open, TodoEffort, PhaseEffort;
    var k := |ws| - 1;
    if i == k {
      assert ws[i := w][..k] == ws[..k];
    } else {
      assert ws[i := w][..k] == ws[..k][i := w];
      WorkerMoves(ws[..k], i, w);
    }
  }

  lemma {:induction false} TodoBounded(blocks: seq<Block>, k: nat)
    requires forall b :: b in blocks ==> |b.needs| <= k
    ensures TodoEffort(blocks) <= |blocks| * (k + 3)
  {
    if blocks != [] {
      var n := |blocks| - 1;
      assert blocks[n] in blocks;
      TodoBounded(blocks[..n], k);
      assert (n + 1) * (k + 3) == n * (k + 3) + (k + 3);
    }
  }

  lemma WorkerBounded(w: Worker, k: nat)
    requires forall b :: b in Open(w) ==> |b.needs| <= k
    ensures TodoEffort(w.todo) + PhaseEffort(w.phase) <= |Open(w)| * (k + 3)
  {
    hide TodoEffort;
    forall b | b in w.todo ensures |b.needs| <= k { assert b in Open(w); }
    TodoBounded(w.todo, k);
    if w.phase.Checking? || w.phase.Validating? {
      OpenLast(w);
      Distribute(|w.todo|, 1, k + 3);
    } else {
      assert Open(w) == w.todo;
    }
  }

  lemma {:induction false} EffortBounded(ws: seq<Worker>, k: nat)
    requires forall w, b :: 0 <= w < |ws| && b in Open(ws[w]) ==> |b.needs| <= k
    ensures Effort(ws) <= OpenCount(ws) * (k + 3)
  {
    hide Open, TodoEffort, PhaseEffort;
    if ws != [] {
      var n := |ws| - 1;
      forall v, b | 0 <= v < n && b in Open(ws[..n][v]) ensures |b.needs| <= k { assert ws[..n][v] == ws[v]; }
      EffortBounded(ws[..n], k);
      WorkerBounded(ws[n], k);
      Distribute(OpenCount(ws[..n]), |Open(ws[n])|, k + 3);
    }
  }

  lemma Distribute(a: nat, c: nat, m: nat)
    ensures (a + c) * m == a * m + c * m
  {
  }

  lemma {:induction false} DistinctCount(blocks: seq<Block>)
    requires forall i, j :: 0 <= i < j < |blocks| ==> blocks[i].hash != blocks[j].hash
    ensures |HashesOf(blocks)| == |blocks|
  {
    if blocks != [] {
      var k := |blocks| - 1;
      DistinctCount(blocks[..k]);
      forall x ensures x in HashesOf(blocks) <==> x in HashesOf(blocks[..k]) || x == blocks[k].hash {
        NamedDistinct(blocks, x);
        NamedDistinct(blocks[..k], x);
      }
      assert HashesOf(blocks) == HashesOf(blocks[..k]) + {blocks[k].hash};
      NamedDistinct(blocks[..k], blocks[k].hash);
      NamedDistinct(blocks, blocks[k].hash);
    }
  }

  /** Waking moves blocks, it loses none. */
  lemma WakeCount(w: Waiting, a: Hash, resolved: seq<Block>)
    requires Proper(w) && Elems(resolved) == Woken(w, a)
    requires forall i, j :: 0 <= i < j < |resolved| ==> resolved[i] != resolved[j]
    ensures |Wake(w, a)| + |resolved| == |w|
  {
    forall i | 0 <= i < |resolved|
      ensures resolved[i].hash in w && resolved[i] == w[resolved[i].hash].block
    {
      assert resolved[i] in Elems(resolved);
    }
    DistinctCount(resolved);
    forall x ensures x in HashesOf(resolved) <==> x in w && x !in Wake(w, a) {
      ResolvedCount(w, a, resolved, x);
      NamedDistinct(resolved, x);
    }
    assert w.Keys == Wake(w, a).Keys + HashesOf(resolved);
    assert |w.Keys| == |w| && |Wake(w, a).Keys| == |Wake(w, a)|;
  }

  // ---- every step but an arrival lowers the work ----

  predicate Internal(step: Step) {
    !step.Accept? && !step.Mine?
  }

  predicate Settles(step: Step) {
    step.Reject? || step.Admit? || step.Satisfy?
  }

  /** Looking up references moves blocks between worker and buffer, and leaves less to look up. */
  lemma LookStep(g: Genesis, s: Node, step: Step)
    requires Inv(g, s) && Enabled(g, s, step) && Internal(step) && !Settles(step)
    ensures
      var s' := Do(g, s, step);
      Blocks(s') == Blocks(s) && Rank(s') == Rank(s) && Effort(s'.workers) < Effort(s.workers)
  {
    hide OpenCount, WakingCount, Effort, AllOpen, AllWaking, Present, Rightly, Causal, ChainOf, KnownOk, ReleasedOk;
    hide Locked, PhasesOk, TodoEffort, Named, Wake, Woken, Open, BufferOk;
    var before, after := s.workers[step.worker], Do(g, s, step).workers[step.worker];
    WorkerMoves(s.workers, step.worker, after);
    OpenSize(before);
    OpenSize(after);
    if step.Begin? { TodoLast(before.todo); }
    if step.Decide? { HandledOpen(g, s, step, before.phase.block.hash); }
  }

  /** Dropping, inserting and waking each settle something. */
  lemma SettleStep(g: Genesis, s: Node, step: Step)
    requires Inv(g, s) && Enabled(g, s, step) && Settles(step)
    ensures Blocks(Do(g, s, step)) <= Blocks(s) && Rank(Do(g, s, step)) < Rank(s)
  {
    hide OpenCount, WakingCount, Effort, AllOpen, AllWaking, Present, Rightly, Causal, ChainOf, KnownOk, ReleasedOk;
    hide Locked, PhasesOk, TodoEffort, Named, Wake, Woken, Open, BufferOk;
    var before, after := s.workers[step.worker], Do(g, s, step).workers[step.worker];
    WorkerMoves(s.workers, step.worker, after);
    OpenSize(before);
    OpenSize(after);
    if step.Satisfy? {
      ProperBuffer(g, s);
      WakeCount(s.buffer, before.phase.block.hash, step.resolved);
    }
  }

  lemma ProperBuffer(g: Genesis, s: Node)
    requires BufferOk(g, s)
    ensures Proper(s.buffer)
  {
  }

  lemma OpenSize(w: Worker)
    ensures |Open(w)| == |w.todo| + One(w.phase.Checking? || w.phase.Validating?)
  {
  }

  lemma TodoLast(blocks: seq<Block>)
    requires blocks != []
    ensures
      var k := |blocks| - 1;
      TodoEffort(blocks) == TodoEffort(blocks[..k]) + |blocks[k].needs| + 3
  {
  }

  lemma NeedsStep(g: Genesis, s: Node, step: Step, k: nat)
    requires Inv(g, s) && Enabled(g, s, step) && Internal(step) && NeedsAtMost(s, k)
    ensures NeedsAtMost(Do(g, s, step), k)
  {
    hide AllOpen, AllWaking, Present, Rightly, Causal, ChainOf, KnownOk, ReleasedOk, Locked, PhasesOk, Open, Placed;
    var s' := Do(g, s, step);
    forall v, b | 0 <= v < |s'.workers| && b in Open(s'.workers[v])
      ensures |b.needs| <= k
    {
      OpenFrom(g, s, step, v, b);
      if b !in Open(s.workers[v]) { assert b in Elems(step.resolved); }
    }
    forall x | x in s'.buffer
      ensures |s'.buffer[x].block.needs| <= k
    {
      if x !in s.buffer || s.buffer[x].block != s'.buffer[x].block { OpenLast(s.workers[step.worker]); }
    }
  }

  lemma StepWorks(g: Genesis, s: Node, step: Step, k: nat, bound: nat)
    requires Inv(g, s) && Enabled(g, s, step) && Internal(step) && Small(s, k, bound)
    ensures Small(Do(g, s, step), k, bound) && Work(Do(g, s, step), bound) < Work(s, bound)
  {
    hide Inv, Enabled, Do, Rank, Effort, Blocks, NeedsAtMost;
    var s' := Do(g, s, step);
    if Settles(step) { SettleStep(g, s, step); } else { LookStep(g, s, step); }
    NeedsStep(g, s, step, k);
    Times(Blocks(s'), Blocks(s), k + 3);
    if Settles(step) {
      EffortFits(s', k, bound);
      Times(Rank(s') + 1, Rank(s), bound + 1);
      Distribute(Rank(s'), 1, bound + 1);
    }
  }

  lemma Times(a: nat, b: nat, m: nat)
    requires a <= b
    ensures a * m <= b * m
  {
  }

  lemma EffortFits(s: Node, k: nat, bound: nat)
    requires Small(s, k, bound)
    ensures Effort(s.workers) <= bound
  {
    hide Effort, OpenCount, Open;
    EffortBounded(s.workers, k);
    Times(OpenCount(s.workers), Blocks(s), k + 3);
  }

  /** Without arrivals a run is bounded. */
  lemma {:induction false} RunsAreBounded(g: Genesis, s: Node, steps: seq<Step>, k: nat, bound: nat)
    requires Inv(g, s) && Executes(g, s, steps) && Small(s, k, bound)
    requires forall i :: 0 <= i < |steps| ==> Internal(steps[i])
    ensures |steps| <= Work(s, bound)
    decreases |steps|
  {
    hide Inv, Enabled, Do, Small, Work;
    if steps != [] {
      StepKeeps(g, s, steps[0]);
      StepWorks(g, s, steps[0], k, bound);
      assert forall i :: 0 <= i < |steps| - 1 ==> steps[1..][i] == steps[i + 1];
      RunsAreBounded(g, Do(g, s, steps[0]), steps[1..], k, bound);
    }
  }

  /** Every state has such a bound. */
  lemma SomeBound(s: Node) returns (k: nat, bound: nat)
    ensures Small(s, k, bound)
  {
    hide Open;
    var open := set w, b | 0 <= w < |s.workers| && b in Open(s.workers[w]) :: b;
    var buffered := set x | x in s.buffer :: s.buffer[x].block;
    k := MostNeeds(open + buffered);
    bound := Blocks(s) * (k + 3);
    forall x | x in s.buffer ensures s.buffer[x].block in buffered {}
  }

  lemma MostNeeds(blocks: set<Block>) returns (k: nat)
    ensures forall b :: b in blocks ==> |b.needs| <= k
  {
    if blocks == {} {
      k := 0;
    } else {
      var b :| b in blocks;
      k := MostNeeds(blocks - {b});
      if k < |b.needs| { k := |b.needs|; }
    }
  }

  /** From any reachable state, every run without arrivals is bounded, and one that cannot go on has all workers
      at rest. */
  lemma ComesToRest(g: Genesis, workers: nat, before: seq<Step>) returns (bound: nat)
    requires Executes(g, Start(g, workers), before)
    ensures
      var s := Final(g, Start(g, workers), before);
      forall steps :: Executes(g, s, steps) && (forall i :: 0 <= i < |steps| ==> Internal(steps[i])) ==>
        && |steps| <= bound
        && ((forall step :: Enabled(g, Final(g, s, steps), step) ==> !Internal(step)) ==>
              forall w :: 0 <= w < |Final(g, s, steps).workers| ==> Final(g, s, steps).workers[w] == Worker([], Idle))
  {
    hide Executes, Final, Enabled, Inv, Small, Work;
    Reached(g, workers, before);
    var s := Final(g, Start(g, workers), before);
    var k, most := SomeBound(s);
    bound := Work(s, most);
    forall steps | Executes(g, s, steps) && (forall i :: 0 <= i < |steps| ==> Internal(steps[i]))
      ensures |steps| <= bound
      ensures (forall step :: Enabled(g, Final(g, s, steps), step) ==> !Internal(step)) ==>
                forall w :: 0 <= w < |Final(g, s, steps).workers| ==> Final(g, s, steps).workers[w] == Worker([], Idle)
    {
      RunsAreBounded(g, s, steps, k, most);
      RunKeeps(g, s, steps);
      AtRest(g, Final(g, s, steps));
    }
  }

  lemma AtRest(g: Genesis, s: Node)
    requires Inv(g, s)
    ensures (forall step :: Enabled(g, s, step) ==> !Internal(step)) ==>
              forall w :: 0 <= w < |s.workers| ==> s.workers[w] == Worker([], Idle)
  {
    hide Inv, Enabled;
    if w: nat :| w < |s.workers| && s.workers[w] != Worker([], Idle) {
      var step := NeverStuck(g, s, w);
    }
  }
}
