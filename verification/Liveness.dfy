/** The dispatcher and its workers never block for good, and come to rest after every diff. */
module Liveness {
  import opened Common
  import opened Utxo
  import opened Jobs
  import opened Dispatcher
  import opened Serializability

  /** Nothing to do until the next diff arrives. */
  predicate Quiet(s: System) {
    s.todo == [] && s.queue == [] && AllIdle(s.workers)
  }

  predicate AllIdle(ws: seq<Worker>) {
    forall w :: 0 <= w < |ws| ==> ws[w].Idle?
  }

  /** With nothing in flight and nothing to report, no coin is hot: the wait loop falls through. */
  lemma NothingHot(s: System)
    requires Tokens(s) && Board(s) && s.phase != Sending && s.queue == [] && AllIdle(s.workers) && s.notifications == []
    ensures s.scoreboard == {}
  {
    hide Held, Owed, Named, Touched;
    NothingPending(s);
    forall h: Hash
      ensures h !in s.transactionCoins
    {
      NothingHeld(|s.workers|, s.workers, Job(true, Transaction([], [], []), 0), h);
      NamedNone(h);
      assert Records(s, h) == 0;
    }
  }

  lemma NamedNone(h: Hash)
    ensures Named([], h) == 0
  {
  }

  lemma ReportedHasRecord(s: System)
    requires Tokens(s) && s.notifications != []
    ensures s.notifications[0] in s.transactionCoins
  {
    hide Named, Owed, Held;
    assert s.notifications[0] in multiset(s.notifications);
    assert Records(s, s.notifications[0]) > 0;
  }

  /** Some thread can always move, unless all work is done. */
  lemma NeverStuck(capacity: nat, init: Coins, s: System) returns (step: Step)
    requires Inv(init, s) && capacity > 0 && s.workers != [] && !Quiet(s)
    ensures !step.Arrive? && Enabled(capacity, s, step)
  {
    hide Serial, Board, Held, Owed, Named, Touched, Lookups, AllOk, Records;
    if w: nat :| w < |s.workers| && s.workers[w].Done? {
      step := Notify(w);
    } else if w: nat :| w < |s.workers| && s.workers[w].Reading? {
      assert Current(s.coins, s.workers[w]);
      step := if Complete(s.workers[w].job, s.workers[w].seen) then Commit(w) else Read(w);
    } else if s.queue != [] {
      step := Take(0);
    } else {
      step := DispatcherMoves(capacity, s);
    }
  }

  lemma DispatcherMoves(capacity: nat, s: System) returns (step: Step)
    requires Tokens(s) && Board(s) && capacity > 0 && s.todo != [] && s.queue == [] && AllIdle(s.workers)
    ensures !step.Arrive? && Enabled(capacity, s, step)
  {
    if s.notifications != [] { ReportedHasRecord(s); }
    match s.phase
    case Draining => step := if s.notifications == [] then StopDraining else Drain;
    case Sending => step := Send;
    case Waiting =>
      if s.notifications == [] { NothingHot(s); }
      step := if s.scoreboard !! Touched(s.todo[0]) then Mark else Wait;
  }

  // ---- a measure every step but an arrival lowers ----

  function JobWork(jobs: seq<Job>, each: nat): nat {
    if jobs == [] then 0 else JobWork(jobs[..|jobs| - 1], each) + |Lookups(jobs[|jobs| - 1])| + each
  }

  function WorkerWork(w: Worker): nat {
    match w
    case Idle => 0
    case Reading(j, seen) => (if |seen| <= |Lookups(j)| then |Lookups(j)| - |seen| else 0) + 3
    case Done(_) => 2
  }

  function WorkersWork(ws: seq<Worker>): nat {
    if ws == [] then 0 else WorkersWork(ws[..|ws| - 1]) + WorkerWork(ws[|ws| - 1])
  }

  function PhaseWork(s: System): nat {
    match s.phase case Draining => 2 case Waiting => 1 case Sending => 0
  }

  function Work(s: System): nat {
    JobWork(s.todo, 8) + PhaseWork(s) + JobWork(s.queue, 4) + WorkersWork(s.workers) + |s.notifications|
  }

  lemma {:induction false} WorkConcat(a: seq<Job>, b: seq<Job>, each: nat)
    ensures JobWork(a + b, each) == JobWork(a, each) + JobWork(b, each)
  {
    if b == [] {
      assert a + b == a;
    } else {
      assert (a + b)[..|a + b| - 1] == a + b[..|b| - 1];
      WorkConcat(a, b[..|b| - 1], each);
    }
  }

  lemma WorkOne(j: Job, each: nat)
    ensures JobWork([j], each) == |Lookups(j)| + each
  {
    assert [j][..0] == [];
  }

  lemma WorkTail(jobs: seq<Job>, each: nat)
    requires jobs != []
    ensures JobWork(jobs, each) == |Lookups(jobs[0])| + each + JobWork(jobs[1..], each)
  {
    assert jobs == [jobs[0]] + jobs[1..];
    WorkConcat([jobs[0]], jobs[1..], each);
    WorkOne(jobs[0], each);
  }

  lemma {:induction false} WorkerMoves(ws: seq<Worker>, i: nat, w: Worker)
    requires i < |ws|
    ensures WorkersWork(ws[i := w]) + WorkerWork(ws[i]) == WorkersWork(ws) + WorkerWork(w)
  {
    var k := |ws| - 1;
    if i == k {
      assert ws[i := w][..k] == ws[..k];
    } else {
      assert ws[i := w][..k] == ws[..k][i := w];
      WorkerMoves(ws[..k], i, w);
    }
  }

  lemma StepWorks(capacity: nat, s: System, step: Step)
    requires Enabled(capacity, s, step) && !step.Arrive?
    ensures Work(Do(capacity, s, step)) < Work(s)
  {
    hide Lookups, AllOk, Write, Touched, JobWork, WorkersWork;
    var s' := Do(capacity, s, step);
    match step
    case Send =>
      WorkTail(s.todo, 8);
      WorkConcat(s.queue, [s.todo[0]], 4);
      WorkOne(s.todo[0], 4);
    case Take(w) =>
      WorkTail(s.queue, 4);
      WorkerMoves(s.workers, w, s'.workers[w]);
    case Read(w) => WorkerMoves(s.workers, w, s'.workers[w]);
    case Commit(w) => WorkerMoves(s.workers, w, s'.workers[w]);
    case Notify(w) => WorkerMoves(s.workers, w, s'.workers[w]);
    case _ =>
  }

  /** Between two arrivals there are at most `Work(s)` steps, however they interleave. */
  lemma {:induction false} RunsAreBounded(capacity: nat, s: System, steps: seq<Step>)
    requires Executes(capacity, s, steps) && forall i :: 0 <= i < |steps| ==> !steps[i].Arrive?
    ensures |steps| <= Work(s)
    decreases |steps|
  {
    hide Work, Enabled, Do;
    if steps != [] {
      StepWorks(capacity, s, steps[0]);
      assert forall i :: 0 <= i < |steps| - 1 ==> steps[1..][i] == steps[i + 1];
      RunsAreBounded(capacity, Do(capacity, s, steps[0]), steps[1..]);
    }
  }

  /** Any run that goes on as long as some thread can move comes to rest with every job written, and the
      coins are then those of serial execution. */
  lemma ComesToRest(capacity: nat, init: Coins, workers: nat, steps: seq<Step>)
    requires capacity > 0 && workers > 0 && Executes(capacity, Start(init, workers), steps)
    requires
      var s := Final(capacity, Start(init, workers), steps);
      forall step :: Enabled(capacity, s, step) ==> step.Arrive?
    ensures
      var s := Final(capacity, Start(init, workers), steps);
      Quiet(s) && s.coins == ExecAll(init, s.arrived)
  {
    hide Inv, Executes, Final, Enabled, ExecAll, Board;
    StartKeeps(init, workers);
    RunKeeps(capacity, init, Start(init, workers), steps);
    Serializable(capacity, init, workers, steps);
    var s := Final(capacity, Start(init, workers), steps);
    if !Quiet(s) {
      var step := NeverStuck(capacity, init, s);
    }
  }
}
