/** What holds in every reachable state of block admission. */
module AdmissionTheorems {
  import opened Common
  import opened BlockBuffers
  import opened Admission
  import opened Wakeups

  ghost predicate Executes(g: Genesis, s: Node, steps: seq<Step>)
    decreases |steps|
  {
    steps == [] || (Enabled(g, s, steps[0]) && Executes(g, Do(g, s, steps[0]), steps[1..]))
  }

  ghost function Final(g: Genesis, s: Node, steps: seq<Step>): Node
    requires Executes(g, s, steps)
    decreases |steps|
  {
    if steps == [] then s else Final(g, Do(g, s, steps[0]), steps[1..])
  }

  lemma {:induction false} RunKeeps(g: Genesis, s: Node, steps: seq<Step>)
    requires Inv(g, s) && Executes(g, s, steps)
    ensures Inv(g, Final(g, s, steps))
    decreases |steps|
  {
    hide Inv, Enabled, Do;
    if steps != [] {
      StepKeeps(g, s, steps[0]);
      RunKeeps(g, Do(g, s, steps[0]), steps[1..]);
    }
  }

  lemma {:induction false} NothingOpen(ws: seq<Worker>, h: Hash)
    requires forall i :: 0 <= i < |ws| ==> ws[i] == Worker([], Idle)
    ensures AllOpen(ws, h) == 0 && AllWaking(ws, h) == 0
  {
    if ws != [] {
      var k := |ws| - 1;
      assert forall i :: 0 <= i < k ==> ws[..k][i] == ws[i];
      NothingOpen(ws[..k], h);
      assert Open(ws[k]) == [];
    }
  }

  lemma StartKeeps(g: Genesis, workers: nat)
    ensures Inv(g, Start(g, workers))
  {
    hide AllOpen, AllWaking;
    var s := Start(g, workers);
    forall h ensures AllOpen(s.workers, h) == 0 { NothingOpen(s.workers, h); }
    forall h ensures AllWaking(s.workers, h) == 0 { NothingOpen(s.workers, h); }
    forall w | 0 <= w < workers ensures s.workers[w] == Worker([], Idle) && Open(s.workers[w]) == [] {}
  }

  lemma Reached(g: Genesis, workers: nat, steps: seq<Step>)
    requires Executes(g, Start(g, workers), steps)
    ensures Inv(g, Final(g, Start(g, workers), steps))
  {
    StartKeeps(g, workers);
    RunKeeps(g, Start(g, workers), steps);
  }

  /** Every block entered the chain once, and after its parent and all its references; nothing else is in
      the chain. */
  lemma CausalAdmission(g: Genesis, workers: nat, steps: seq<Step>)
    requires Executes(g, Start(g, workers), steps)
    ensures
      var s := Final(g, Start(g, workers), steps);
      && s.chain == ChainOf(g, s.admitted)
      && (forall i :: 0 <= i < |s.admitted| ==>
            && AllPresent(g, ChainOf(g, s.admitted[..i]), s.admitted[i])
            && s.admitted[i].hash !in ChainOf(g, s.admitted[..i]))
      && (forall h :: h in s.satisfied ==> h in s.chain)
  {
    hide Executes, Final, AllPresent, BufferOk, PhasesOk, Locked, KnownOk, ReleasedOk, AllWaking, AllOpen, ChainOf;
    Reached(g, workers, steps);
    var s := Final(g, Start(g, workers), steps);
    forall i | 0 <= i < |s.admitted|
      ensures AllPresent(g, ChainOf(g, s.admitted[..i]), s.admitted[i])
                && s.admitted[i].hash !in ChainOf(g, s.admitted[..i])
    {
      assert EntersAt(g, s.admitted, i);
    }
    forall h | h in s.satisfied
      ensures h in s.chain
    {
      assert AllWaking(s.workers, h) + One(h in s.satisfied) <= One(h in s.chain);
    }
  }

  /** No lost wake-up: unless a buffered block misnames the kind of a block it needs, each dependency it
      waits for is either not in the chain, or in the hands of a worker that is about to wake its dependents;
      it is never one whose dependents have been woken already. */
  lemma NoLostWakeup(g: Genesis, workers: nat, steps: seq<Step>, x: Hash, a: Hash)
    requires Executes(g, Start(g, workers), steps)
    requires x in Final(g, Start(g, workers), steps).buffer && a in Final(g, Start(g, workers), steps).buffer[x].missing
    ensures
      var s := Final(g, Start(g, workers), steps);
      var b := s.buffer[x].block;
      && (exists i :: 0 <= i < |b.needs| && b.needs[i].hash == a)
      && (Misnamed(g, s.chain, b) || (a !in s.satisfied && (a !in s.chain || AllWaking(s.workers, a) > 0)))
  {
    hide Executes, Final, AllPresent, PhasesOk, Locked, KnownOk, ReleasedOk, AllWaking, AllOpen, ChainOf, Causal;
    Reached(g, workers, steps);
    var s := Final(g, Start(g, workers), steps);
    assert AllWaking(s.workers, a) + One(a in s.satisfied) <= One(a in s.chain);
    var b := s.buffer[x].block;
    assert Rightly(g, s, b, |b.needs|, s.buffer[x].missing);
    var i :| 0 <= i < |b.needs| && b.needs[i].hash == a && Awaited(g, s, b.needs[i]);
  }

  /** When all workers rest, a block that names its dependencies rightly waits for exactly those that are not
      in the chain - and there is at least one. */
  lemma BufferAtRest(g: Genesis, workers: nat, steps: seq<Step>, x: Hash)
    requires Executes(g, Start(g, workers), steps) && x in Final(g, Start(g, workers), steps).buffer
    requires
      var s := Final(g, Start(g, workers), steps);
      && (forall w :: 0 <= w < |s.workers| ==> s.workers[w] == Worker([], Idle))
      && !Misnamed(g, s.chain, s.buffer[x].block)
    ensures
      var s := Final(g, Start(g, workers), steps);
      var e := s.buffer[x];
      e.missing != {} && forall a :: a in e.missing <==>
        a !in s.chain && exists i :: 0 <= i < |e.block.needs| && e.block.needs[i].hash == a
  {
    hide Executes, Final, AllPresent, PhasesOk, Locked, KnownOk, ReleasedOk, AllWaking, AllOpen, ChainOf, Causal,
      Misnamed, Awaited;
    Reached(g, workers, steps);
    var s := Final(g, Start(g, workers), steps);
    var e := s.buffer[x];
    assert Rightly(g, s, e.block, |e.block.needs|, e.missing);
    forall a | a in e.missing
      ensures a !in s.chain && exists i :: 0 <= i < |e.block.needs| && e.block.needs[i].hash == a
    {
      NoLostWakeup(g, workers, steps, x, a);
      NothingOpen(s.workers, a);
    }
  }

  /** Released exactly once: a block that came out of the buffer goes back only if it misnames a dependency. */
  lemma ReleasedOnce(g: Genesis, workers: nat, steps: seq<Step>, w: nat)
    requires Executes(g, Start(g, workers), steps) && Enabled(g, Final(g, Start(g, workers), steps), Decide(w))
    requires
      var s := Final(g, Start(g, workers), steps);
      s.workers[w].phase.missing != [] && !Misnamed(g, s.chain, s.workers[w].phase.block)
    ensures
      var s := Final(g, Start(g, workers), steps);
      s.workers[w].phase.block.hash !in s.released
  {
    hide Executes, Final, Rightly, BufferOk, Locked, KnownOk, ReleasedOk, AllWaking, AllOpen, ChainOf, Causal, Misnamed,
      Placed;
    Reached(g, workers, steps);
    var s := Final(g, Start(g, workers), steps);
    assert PhaseOk(g, s, s.workers[w]);
  }

  /** No wake-up for `a` is to come: it is in the chain, and nobody is about to wake its dependents. That is
      so for a block whose dependents were woken, for a genesis block and for a mined one. */
  ghost predicate Silent(s: Node, a: Hash) {
    a in s.chain && AllWaking(s.workers, a) == 0
  }

  /** A block is buffered on a dependency that will not wake it exactly when it asks for such a block as a kind
      it is not. */
  lemma BufferedTooLate(g: Genesis, workers: nat, steps: seq<Step>, w: nat)
    requires Executes(g, Start(g, workers), steps) && Enabled(g, Final(g, Start(g, workers), steps), Decide(w))
    ensures
      var s := Final(g, Start(g, workers), steps);
      var b := s.workers[w].phase.block;
      (exists a :: a in s.workers[w].phase.missing && Silent(s, a)) <==>
      (exists i :: 0 <= i < |b.needs| && Silent(s, b.needs[i].hash) && !Present(g, s.chain, b.needs[i]))
  {
    hide Executes, Final, BufferOk, Locked, KnownOk, ReleasedOk, AllWaking, AllOpen, ChainOf, Causal;
    Reached(g, workers, steps);
    var s := Final(g, Start(g, workers), steps);
    var b, missing := s.workers[w].phase.block, s.workers[w].phase.missing;
    assert PhaseOk(g, s, s.workers[w]);
    if a :| a in missing && Silent(s, a) {
      assert a in Elems(missing);
      var i :| 0 <= i < |b.needs| && b.needs[i].hash == a && Awaited(g, s, b.needs[i]);
      assert !Present(g, s.chain, b.needs[i]);
    }
    if i :| 0 <= i < |b.needs| && Silent(s, b.needs[i].hash) && !Present(g, s.chain, b.needs[i]) {
      assert b.needs[i].hash in missing;
    }
  }

  /** Such a block never leaves the buffer, whatever happens next. */
  lemma {:induction false} StrandedForever(g: Genesis, s: Node, x: Hash, a: Hash, steps: seq<Step>)
    requires Inv(g, s) && Executes(g, s, steps) && x in s.buffer && a in s.buffer[x].missing && Silent(s, a)
    ensures
      var s' := Final(g, s, steps);
      x in s'.buffer && s'.buffer[x].block == s.buffer[x].block && a in s'.buffer[x].missing && Silent(s', a)
    decreases |steps|
  {
    hide Inv, Enabled, Do, Silent;
    if steps != [] {
      StepKeeps(g, s, steps[0]);
      StepStrands(g, s, steps[0], x, a);
      StrandedForever(g, Do(g, s, steps[0]), x, a, steps[1..]);
    }
  }

  lemma StepStrands(g: Genesis, s: Node, step: Step, x: Hash, a: Hash)
    requires Inv(g, s) && Enabled(g, s, step) && x in s.buffer && a in s.buffer[x].missing && Silent(s, a)
    ensures
      var s' := Do(g, s, step);
      x in s'.buffer && s'.buffer[x].block == s.buffer[x].block && a in s'.buffer[x].missing && Silent(s', a)
  {
    hide AllOpen, AllWaking, Named, Open, Rightly, Present, Locked, PhasesOk, KnownOk, ReleasedOk, Causal, ChainOf;
    hide Mentions, HashesOf, AllPresent, NeedsKnown;
    WakingStep(g, s, step, a);
    HandledOpen(g, s, step, a);
    HandledOpen(g, s, step, x);
    ChainGrows(g, s, step);
    if step.Satisfy? { WakingCounts(s, step.worker); }
  }

  /** Some thread can always move, unless all workers rest. */
  lemma NeverStuck(g: Genesis, s: Node, w: nat) returns (step: Step)
    requires Inv(g, s) && At(s, w) && s.workers[w] != Worker([], Idle)
    ensures !step.Accept? && !step.Mine? && Enabled(g, s, step)
  {
    hide AllOpen, AllWaking, Placed, BufferOk, KnownOk, ReleasedOk, Causal, ChainOf, Rightly, Present;
    var v := if s.lock.Some? then s.lock.value else w;
    assert PhaseOk(g, s, s.workers[v]);
    match s.workers[v].phase
    case Idle => step := Begin(v);
    case Checking(b, k, _) => step := if k < |b.needs| then Look(v) else Decide(v);
    case Validating(_) => step := Admit(v);
    case Admitted(b) =>
      var resolved := Enumerate(Woken(s.buffer, b.hash));
      step := Satisfy(v, resolved);
  }

  lemma Enumerate(blocks: set<Block>) returns (list: seq<Block>)
    ensures Elems(list) == blocks && forall i, j :: 0 <= i < j < |list| ==> list[i] != list[j]
  {
    list := [];
    var rest := blocks;
    while rest != {}
      invariant Elems(list) + rest == blocks && Elems(list) !! rest
      invariant forall i, j :: 0 <= i < j < |list| ==> list[i] != list[j]
      decreases rest
    {
      var b :| b in rest;
      assert forall i :: 0 <= i < |list| ==> list[i] in Elems(list);
      assert Elems(list + [b]) == Elems(list) + {b};
      list, rest := list + [b], rest - {b};
    }
  }

  // ---- a block that misnames its parent ----

  lemma Nothing(g: Genesis, s: Node)
    ensures Executes(g, s, []) && Final(g, s, []) == s
  {
  }

  lemma Prepend(g: Genesis, s: Node, step: Step, steps: seq<Step>)
    requires Enabled(g, s, step) && Executes(g, Do(g, s, step), steps)
    ensures Executes(g, s, [step] + steps) && Final(g, s, [step] + steps) == Final(g, Do(g, s, step), steps)
  {
    hide Enabled, Do;
    assert ([step] + steps)[1..] == steps;
  }

  ghost predicate Resting(s: Node) {
    At(s, 0) && s.workers[0] == Worker([], Idle) && s.lock.None?
  }

  /** The first steps of a worker with a block that names only a parent: accept it, take the lock, look up
      the parent. */
  lemma LookUpParent(g: Genesis, s: Node, b: Block, steps: seq<Step>) returns (all: seq<Step>, s3: Node)
    requires Resting(s) && b.hash !in s.received && |b.needs| == 1
    ensures
      s3 == s.(workers := s.workers[0 := Worker([],
                                                Checking(b, 1, if Present(g, s.chain, b.needs[0]) then []
                                                         else [b.needs[0].hash]))],
               lock := Some(0), received := s.received + {b.hash}, known := s.known + {b.hash, b.needs[0].hash})
    ensures Executes(g, s3, steps) ==> Executes(g, s, all) && Final(g, s, all) == Final(g, s3, steps)
  {
    hide Executes, Final, Present;
    assert HashesOf([b]) == {b.hash};
    assert Mentions([b]) == {b.needs[0].hash};
    var s1 := Do(g, s, Accept(0, [b]));
    assert s1.workers[0] == Worker([b], Idle);
    var s2 := Do(g, s1, Begin(0));
    assert s2.workers[0] == Worker([], Checking(b, 0, []));
    s3 := Do(g, s2, Look(0));
    var found: seq<Hash> := if Present(g, s.chain, b.needs[0]) then [] else [b.needs[0].hash];
    assert [] + found == found;
    assert s3.workers[0] == Worker([], Checking(b, 1, found));
    assert s3.workers == s.workers[0 := s3.workers[0]];
    assert s3.known == s.known + {b.hash, b.needs[0].hash};
    all := [Accept(0, [b])] + ([Begin(0)] + ([Look(0)] + steps));
    if Executes(g, s3, steps) {
      Prepend(g, s2, Look(0), steps);
      Prepend(g, s1, Begin(0), [Look(0)] + steps);
      Prepend(g, s, Accept(0, [b]), [Begin(0)] + ([Look(0)] + steps));
    }
  }

  /** Whenever a dependency is silent, a new block that asks for it as a kind it is not ends up in the buffer,
      waiting for a wake-up that will never come. */
  lemma MisnamedIsStranded(g: Genesis, s: Node, n: Need, b: Block) returns (all: seq<Step>)
    requires Resting(s) && Silent(s, n.hash) && !Present(g, s.chain, n)
    requires b.hash !in s.received && b.needs == [n]
    ensures Executes(g, s, all)
    ensures
      var s' := Final(g, s, all);
      b.hash in s'.buffer && s'.buffer[b.hash] == Entry(b, {n.hash}) && Silent(s', n.hash)
        && s'.satisfied == s.satisfied
  {
    hide Executes, Final, AllWaking, Present;
    var s3;
    all, s3 := LookUpParent(g, s, b, [Decide(0)]);
    var s4 := Do(g, s3, Decide(0));
    Nothing(g, s4);
    Prepend(g, s3, Decide(0), []);
    assert [Decide(0)] + [] == [Decide(0)];
    assert Elems([n.hash]) == {n.hash};
    WorkerChanges(s.workers, 0, s3.workers[0], n.hash);
    WorkerChanges(s3.workers, 0, s4.workers[0], n.hash);
  }

  /** It does not take a satisfied block: a block that names a voter genesis block as its parent is stranded
      from the start. */
  lemma GenesisStrands(g: Genesis, v: Hash, b: Block) returns (all: seq<Step>)
    requires v in g.voters && v != g.root && b.needs == [Need(Proposer, v)] && b.hash !in GenesisChain(g)
    ensures Executes(g, Start(g, 1), all)
    ensures
      var s := Final(g, Start(g, 1), all);
      b.hash in s.buffer && s.buffer[b.hash] == Entry(b, {v}) && Silent(s, v) && s.satisfied == {}
  {
    hide Executes, Final, AllWaking;
    NothingOpen(Start(g, 1).workers, v);
    all := MisnamedIsStranded(g, Start(g, 1), Need(Proposer, v), b);
  }

  /** Satisfied blocks of another kind than proposer are reached: any transaction block on the genesis block is,
      in six steps. */
  lemma TransactionBlockIsSatisfied(g: Genesis, b: Block) returns (all: seq<Step>)
    requires b.kind == Transaction && b.needs == [Need(Proposer, g.root)] && b.hash !in GenesisChain(g)
    ensures Executes(g, Start(g, 1), all)
    ensures
      var s := Final(g, Start(g, 1), all);
      Resting(s) && b.hash in s.satisfied && b.hash in s.chain && s.chain[b.hash] == Transaction
  {
    hide Executes, Final;
    var s := Start(g, 1);
    var s3;
    assert Present(g, s.chain, b.needs[0]);
    all, s3 := LookUpParent(g, s, b, [Decide(0)] + ([Admit(0)] + [Satisfy(0, [])]));
    var s4 := Do(g, s3, Decide(0));
    assert s4.workers[0] == Worker([], Validating(b));
    var s5 := Do(g, s4, Admit(0));
    assert s5.workers[0] == Worker([], Admitted(b));
    assert Woken(map[], b.hash) == {} && Elems<Block>([]) == {};
    var s6 := Do(g, s5, Satisfy(0, []));
    Nothing(g, s6);
    assert [Satisfy(0, [])] + [] == [Satisfy(0, [])];
    Prepend(g, s5, Satisfy(0, []), []);
    Prepend(g, s4, Admit(0), [Satisfy(0, [])]);
    Prepend(g, s3, Decide(0), [Admit(0)] + [Satisfy(0, [])]);
  }
}
