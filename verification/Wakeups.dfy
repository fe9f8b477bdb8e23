/** No wake-up is lost and every block enters the chain after what it needs, in every interleaving. */
module Wakeups {
  import opened Common
  import opened BlockBuffers
  import opened Admission

  // ---- counting ----

  lemma {:induction false} WorkerChanges(ws: seq<Worker>, i: nat, w: Worker, h: Hash)
    requires i < |ws|
    ensures AllOpen(ws[i := w], h) + Named(Open(ws[i]), h) == AllOpen(ws, h) + Named(Open(w), h)
    ensures AllWaking(ws[i := w], h) + Waking(ws[i], h) == AllWaking(ws, h) + Waking(w, h)
  {
    hide Named, Open, Waking;
    var k := |ws| - 1;
    if i == k {
      assert ws[i := w][..k] == ws[..k];
    } else {
      assert ws[i := w][..k] == ws[..k][i := w];
      WorkerChanges(ws[..k], i, w, h);
    }
  }

  lemma {:induction false} NamedConcat(a: seq<Block>, b: seq<Block>, h: Hash)
    ensures Named(a + b, h) == Named(a, h) + Named(b, h)
  {
    if b == [] {
      assert a + b == a;
    } else {
      assert (a + b)[..|a + b| - 1] == a + b[..|b| - 1];
      NamedConcat(a, b[..|b| - 1], h);
    }
  }

  lemma NamedOne(b: Block, h: Hash)
    ensures Named([b], h) == One(b.hash == h) && Named([], h) == 0
  {
    assert [b][..0] == [];
  }

  lemma {:induction false} NamedIn(blocks: seq<Block>, b: Block)
    requires b in blocks
    ensures Named(blocks, b.hash) > 0
  {
    var k := |blocks| - 1;
    if blocks[k] != b { NamedIn(blocks[..k], b); }
  }

  /** Blocks with distinct hashes are counted once each. */
  lemma {:induction false} NamedDistinct(blocks: seq<Block>, h: Hash)
    requires forall i, j :: 0 <= i < j < |blocks| ==> blocks[i].hash != blocks[j].hash
    ensures Named(blocks, h) == One(h in HashesOf(blocks))
  {
    if blocks != [] {
      var k := |blocks| - 1;
      NamedDistinct(blocks[..k], h);
      assert forall x :: x in HashesOf(blocks) <==> x in HashesOf(blocks[..k]) || x == blocks[k].hash by {
        forall x | x in HashesOf(blocks[..k]) ensures x in HashesOf(blocks) {
          var i :| 0 <= i < k && blocks[..k][i].hash == x;
          assert blocks[i].hash == x;
        }
        forall x | x in HashesOf(blocks) && x != blocks[k].hash ensures x in HashesOf(blocks[..k]) {
          var i :| 0 <= i < |blocks| && blocks[i].hash == x;
          assert blocks[..k][i].hash == x;
        }
      }
    }
  }

  /** What a worker holds open is counted. */
  lemma OpenCounts(s: Node, w: nat, b: Block)
    requires At(s, w) && b in Open(s.workers[w])
    ensures AllOpen(s.workers, b.hash) > 0
  {
    NamedIn(Open(s.workers[w]), b);
    WorkerChanges(s.workers, w, Worker([], Idle), b.hash);
  }

  lemma WakingCounts(s: Node, w: nat)
    requires At(s, w) && s.workers[w].phase.Admitted?
    ensures AllWaking(s.workers, s.workers[w].phase.block.hash) > 0
  {
    WorkerChanges(s.workers, w, Worker([], Idle), s.workers[w].phase.block.hash);
  }

  /** The change one worker makes to the count of open blocks. */
  lemma OpenParts(w: Worker, h: Hash)
    ensures Named(Open(w), h) == Named(w.todo, h) + if w.phase.Checking?
              || w.phase.Validating? then One(w.phase.block.hash == h) else 0
  {
    if w.phase.Checking? || w.phase.Validating? {
      NamedConcat(w.todo, [w.phase.block], h);
      NamedOne(w.phase.block, h);
    } else {
      assert Open(w) == w.todo;
    }
  }

  /** The block a step takes in hand, if any. */
  function InHand(s: Node, step: Step): Option<Block> {
    if step.Mine? || step.worker >= |s.workers| || s.workers[step.worker].phase.Idle? then None
    else Some(s.workers[step.worker].phase.block)
  }

  predicate Handles(s: Node, step: Step, h: Hash) {
    InHand(s, step).Some? && InHand(s, step).value.hash == h
  }

  lemma WakingStep(g: Genesis, s: Node, step: Step, h: Hash)
    requires Enabled(g, s, step)
    ensures AllWaking(Do(g, s, step).workers, h) + One(step.Satisfy? && Handles(s, step, h))
            == AllWaking(s.workers, h) + One(step.Admit? && Handles(s, step, h))
  {
    hide AllOpen, AllWaking, Open, Named, Present, Woken, Wake;
    if !step.Mine? {
      var w := step.worker;
      WorkerChanges(s.workers, w, Do(g, s, step).workers[w], h);
    }
  }

  /** The step takes the block it handles out of the worker's open blocks. */
  predicate Closes(s: Node, step: Step) {
    || step.Reject? || step.Admit?
    || (step.Decide? && step.worker < |s.workers| && s.workers[step.worker].phase.Checking?
        && s.workers[step.worker].phase.missing != [])
  }

  function Opened(step: Step): seq<Block> {
    if step.Accept? then step.blocks else if step.Satisfy? then step.resolved else []
  }

  /** How a step moves blocks in and out of the workers' hands. */
  lemma OpenStep(g: Genesis, s: Node, step: Step, h: Hash)
    requires Enabled(g, s, step)
    ensures AllOpen(Do(g, s, step).workers, h) + One(Closes(s, step) && Handles(s, step, h))
            == AllOpen(s.workers, h) + Named(Opened(step), h)
  {
    hide AllOpen, AllWaking, Open, Named, Present, Woken, Wake, HashesOf;
    NamedOne(Block(0, Voter, []), h);
    if !step.Mine? {
      var w := step.worker;
      var before, after := s.workers[w], Do(g, s, step).workers[w];
      WorkerChanges(s.workers, w, after, h);
      OpenParts(before, h);
      OpenParts(after, h);
      match step
      case Begin(_) =>
        var k := |before.todo| - 1;
        assert before.todo == before.todo[..k] + [before.todo[k]];
        NamedConcat(before.todo[..k], [before.todo[k]], h);
        NamedOne(before.todo[k], h);
      case Satisfy(_, resolved) => NamedConcat(before.todo, resolved, h);
      case _ =>
    }
  }

  // ---- every step keeps the invariant ----

  lemma StepPlaced(g: Genesis, s: Node, step: Step)
    requires Inv(g, s) && Enabled(g, s, step)
    ensures Placed(Do(g, s, step))
  {
    hide AllOpen, AllWaking, Named, Locked, PhasesOk, ReleasedOk, Causal, ChainOf, Present, AllPresent, Rightly, Open,
      Mentions;
    var s' := Do(g, s, step);
    forall h
      ensures AllOpen(s'.workers, h) + One(h in s'.buffer) + One(h in s'.chain) <= 1
      ensures AllOpen(s'.workers, h) + One(h in s'.buffer) > 0 ==> h in s'.received
    {
      OpenStep(g, s, step, h);
      PlacedOne(g, s, step, h);
    }
    forall h
      ensures AllWaking(s'.workers, h) + One(h in s'.satisfied) <= One(h in s'.chain)
    {
      WakingStep(g, s, step, h);
      HandledOpen(g, s, step, h);
    }
  }

  /** A block that is about to enter the chain is not there yet, and not satisfied. */
  lemma HandledOpen(g: Genesis, s: Node, step: Step, h: Hash)
    requires Placed(s) && Enabled(g, s, step)
    ensures (step.Admit? || step.Reject? || step.Decide?) && Handles(s, step, h) ==> AllOpen(s.workers, h) > 0
  {
    if (step.Admit? || step.Reject? || step.Decide?) && Handles(s, step, h) {
      var w := step.worker;
      var b := s.workers[w].phase.block;
      assert b in Open(s.workers[w]) by { assert Open(s.workers[w])[|s.workers[w].todo|] == b; }
      OpenCounts(s, w, b);
    }
  }

  lemma PlacedOne(g: Genesis, s: Node, step: Step, h: Hash)
    requires Inv(g, s) && Enabled(g, s, step)
    requires AllOpen(Do(g, s, step).workers, h) + One(Closes(s, step) && Handles(s, step, h))
             == AllOpen(s.workers, h) + Named(Opened(step), h)
    ensures
      var s' := Do(g, s, step);
      AllOpen(s'.workers, h) + One(h in s'.buffer) + One(h in s'.chain) <= 1
    ensures
      var s' := Do(g, s, step);
      AllOpen(s'.workers, h) + One(h in s'.buffer) > 0 ==> h in s'.received
  {
    hide AllOpen, AllWaking, Named, Locked, PhasesOk, ReleasedOk, Causal, ChainOf, Present, AllPresent, Rightly, Open,
      HashesOf, Mentions;
    NamedOne(Block(0, Voter, []), h);
    HandledOpen(g, s, step, h);
    match step
    case Accept(_, blocks) => NamedDistinct(blocks, h);
    case Satisfy(w, resolved) => ResolvedCount(s.buffer, s.workers[w].phase.block.hash, resolved, h);
    case _ =>
  }

  /** Waking moves each released block out of the buffer once. */
  lemma ResolvedCount(w: Waiting, a: Hash, resolved: seq<Block>, h: Hash)
    requires Proper(w) && Elems(resolved) == Woken(w, a)
    requires forall i, j :: 0 <= i < j < |resolved| ==> resolved[i] != resolved[j]
    ensures Named(resolved, h) + One(h in Wake(w, a)) == One(h in w)
  {
    forall i | 0 <= i < |resolved|
      ensures resolved[i].hash in w && resolved[i] == w[resolved[i].hash].block && w[resolved[i].hash].missing == {a}
    {
      assert resolved[i] in Elems(resolved);
    }
    NamedDistinct(resolved, h);
    if h in w && w[h].missing == {a} {
      assert w[h].block in Woken(w, a);
      assert w[h].block in Elems(resolved);
      var i :| 0 <= i < |resolved| && resolved[i] == w[h].block;
      assert h in HashesOf(resolved);
    }
  }

  lemma StepLocked(g: Genesis, s: Node, step: Step)
    requires Locked(s) && Enabled(g, s, step)
    ensures Locked(Do(g, s, step))
  {
    hide Present, Woken, Wake, HashesOf, Mentions;
  }

  /** A dependency stays awaited until it is satisfied. */
  lemma StepAwaited(g: Genesis, s: Node, step: Step, n: Need)
    requires Inv(g, s) && Enabled(g, s, step) && n.hash in s.known && Awaited(g, s, n)
    requires !(step.Satisfy? && Handles(s, step, n.hash))
    ensures Awaited(g, Do(g, s, step), n)
  {
    hide AllOpen, AllWaking, Named, Locked, PhasesOk, ReleasedOk, Causal, ChainOf, AllPresent, Rightly, Open, Placed,
      Woken, Wake, Mentions, HashesOf;
    WakingStep(g, s, step, n.hash);
  }

  lemma StepRightly(g: Genesis, s: Node, step: Step, b: Block, k: nat, missing: set<Hash>)
    requires Inv(g, s) && Enabled(g, s, step) && k <= |b.needs| && NeedsKnown(s.known, b)
              && Rightly(g, s, b, k, missing)
    ensures
      var gone := if step.Satisfy? then {s.workers[step.worker].phase.block.hash} else {};
      Rightly(g, Do(g, s, step), b, k, missing - gone)
  {
    hide AllOpen, AllWaking, Named, Locked, ReleasedOk, Causal, ChainOf, AllPresent, Open, Placed, Woken, Wake,
      Mentions, HashesOf, Awaited;
    var s' := Do(g, s, step);
    var gone := if step.Satisfy? then {s.workers[step.worker].phase.block.hash} else {};
    forall a | a in missing - gone
      ensures exists i :: 0 <= i < k && b.needs[i].hash == a && Awaited(g, s', b.needs[i])
    {
      var i :| 0 <= i < k && b.needs[i].hash == a && Awaited(g, s, b.needs[i]);
      StepAwaited(g, s, step, b.needs[i]);
    }
    ChainGrows(g, s, step);
    if step.Satisfy? { assert PhaseOk(g, s, s.workers[step.worker]); }
  }

  lemma ChainGrows(g: Genesis, s: Node, step: Step)
    requires Inv(g, s) && Enabled(g, s, step)
    ensures forall h :: h in s.chain ==> h in Do(g, s, step).chain && Do(g, s, step).chain[h] == s.chain[h]
  {
    hide AllOpen, AllWaking, Named, Locked, PhasesOk, ReleasedOk, Causal, ChainOf, AllPresent, Rightly, Open, BufferOk,
      Woken, Wake, Mentions, HashesOf;
    if step.Admit? {
      HandledOpen(g, s, step, s.workers[step.worker].phase.block.hash);
    }
  }

  lemma StepBuffer(g: Genesis, s: Node, step: Step)
    requires Inv(g, s) && Enabled(g, s, step)
    ensures BufferOk(g, Do(g, s, step))
  {
    hide AllOpen, AllWaking, Named, Locked, ReleasedOk, Causal, ChainOf, AllPresent, Placed, Mentions, HashesOf,
      Awaited, Rightly, Present;
    var s' := Do(g, s, step);
    var gone := if step.Satisfy? then {s.workers[step.worker].phase.block.hash} else {};
    forall x | x in s'.buffer
      ensures s'.buffer[x].block.hash == x && s'.buffer[x].missing != {}
      ensures Rightly(g, s', s'.buffer[x].block, |s'.buffer[x].block.needs|, s'.buffer[x].missing)
    {
      if x in s.buffer && s'.buffer[x] == Entry(s.buffer[x].block, s.buffer[x].missing - gone) {
        var e := s.buffer[x];
        StepRightly(g, s, step, e.block, |e.block.needs|, e.missing);
        Emptied(e.missing, gone, if step.Satisfy? then s.workers[step.worker].phase.block.hash else 0);
      } else {
        Buffered(g, s, step);
      }
    }
  }

  lemma Emptied(m: set<Hash>, gone: set<Hash>, h: Hash)
    requires m != {} && (gone == {} || gone == {h}) && m != gone
    ensures m - gone != {}
  {
    assert m <= {h} ==> m == {h};
    assert m - gone == {} ==> m <= gone;
  }

  lemma Buffered(g: Genesis, s: Node, step: Step)
    requires Inv(g, s) && Enabled(g, s, step) && step.Decide? && s.workers[step.worker].phase.missing != []
    ensures
      var Worker(_, Checking(b, _, missing)) := s.workers[step.worker];
      Rightly(g, Do(g, s, step), b, |b.needs|, Elems(missing)) && Elems(missing) != {}
  {
    hide AllOpen, AllWaking, Named, Locked, ReleasedOk, Causal, ChainOf, AllPresent, Placed, Mentions, HashesOf,
      Awaited, Rightly, Present;
    var w := step.worker;
    var b := s.workers[w].phase.block;
    assert PhaseOk(g, s, s.workers[w]);
    assert b in Open(s.workers[w]) by { assert Open(s.workers[w])[|s.workers[w].todo|] == b; }
    ElemsNonempty(s.workers[w].phase.missing);
    var missing := Elems(s.workers[w].phase.missing);
    StepRightly(g, s, step, b, |b.needs|, missing);
    assert missing - {} == missing;
  }

  lemma StepPhases(g: Genesis, s: Node, step: Step)
    requires Inv(g, s) && Enabled(g, s, step)
    ensures PhasesOk(g, Do(g, s, step))
  {
    hide AllOpen, AllWaking, Named, Locked, ReleasedOk, Causal, ChainOf, AllPresent, Placed, Mentions, HashesOf,
      Awaited, Rightly, Present;
    hide PhaseOk, BufferOk, KnownOk, Open;
    var s' := Do(g, s, step);
    forall v | 0 <= v < |s'.workers|
      ensures PhaseOk(g, s', s'.workers[v])
    {
      if !step.Mine? && v == step.worker {
        OwnPhase(g, s, step);
      } else {
        assert s'.workers[v] == s.workers[v] && PhaseOk(g, s, s.workers[v]);
        OtherPhase(g, s, step, v);
      }
    }
  }

  /** What a worker established survives the steps of the others. */
  lemma OtherPhase(g: Genesis, s: Node, step: Step, v: nat)
    requires Inv(g, s) && Enabled(g, s, step) && At(s, v) && (step.Mine? || v != step.worker)
    ensures PhaseOk(g, Do(g, s, step), s.workers[v])
  {
    hide AllOpen, AllWaking, Named, Causal, ChainOf, Placed, Mentions, HashesOf, Awaited, Rightly, BufferOk;
    var s' := Do(g, s, step);
    var worker := s.workers[v];
    assert PhaseOk(g, s, worker);
    ChainGrows(g, s, step);
    if worker.phase.Checking? {
      assert s.lock == Some(v);
      var b := worker.phase.block;
      assert b in Open(worker) by { assert Open(worker)[|worker.todo|] == b; }
      assert NeedsKnown(s.known, b);
      StepRightly(g, s, step, b, worker.phase.next, Elems(worker.phase.missing));
      assert Elems(worker.phase.missing) - {} == Elems(worker.phase.missing);
      assert s'.released == s.released;
    }
  }

  lemma OwnPhase(g: Genesis, s: Node, step: Step)
    requires Inv(g, s) && Enabled(g, s, step) && !step.Mine?
    ensures PhaseOk(g, Do(g, s, step), Do(g, s, step).workers[step.worker])
  {
    hide AllOpen, AllWaking, Named, Causal, ChainOf, Placed, Mentions, HashesOf, Awaited, Rightly, BufferOk, Present,
      Open, ReleasedOk, KnownOk, Locked;
    var w := step.worker;
    assert PhaseOk(g, s, s.workers[w]);
    match step
    case Begin(_) => NothingChecked(g, Do(g, s, step), Do(g, s, step).workers[w].phase.block);
    case Look(_) => LookedAt(g, s, w);
    case _ =>
  }

  lemma NothingChecked(g: Genesis, s: Node, b: Block)
    ensures Rightly(g, s, b, 0, Elems([]))
  {
  }

  lemma LookedAt(g: Genesis, s: Node, w: nat)
    requires Inv(g, s) && Enabled(g, s, Look(w))
    ensures PhaseOk(g, Do(g, s, Look(w)), Do(g, s, Look(w)).workers[w])
  {
    hide AllOpen, AllWaking, Named, Causal, ChainOf, Placed, Mentions, HashesOf, Awaited, BufferOk, Locked;
    var s' := Do(g, s, Look(w));
    var Worker(todo, Checking(b, k, missing)) := s.workers[w];
    assert PhaseOk(g, s, s.workers[w]);
    assert b in Open(s.workers[w]) by { assert Open(s.workers[w])[|todo|] == b; }
    StepRightly(g, s, Look(w), b, k, Elems(missing));
    assert Elems(missing) - {} == Elems(missing);
    var missing' := s'.workers[w].phase.missing;
    RightlyMore(g, s', b, k, Elems(missing), Elems(missing'));
  }

  /** One more reference looked up. */
  lemma RightlyMore(g: Genesis, s: Node, b: Block, k: nat, missing: set<Hash>, missing': set<Hash>)
    requires k < |b.needs| && Rightly(g, s, b, k, missing)
    requires missing' == missing + if Present(g, s.chain, b.needs[k]) then {} else {b.needs[k].hash}
    ensures Rightly(g, s, b, k + 1, missing')
  {
    hide AllWaking;
    forall a | a in missing'
      ensures exists i :: 0 <= i < k + 1 && b.needs[i].hash == a && Awaited(g, s, b.needs[i])
    {
      if a in missing {
        var i :| 0 <= i < k && b.needs[i].hash == a && Awaited(g, s, b.needs[i]);
      } else {
        assert Awaited(g, s, b.needs[k]);
      }
    }
  }

  /** Whatever a worker holds after a step it held before, or got by the step. */
  lemma OpenFrom(g: Genesis, s: Node, step: Step, v: nat, b: Block)
    requires Enabled(g, s, step) && At(Do(g, s, step), v) && b in Open(Do(g, s, step).workers[v])
    ensures At(s, v) && (b in Open(s.workers[v]) || b in Opened(step))
  {
    hide Present, Woken, Wake, HashesOf, Mentions;
    if !step.Mine? && v == step.worker {
      var before, after := s.workers[v], Do(g, s, step).workers[v];
      if b in after.todo {
        if step.Begin? { assert b in before.todo; }
      } else {
        assert b == after.phase.block;
        if step.Begin? { assert b in before.todo; } else { assert Open(before)[|before.todo|] == b; }
      }
    }
  }

  lemma StepKnown(g: Genesis, s: Node, step: Step)
    requires Inv(g, s) && Enabled(g, s, step)
    ensures KnownOk(Do(g, s, step))
  {
    hide AllOpen, AllWaking, Named, Causal, ChainOf, Awaited, Rightly, BufferOk, Present, Locked, PhasesOk, ReleasedOk,
      Open;
    var s' := Do(g, s, step);
    forall v, b | 0 <= v < |s'.workers| && b in Open(s'.workers[v])
      ensures NeedsKnown(s'.known, b)
    {
      OpenFrom(g, s, step, v, b);
      if b in Open(s.workers[v]) {
        assert NeedsKnown(s.known, b);
      } else {
        OpenedKnown(g, s, step, b);
      }
    }
    forall x | x in s'.buffer
      ensures NeedsKnown(s'.known, s'.buffer[x].block)
    {
      if x !in s.buffer || s.buffer[x].block != s'.buffer[x].block {
        var w := step.worker;
        assert Open(s.workers[w])[|s.workers[w].todo|] == s.workers[w].phase.block by { OpenLast(s.workers[w]); }
        assert s.workers[w].phase.block in Open(s.workers[w]);
      }
    }
    KnownSets(g, s, step);
  }

  lemma OpenLast(w: Worker)
    requires w.phase.Checking? || w.phase.Validating?
    ensures |Open(w)| == |w.todo| + 1 && Open(w)[|w.todo|] == w.phase.block && w.phase.block in Open(w)
  {
  }

  lemma OpenedKnown(g: Genesis, s: Node, step: Step, b: Block)
    requires Inv(g, s) && Enabled(g, s, step) && b in Opened(step)
    ensures NeedsKnown(Do(g, s, step).known, b)
  {
    hide AllOpen, AllWaking, Named, Causal, ChainOf, Awaited, Rightly, Present, Locked, PhasesOk, ReleasedOk, Open,
      Wake;
    if step.Accept? {
      var i :| 0 <= i < |step.blocks| && step.blocks[i] == b;
      forall j | 0 <= j < |b.needs| ensures b.needs[j].hash in Mentions(step.blocks) {
        assert step.blocks[i].needs[j].hash in Mentions(step.blocks);
      }
    } else {
      assert b in Elems(step.resolved);
    }
  }

  lemma KnownSets(g: Genesis, s: Node, step: Step)
    requires Inv(g, s) && Enabled(g, s, step)
    ensures
      var s' := Do(g, s, step);
      s'.chain.Keys <= s'.received <= s'.known && s'.released <= s'.received
  {
    hide AllOpen, AllWaking, Named, Causal, ChainOf, Awaited, Rightly, Present, Locked, PhasesOk, ReleasedOk, Open,
      Wake, Mentions;
    if step.Admit? { HandledOpen(g, s, step, s.workers[step.worker].phase.block.hash); }
    if step.Satisfy? { ResolvedBuffered(g, s, step); }
  }

  lemma StepReleased(g: Genesis, s: Node, step: Step)
    requires Inv(g, s) && Enabled(g, s, step)
    ensures ReleasedOk(Do(g, s, step))
  {
    hide AllOpen, AllWaking, Named, Causal, ChainOf, Awaited, Rightly, BufferOk, Present, Locked, PhasesOk, Open, Wake,
      Woken, Mentions, AllInChain, Placed;
    var s' := Do(g, s, step);
    forall v, b | 0 <= v < |s'.workers| && b in Open(s'.workers[v]) && b.hash in s'.released
      ensures AllInChain(s'.chain, b)
    {
      OpenFrom(g, s, step, v, b);
      ReleasedOne(g, s, step, v, b);
    }
  }

  lemma ReleasedOne(g: Genesis, s: Node, step: Step, v: nat, b: Block)
    requires Inv(g, s) && Enabled(g, s, step) && At(s, v) && b.hash in Do(g, s, step).released
    requires b in Open(s.workers[v]) || b in Opened(step)
    ensures AllInChain(Do(g, s, step).chain, b)
  {
    hide AllWaking, Named, Causal, ChainOf, Awaited, Present, Locked, Open, Wake, Mentions, AllOpen;
    hide HashesOf;
    ChainGrows(g, s, step);
    if step.Satisfy? { ResolvedBuffered(g, s, step); }
    if b in Opened(step) {
      HashIn(Opened(step), b);
      if step.Satisfy? { ResolvedInChain(g, s, step, b); }
    } else {
      OpenCounts(s, v, b);
    }
  }

  lemma HashIn(blocks: seq<Block>, b: Block)
    requires b in blocks
    ensures b.hash in HashesOf(blocks)
  {
  }

  lemma ResolvedBuffered(g: Genesis, s: Node, step: Step)
    requires Proper(s.buffer) && Enabled(g, s, step) && step.Satisfy?
    ensures forall h :: h in HashesOf(step.resolved) ==> h in s.buffer
  {
    forall h | h in HashesOf(step.resolved)
      ensures h in s.buffer
    {
      var i :| 0 <= i < |step.resolved| && step.resolved[i].hash == h;
      assert step.resolved[i] in Elems(step.resolved);
    }
  }

  /** A block is released when its last missing dependency is in the chain. */
  lemma ResolvedInChain(g: Genesis, s: Node, step: Step, b: Block)
    requires Inv(g, s) && Enabled(g, s, step) && step.Satisfy? && b in step.resolved
    ensures AllInChain(s.chain, b) && b.hash in s.buffer && s.buffer[b.hash].block == b
  {
    hide AllWaking, Named, Causal, ChainOf, Awaited, Present, Locked, Open, Wake, Mentions, AllOpen, Placed, KnownOk,
      ReleasedOk;
    assert b in Elems(step.resolved);
    assert PhaseOk(g, s, s.workers[step.worker]);
    assert Rightly(g, s, b, |b.needs|, s.buffer[b.hash].missing);
  }

  lemma StepCausal(g: Genesis, s: Node, step: Step)
    requires Inv(g, s) && Enabled(g, s, step)
    ensures Causal(g, Do(g, s, step).admitted) && Do(g, s, step).chain == ChainOf(g, Do(g, s, step).admitted)
  {
    hide AllOpen, AllWaking, Named, Awaited, Rightly, BufferOk, Locked, Wake, Woken, Mentions, HashesOf, EntersAt,
      ReleasedOk;
    if step.Admit? {
      var b := s.workers[step.worker].phase.block;
      assert PhaseOk(g, s, s.workers[step.worker]);
      HandledOpen(g, s, step, b.hash);
      CausalMore(g, s.admitted, b);
    } else if step.Mine? {
      CausalMore(g, s.admitted, step.block);
    }
  }

  lemma CausalMore(g: Genesis, admitted: seq<Block>, b: Block)
    requires Causal(g, admitted) && AllPresent(g, ChainOf(g, admitted), b) && b.hash !in ChainOf(g, admitted)
    ensures Causal(g, admitted + [b]) && ChainOf(g, admitted + [b]) == ChainOf(g, admitted)[b.hash := b.kind]
  {
    hide AllPresent;
    var more := admitted + [b];
    assert more[..|admitted|] == admitted;
    forall i | 0 <= i < |more|
      ensures EntersAt(g, more, i)
    {
      if i < |admitted| {
        assert EntersAt(g, admitted, i);
        assert more[..i] == admitted[..i];
      }
    }
  }

  lemma StepKeeps(g: Genesis, s: Node, step: Step)
    requires Inv(g, s) && Enabled(g, s, step)
    ensures Inv(g, Do(g, s, step))
  {
    hide Placed, Locked, BufferOk, PhasesOk, KnownOk, ReleasedOk, Causal, ChainOf, Enabled, Do;
    StepPlaced(g, s, step);
    StepLocked(g, s, step);
    StepBuffer(g, s, step);
    StepPhases(g, s, step);
    StepKnown(g, s, step);
    StepReleased(g, s, step);
    StepCausal(g, s, step);
  }
}
