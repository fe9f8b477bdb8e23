/** Deduplication and admission together: what a worker processes is what deduplication handed on, so that no
    block is ever received twice - and every statement about admission holds of the whole. */
module Intake {
  import opened Common
  import opened BlockBuffers
  import D = Dedup
  import A = Admission
  import W = Wakeups
  import T = AdmissionTheorems

  datatype Whole = Whole(
    intake: D.Registry,
    node: A.Node,
    taken: set<Hash>,  // history: hashes that workers have taken over from deduplication
    own: set<Hash>)    // history: the genesis blocks and those mined here

  datatype Step = Register(intake: D.Step) | Work(work: A.Step) | Mine(block: Block)

  /** A worker takes blocks that were handed on and not taken yet. */
  predicate Enabled(g: A.Genesis, s: Whole, step: Step) {
    match step
    case Register(e) => !e.Mine? && D.Enabled(s.intake, e)
    case Work(Accept(w, blocks)) =>
      && A.At(s.node, w) && s.node.workers[w] == A.Worker([], A.Idle)
      && A.HashesOf(blocks) <= Elems(s.intake.accepted) - s.taken
      && forall i, j :: 0 <= i < j < |blocks| ==> blocks[i].hash != blocks[j].hash
    case Work(e) => !e.Mine? && A.Enabled(g, s.node, e)
    case Mine(b) => A.Enabled(g, s.node, A.Mine(b)) && D.Enabled(s.intake, D.Mine(b.hash))
  }

  /** No block is in both hands: what is received is either taken over or the node's own. */
  ghost predicate Inv(g: A.Genesis, s: Whole) {
    && D.Inv(s.intake) && A.Inv(g, s.node)
    && s.node.received == s.taken + s.own
    && s.taken <= Elems(s.intake.accepted)
    && s.own <= s.intake.blockdb && s.own !! Elems(s.intake.accepted)
    && forall w :: 0 <= w < |s.intake.workers| && s.intake.workers[w].Stored? ==> s.intake.workers[w].hash !in s.own
  }

  /** The requirement that admission puts on arriving blocks is met. */
  lemma TakenAreNew(g: A.Genesis, s: Whole, e: A.Step)
    requires Inv(g, s) && Enabled(g, s, Work(e))
    ensures A.Enabled(g, s.node, e)
  {
    hide A.Inv, D.Inv, A.Present;
  }

  function Do(g: A.Genesis, s: Whole, step: Step): Whole
    requires Inv(g, s) && Enabled(g, s, step)
  {
    match step
    case Register(e) => s.(intake := D.Do(s.intake, e))
    case Work(e) =>
      TakenAreNew(g, s, e);
      s.(node := A.Do(g, s.node, e), taken := s.taken + if e.Accept? then A.HashesOf(e.blocks) else {})
    case Mine(b) =>
      s.(intake := D.Do(s.intake, D.Mine(b.hash)), node := A.Do(g, s.node, A.Mine(b)), own := s.own + {b.hash})
  }

  lemma StepKeeps(g: A.Genesis, s: Whole, step: Step)
    requires Inv(g, s) && Enabled(g, s, step)
    ensures Inv(g, Do(g, s, step))
  {
    hide A.Inv, A.Present, A.Mentions, A.HashesOf, Woken, Wake;
    match step
    case Register(e) => D.StepKeeps(s.intake, e);
    case Work(e) =>
      TakenAreNew(g, s, e);
      W.StepKeeps(g, s.node, e);
    case Mine(b) =>
      D.StepKeeps(s.intake, D.Mine(b.hash));
      W.StepKeeps(g, s.node, A.Mine(b));
  }

  function Start(g: A.Genesis, workers: nat): Whole {
    var genesis := A.GenesisChain(g).Keys;
    Whole(D.Registry({}, genesis, seq(workers, _ => D.Ready), []), A.Start(g, workers), {}, genesis)
  }

  lemma StartKeeps(g: A.Genesis, workers: nat)
    ensures Inv(g, Start(g, workers))
  {
    hide A.Inv;
    T.StartKeeps(g, workers);
  }

  ghost predicate Executes(g: A.Genesis, s: Whole, steps: seq<Step>)
    requires Inv(g, s)
    decreases |steps|
  {
    steps == [] ||
    (Enabled(g, s, steps[0]) && (StepKeeps(g, s, steps[0]); Executes(g, Do(g, s, steps[0]), steps[1..])))
  }

  ghost function Final(g: A.Genesis, s: Whole, steps: seq<Step>): Whole
    requires Inv(g, s) && Executes(g, s, steps)
    decreases |steps|
  {
    if steps == [] then s else (StepKeeps(g, s, steps[0]); Final(g, Do(g, s, steps[0]), steps[1..]))
  }

  /** Every run of the whole is a run of admission, with the same chain, buffer and workers at the end. */
  lemma {:induction false} Projects(g: A.Genesis, s: Whole, steps: seq<Step>) returns (run: seq<A.Step>)
    requires Inv(g, s) && Executes(g, s, steps)
    ensures T.Executes(g, s.node, run) && T.Final(g, s.node, run) == Final(g, s, steps).node
    decreases |steps|
  {
    hide Inv, Enabled, A.Enabled, A.Do, T.Executes, T.Final;
    if steps == [] {
      run := [];
      T.Nothing(g, s.node);
    } else {
      StepKeeps(g, s, steps[0]);
      var rest := Projects(g, Do(g, s, steps[0]), steps[1..]);
      match steps[0]
      case Register(_) => run := rest;
      case Work(e) =>
        TakenAreNew(g, s, e);
        T.Prepend(g, s.node, e, rest);
        run := [e] + rest;
      case Mine(b) =>
        MineEnabled(g, s, b);
        T.Prepend(g, s.node, A.Mine(b), rest);
        run := [A.Mine(b)] + rest;
    }
  }

  lemma MineEnabled(g: A.Genesis, s: Whole, b: Block)
    requires Enabled(g, s, Mine(b))
    ensures A.Enabled(g, s.node, A.Mine(b))
  {
  }
}
