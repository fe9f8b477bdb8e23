/** How blocks from peers enter the chain: any number of workers that check availability under the buffer
    lock, buffer what has missing dependencies, insert what passes, and wake up what waited for it; and a
    miner that inserts its own blocks without going through the buffer.

    A state machine over all interleavings; availability is read one reference at a time, while other threads
    insert blocks. */
module Admission {
  import opened Common
  import opened BlockBuffers

  datatype Phase =
    | Idle
    | Checking(block: Block, next: nat, missing: seq<Hash>)  // holds the buffer lock
    | Validating(block: Block)
    | Admitted(block: Block)                                  // in the chain, dependents not woken yet

  datatype Worker = Worker(todo: seq<Block>, phase: Phase)

  datatype Node = Node(
    chain: map<Hash, Kind>,
    buffer: Waiting,
    lock: Option<nat>,
    workers: seq<Worker>,
    received: set<Hash>,
    known: set<Hash>,       // history: hashes of all blocks seen, and all hashes they mention
    satisfied: set<Hash>,   // history: blocks whose dependents were woken
    released: set<Hash>,    // history: blocks that came out of the buffer
    admitted: seq<Block>)   // history: blocks in the order they entered the chain

  datatype Step =
    | Accept(worker: nat, blocks: seq<Block>)
    | Begin(worker: nat) | Look(worker: nat) | Decide(worker: nat)
    | Reject(worker: nat) | Admit(worker: nat)
    | Satisfy(worker: nat, resolved: seq<Block>)
    | Mine(block: Block)

  /** The chain before any block: the proposer genesis `root` and the voter geneses. */
  datatype Genesis = Genesis(root: Hash, voters: set<Hash>)

  function GenesisChain(g: Genesis): map<Hash, Kind> {
    map h | h in g.voters + {g.root} :: if h == g.root then Proposer else Voter
  }

  /** The lookups of `contains_proposer`, `contains_voter` and `contains_transaction`; the last one finds
      every block that has a parent. */
  predicate Present(g: Genesis, chain: map<Hash, Kind>, n: Need) {
    n.hash in chain && if n.kind == Transaction then n.hash != g.root else chain[n.hash] == n.kind
  }

  function Mentions(blocks: seq<Block>): set<Hash> {
    set i, j | 0 <= i < |blocks| && 0 <= j < |blocks[i].needs| :: blocks[i].needs[j].hash
  }

  function HashesOf(blocks: seq<Block>): set<Hash> {
    set i | 0 <= i < |blocks| :: blocks[i].hash
  }

  predicate At(s: Node, w: nat) {
    w < |s.workers|
  }

  predicate Enabled(g: Genesis, s: Node, step: Step) {
    match step
    case Accept(w, blocks) =>
      && At(s, w) && s.workers[w] == Worker([], Idle) && HashesOf(blocks) !! s.received
      && forall i, j :: 0 <= i < j < |blocks| ==> blocks[i].hash != blocks[j].hash
    case Begin(w) => At(s, w) && s.workers[w].phase.Idle? && s.workers[w].todo != [] && s.lock.None?
    case Look(w) => At(s, w) && s.workers[w].phase.Checking?
      && s.workers[w].phase.next < |s.workers[w].phase.block.needs|
    case Decide(w) => At(s, w) && s.workers[w].phase.Checking?
      && s.workers[w].phase.next == |s.workers[w].phase.block.needs|
    case Reject(w) => At(s, w) && s.workers[w].phase.Validating?
    case Admit(w) => At(s, w) && s.workers[w].phase.Validating?
    case Satisfy(w, resolved) =>
      && At(s, w) && s.workers[w].phase.Admitted? && s.lock.None?
      && (forall i, j :: 0 <= i < j < |resolved| ==> resolved[i] != resolved[j])
      && Elems(resolved) == Woken(s.buffer, s.workers[w].phase.block.hash)
    case Mine(b) =>
      // nobody has heard of a block that is just being mined
      b.hash !in s.known && forall i :: 0 <= i < |b.needs| ==> Present(g, s.chain, b.needs[i])
  }

  function SetWorker(s: Node, w: nat, worker: Worker): Node
    requires At(s, w)
  {
    s.(workers := s.workers[w := worker])
  }

  function Do(g: Genesis, s: Node, step: Step): Node
    requires Enabled(g, s, step)
  {
    match step
    case Accept(w, blocks) =>
      SetWorker(s, w, Worker(blocks, Idle)).(received := s.received + HashesOf(blocks),
                                             known := s.known + HashesOf(blocks) + Mentions(blocks))
    case Begin(w) =>
      var todo := s.workers[w].todo;
      SetWorker(s, w, Worker(todo[..|todo| - 1], Checking(todo[|todo| - 1], 0, []))).(lock := Some(w))
    case Look(w) =>
      var Worker(todo, Checking(b, next, missing)) := s.workers[w];
      var found := if Present(g, s.chain, b.needs[next]) then [] else [b.needs[next].hash];
      SetWorker(s, w, Worker(todo, Checking(b, next + 1, missing + found)))
    case Decide(w) =>
      var Worker(todo, Checking(b, _, missing)) := s.workers[w];
      if missing == [] then SetWorker(s, w, Worker(todo, Validating(b))).(lock := None)
      else SetWorker(s, w, Worker(todo, Idle)).(lock := None, buffer := Put(s.buffer, b, Elems(missing)))
    case Reject(w) => SetWorker(s, w, s.workers[w].(phase := Idle))
    case Admit(w) =>
      var b := s.workers[w].phase.block;
      SetWorker(s, w, s.workers[w].(phase := Admitted(b))).(chain := s.chain[b.hash := b.kind],
                                                            admitted := s.admitted + [b])
    case Satisfy(w, resolved) =>
      var Worker(todo, Admitted(b)) := s.workers[w];
      SetWorker(s, w, Worker(todo + resolved, Idle)).(buffer := Wake(s.buffer, b.hash),
                                                      satisfied := s.satisfied + {b.hash},
                                                      released := s.released + HashesOf(resolved))
    case Mine(b) =>
      s.(chain := s.chain[b.hash := b.kind], admitted := s.admitted + [b], received := s.received + {b.hash},
         known := s.known + {b.hash} + Mentions([b]))
  }

  function Start(g: Genesis, workers: nat): Node {
    Node(GenesisChain(g), map[], None, seq(workers, _ => Worker([], Idle)), GenesisChain(g).Keys, GenesisChain(g).Keys,
         {}, {}, [])
  }

  // ---- what every step keeps ----

  /** Blocks a worker holds that are not in the chain yet. */
  function Open(w: Worker): seq<Block> {
    w.todo + if w.phase.Checking? || w.phase.Validating? then [w.phase.block] else []
  }

  function Named(blocks: seq<Block>, h: Hash): nat {
    if blocks == [] then 0 else Named(blocks[..|blocks| - 1], h) + if blocks[|blocks| - 1].hash == h then 1 else 0
  }

  function AllOpen(ws: seq<Worker>, h: Hash): nat {
    if ws == [] then 0 else AllOpen(ws[..|ws| - 1], h) + Named(Open(ws[|ws| - 1]), h)
  }

  function Waking(w: Worker, h: Hash): nat {
    if w.phase.Admitted? && w.phase.block.hash == h then 1 else 0
  }

  /** How many workers are between inserting the block and waking its dependents. */
  function AllWaking(ws: seq<Worker>, h: Hash): nat {
    if ws == [] then 0 else AllWaking(ws[..|ws| - 1], h) + Waking(ws[|ws| - 1], h)
  }

  function One(b: bool): nat { if b then 1 else 0 }

  /** Each block is in one place: with one worker, in the buffer, in the chain, or dropped. */
  ghost predicate Placed(s: Node) {
    && (forall h :: AllOpen(s.workers, h) + One(h in s.buffer) + One(h in s.chain) <= 1)
    && (forall h :: AllOpen(s.workers, h) + One(h in s.buffer) > 0 ==> h in s.received)
    && (forall h :: AllWaking(s.workers, h) + One(h in s.satisfied) <= One(h in s.chain))
  }

  ghost predicate Locked(s: Node) {
    && (s.lock.Some? ==> At(s, s.lock.value) && s.workers[s.lock.value].phase.Checking?)
    && (forall w :: 0 <= w < |s.workers| && s.workers[w].phase.Checking? ==> s.lock == Some(w))
  }

  /** The dependency can still be waited for: it is not in the chain, or its wake-up is still to come; or the
      block asks for it as a kind of block it is not, and no wake-up will help. */
  ghost predicate Awaited(g: Genesis, s: Node, n: Need) {
    n.hash !in s.chain || AllWaking(s.workers, n.hash) > 0 || !Present(g, s.chain, n)
  }

  /** `missing` is right for the first `k` needs of the block: it names awaited ones only, and all that are
      not in the chain. */
  ghost predicate Rightly(g: Genesis, s: Node, b: Block, k: nat, missing: set<Hash>)
    requires k <= |b.needs|
  {
    && (forall a :: a in missing ==> exists i :: 0 <= i < k && b.needs[i].hash == a && Awaited(g, s, b.needs[i]))
    && (forall i :: 0 <= i < k && b.needs[i].hash !in s.chain ==> b.needs[i].hash in missing)
  }

  ghost predicate AllPresent(g: Genesis, chain: map<Hash, Kind>, b: Block) {
    forall i :: 0 <= i < |b.needs| ==> Present(g, chain, b.needs[i])
  }

  ghost predicate AllInChain(chain: map<Hash, Kind>, b: Block) {
    forall i :: 0 <= i < |b.needs| ==> b.needs[i].hash in chain
  }

  /** The block asks for a block in the chain as a kind it is not. */
  ghost predicate Misnamed(g: Genesis, chain: map<Hash, Kind>, b: Block) {
    exists i :: 0 <= i < |b.needs| && b.needs[i].hash in chain && !Present(g, chain, b.needs[i])
  }

  ghost predicate BufferOk(g: Genesis, s: Node) {
    && Proper(s.buffer)
    && (forall x :: x in s.buffer ==> s.buffer[x].missing != {})
    && forall x :: x in s.buffer ==> Rightly(g, s, s.buffer[x].block, |s.buffer[x].block.needs|, s.buffer[x].missing)
  }

  ghost predicate PhaseOk(g: Genesis, s: Node, w: Worker) {
    match w.phase
    case Idle => true
    case Checking(b, k, missing) =>
      && k <= |b.needs| && Rightly(g, s, b, k, Elems(missing))
      && (forall i :: 0 <= i < k && !Present(g, s.chain, b.needs[i]) ==> b.needs[i].hash in missing)
      && (missing != [] && b.hash in s.released ==> Misnamed(g, s.chain, b))
    case Validating(b) => AllPresent(g, s.chain, b)
    case Admitted(b) => b.hash in s.chain
  }

  ghost predicate PhasesOk(g: Genesis, s: Node) {
    forall w :: 0 <= w < |s.workers| ==> PhaseOk(g, s, s.workers[w])
  }

  ghost predicate NeedsKnown(known: set<Hash>, b: Block) {
    forall i :: 0 <= i < |b.needs| ==> b.needs[i].hash in known
  }

  ghost predicate KnownOk(s: Node) {
    && (forall w, b :: 0 <= w < |s.workers| && b in Open(s.workers[w]) ==> NeedsKnown(s.known, b))
    && (forall x :: x in s.buffer ==> NeedsKnown(s.known, s.buffer[x].block))
    && s.chain.Keys <= s.received <= s.known && s.released <= s.received
  }

  /** A block that came out of the buffer has all its dependencies in the chain. */
  ghost predicate ReleasedOk(s: Node) {
    forall w, b :: 0 <= w < |s.workers| && b in Open(s.workers[w]) && b.hash in s.released ==> AllInChain(s.chain, b)
  }

  /** The chain after some admissions. */
  ghost function ChainOf(g: Genesis, admitted: seq<Block>): map<Hash, Kind> {
    if admitted == [] then GenesisChain(g) else
      var b := admitted[|admitted| - 1];
      ChainOf(g, admitted[..|admitted| - 1])[b.hash := b.kind]
  }

  /** Every block entered after everything it needs, and entered once. */
  ghost predicate Causal(g: Genesis, admitted: seq<Block>) {
    forall i :: 0 <= i < |admitted| ==> EntersAt(g, admitted, i)
  }

  ghost predicate EntersAt(g: Genesis, admitted: seq<Block>, i: nat)
    requires i < |admitted|
  {
    AllPresent(g, ChainOf(g, admitted[..i]), admitted[i]) && admitted[i].hash !in ChainOf(g, admitted[..i])
  }

  ghost predicate Inv(g: Genesis, s: Node) {
    && Placed(s) && Locked(s) && BufferOk(g, s) && PhasesOk(g, s) && KnownOk(s) && ReleasedOk(s)
    && Causal(g, s.admitted) && s.chain == ChainOf(g, s.admitted)
  }
}
