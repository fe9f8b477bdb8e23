/** The whole stored state as one value, its invariant, and what each edit does to it. */
module Store {
  import opened Common
  import L = Linearization
  import V = VoterTrees
  import opened VoteIndex
  import opened ChainInvariants
  import opened Leader

  datatype Config = Config(
    voterChains: nat,
    proposerGenesis: Hash,
    voterGenesis: seq<Hash>)

  /** The column families of the database. Levels and references of proposer blocks form the DAG; levels,
      chains, parents, votes and voted levels of voter blocks form the voter trees. */
  datatype Columns = Columns(
    dag: L.Dag,
    transactionRefs: map<Hash, seq<Hash>>,
    treeLevel: map<nat, seq<Hash>>,
    voters: V.VoterTree,
    levelCount: map<(nat, nat), nat>,
    voteCount: map<Hash, nat>,
    nodeVotes: map<Hash, seq<Entry>>,
    leaderSequence: map<nat, Hash>,
    ledgerOrder: map<nat, seq<Hash>>)

  /** The database and the fields the source guards by a mutex each. */
  datatype State = State(
    db: Columns,
    proposerBestLevel: nat,
    voterBest: seq<(Hash, nat)>,
    unconfirmedProposers: set<Hash>,
    ledgerTip: nat,
    voterLedgerTips: seq<Hash>)

  /** The proposer DAG and its per-level lists. */
  ghost predicate ProposersInv(c: Config, s: State) {
    && ProposersOk(s.db.dag, c.proposerGenesis)
    && TreeOk(s.db.treeLevel, s.db.dag.level, s.proposerBestLevel)
    && s.db.transactionRefs.Keys == s.db.dag.refs.Keys
  }

  /** The voter trees, their best blocks and their counters. */
  ghost predicate VotersInv(c: Config, s: State) {
    && V.Valid(s.db.voters, s.db.dag.level, c.voterGenesis)
    && |c.voterGenesis| == |s.voterBest| == |s.voterLedgerTips| == c.voterChains
    && BestOk(s.voterBest, s.db.voters)
    && CountsOk(s.db.levelCount, s.db.voteCount, s.voterBest, s.db.voters)
    && TipsOk(s.voterLedgerTips, s.db.voters)
  }

  /** The vote index is that of the chains at their ledger tips. */
  ghost predicate IndexInv(c: Config, s: State)
    requires VotersInv(c, s)
  {
    Indexed(s.db.nodeVotes, TipVotes(s.db.voters, s.db.dag.level, c.voterGenesis, s.voterLedgerTips))
  }

  ghost predicate LedgerInv(s: State)
    requires L.Valid(s.db.dag)
  {
    LedgerOk(s.db.dag, s.db.leaderSequence, s.db.ledgerOrder, s.ledgerTip, s.unconfirmedProposers)
  }

  ghost predicate Inv(c: Config, s: State) {
    && ProposersInv(c, s)
    && VotersInv(c, s)
    && IndexInv(c, s)
    && LedgerInv(s)
  }

  /** The ledger from scratch: level by level, in confirmation order. */
  ghost function LedgerOf(c: Config, s: State): seq<seq<Hash>>
    requires Inv(c, s)
  {
    Scratch(s.db.dag, s.db.leaderSequence, s.ledgerTip + 1)
  }

  /** The transaction blocks of the ledger, in order. */
  ghost function TransactionLedger(c: Config, s: State): seq<Hash>
    requires Inv(c, s)
  {
    LedgerWithinDag(c, s);
    TransactionsOf(s.db.transactionRefs, Flatten(LedgerOf(c, s)))
  }

  lemma LedgerWithinDag(c: Config, s: State)
    requires Inv(c, s)
    ensures forall b :: b in Flatten(LedgerOf(c, s)) ==> b in s.db.transactionRefs
  {
    ScratchIsTopological(s.db.dag, s.db.leaderSequence, s.ledgerTip + 1);
    assert forall b :: b in Flatten(LedgerOf(c, s)) ==> b in Elems(Flatten(LedgerOf(c, s)));
  }

  // ---- genesis ----

  function Genesis(c: Config): State {
    var g, vg := c.proposerGenesis, c.voterGenesis;
    State(
      Columns(
        L.Dag(map[g := []], map[g := 0]),
        map[g := []],
        map[0 := [g]],
        GenesisTree(vg, g),
        OneEach(|vg|),
        map[g := |Elems(vg)|],
        map[g := GenesisVotes(|vg|)],
        map[0 := g],
        map[0 := [g]]),
      0,
      GenesisTips(vg),
      {},
      0,
      vg)
  }

  /** The voter genesis blocks: level 0, each voting for the proposer genesis block. */
  function GenesisTree(vg: seq<Hash>, g: Hash): V.VoterTree {
    V.VoterTree(
      map v | v in Elems(vg) :: 0,
      map v | v in Elems(vg) :: IndexOf(vg, v),
      map[],
      map v | v in Elems(vg) :: [g],
      map v | v in Elems(vg) :: 0)
  }

  function GenesisTips(vg: seq<Hash>): (r: seq<(Hash, nat)>)
    ensures |r| == |vg|
  {
    seq(|vg|, k requires 0 <= k < |vg| => (vg[k], 0))
  }

  function GenesisVotes(n: nat): seq<Entry> {
    seq(n, k requires 0 <= k < n => (k, 0))
  }

  /** One block on level 0 of each of the first `n` chains. */
  function OneEach(n: nat): map<(nat, nat), nat> {
    if n == 0 then map[] else OneEach(n - 1)[(n - 1, 0) := 1]
  }

  function IndexOf(s: seq<Hash>, v: Hash): (k: nat)
    requires v in s
    ensures k < |s| && s[k] == v
  {
    if s[0] == v then 0 else 1 + IndexOf(s[1..], v)
  }

  ghost predicate WellFormed(c: Config) {
    |c.voterGenesis| == c.voterChains && NoDup(c.voterGenesis)
  }

  lemma {:induction false} OneEachAt(n: nat, c: nat, l: nat)
    ensures (c, l) in OneEach(n) <==> c < n && l == 0
    ensures CountAt(OneEach(n), c, l) == if c < n && l == 0 then 1 else 0
  {
    if n > 0 { OneEachAt(n - 1, c, l); }
  }

  lemma IndexOfAt(vg: seq<Hash>, k: nat)
    requires NoDup(vg) && k < |vg|
    ensures vg[k] in Elems(vg) && IndexOf(vg, vg[k]) == k
  {
    var j := IndexOf(vg, vg[k]);
    assert vg[j] == vg[k];
  }

  lemma GenesisTreeValid(vg: seq<Hash>, g: Hash)
    requires NoDup(vg)
    ensures V.Valid(GenesisTree(vg, g), map[g := 0], vg) && TipsOk(vg, GenesisTree(vg, g))
  {
    var t := GenesisTree(vg, g);
    forall k | 0 <= k < |vg|
      ensures V.GenesisOk(t, map[g := 0], vg[k], k) && OnChain(t, vg[k], k)
    {
      IndexOfAt(vg, k);
    }
    forall v | v in t.level && v !in t.parent
      ensures t.chain[v] < |vg| && v == vg[t.chain[v]]
    {
      assert t.chain[v] == IndexOf(vg, v);
    }
  }

  lemma GenesisBest(vg: seq<Hash>, g: Hash)
    requires NoDup(vg)
    ensures BestOk(GenesisTips(vg), GenesisTree(vg, g))
  {
    var t, best := GenesisTree(vg, g), GenesisTips(vg);
    forall k | 0 <= k < |vg|
      ensures OnChain(t, best[k].0, k) && t.level[best[k].0] == best[k].1
    {
      IndexOfAt(vg, k);
    }
    forall v | v in t.level && v in t.chain
      ensures t.chain[v] < |best| && t.level[v] <= best[t.chain[v]].1
    {
      assert t.chain[v] == IndexOf(vg, v);
    }
  }

  lemma GenesisBlocksAt(vg: seq<Hash>, g: Hash, k: nat, l: nat)
    requires NoDup(vg)
    ensures |BlocksAt(GenesisTree(vg, g), k, l)| == if k < |vg| && l == 0 then 1 else 0
  {
    var t := GenesisTree(vg, g);
    if k < |vg| && l == 0 {
      IndexOfAt(vg, k);
      forall v | v in BlocksAt(t, k, l)
        ensures v == vg[k]
      {
        assert t.chain[v] == IndexOf(vg, v);
      }
      assert vg[k] in BlocksAt(t, k, l);
      assert BlocksAt(t, k, l) == {vg[k]};
    } else {
      forall v ensures v !in BlocksAt(t, k, l) {
        if v in t.level { assert t.chain[v] == IndexOf(vg, v); }
      }
      assert BlocksAt(t, k, l) == {};
    }
  }

  lemma GenesisCounts(vg: seq<Hash>, g: Hash, best: seq<(Hash, nat)>)
    requires NoDup(vg) && best == GenesisTips(vg)
    ensures CountsOk(OneEach(|vg|), map[g := |Elems(vg)|], best, GenesisTree(vg, g))
  {
    hide OneEach, BlocksAt;
    var t := GenesisTree(vg, g);
    forall k: nat, l: nat
      ensures CountAt(OneEach(|vg|), k, l) == |BlocksAt(t, k, l)|
      ensures k < |best| && l <= best[k].1 ==> (k, l) in OneEach(|vg|)
    {
      OneEachAt(|vg|, k, l);
      GenesisBlocksAt(vg, g, k, l);
    }
    forall p: Hash
      ensures VotesFor(map[g := |Elems(vg)|], p) == |VotersOf(t, p)|
    {
      assert VotersOf(t, p) == if p == g then Elems(vg) else {};
    }
  }

  lemma GenesisIndex(vg: seq<Hash>, g: Hash)
    requires NoDup(vg) && V.Valid(GenesisTree(vg, g), map[g := 0], vg) && TipsOk(vg, GenesisTree(vg, g))
    ensures Indexed(map[g := GenesisVotes(|vg|)], TipVotes(GenesisTree(vg, g), map[g := 0], vg, vg))
  {
    hide V.Valid;
    var t := GenesisTree(vg, g);
    var w := TipVotes(t, map[g := 0], vg, vg);
    forall k | 0 <= k < |w|
      ensures w[k] == map[g := 0]
    {
      IndexOfAt(vg, k);
    }
    GenesisIndexed(|vg|, g, w);
  }

  lemma GenesisIndexed(n: nat, g: Hash, w: seq<map<Hash, nat>>)
    requires |w| == n && forall k :: 0 <= k < n ==> w[k] == map[g := 0]
    ensures Indexed(map[g := GenesisVotes(n)], w)
  {
    var list := GenesisVotes(n);
    var f := Column(w, g);
    forall e: Entry
      ensures e in list <==> e.0 in f && f[e.0] == e.1
    {
      if e.0 < n && e.1 == 0 { assert list[e.0] == e; }
    }
    forall p: Hash | p != g
      ensures Exact([], Column(w, p))
    {
      assert Column(w, p) == map[];
    }
  }

  lemma GenesisProposers(g: Hash)
    ensures ProposersOk(L.Dag(map[g := []], map[g := 0]), g) && TreeOk(map[0 := [g]], map[g := 0], 0)
  {
  }

  lemma GenesisVisit(d: L.Dag, g: Hash)
    requires L.Valid(d) && g in d.refs && d.refs[g] == []
    ensures L.Visit(d, g, {}) == [g]
  {
    assert L.VisitAll(d, [], d.level[g], {}) == [];
  }

  lemma GenesisLedger(g: Hash)
    ensures
      var d := L.Dag(map[g := []], map[g := 0]);
      L.Valid(d) && LedgerOk(d, map[0 := g], map[0 := [g]], 0, {})
  {
    hide L.Visit, L.VisitAll;
    var d := L.Dag(map[g := []], map[g := 0]);
    var leaders: map<nat, Hash> := map[0 := g];
    assert LeadersOk(d, leaders) && HasRun(leaders, 0) && HasRun(leaders, 1);
    ScratchStep(d, leaders, 0);
    var none := Scratch(d, leaders, 0);
    assert none == [] && Elems(Flatten(none)) == {};
    GenesisVisit(d, g);
    assert Scratch(d, leaders, 1) == [[g]];
    FlattenOne([g]);
    assert d.refs.Keys - Elems([g]) == {};
  }

  lemma FlattenOne(s: seq<Hash>)
    ensures Flatten([s]) == s
  {
    assert [s][..0] == [];
  }

  /** The state after `new` satisfies every invariant. */
  lemma GenesisKeeps(c: Config)
    requires WellFormed(c)
    ensures Inv(c, Genesis(c))
  {
    hide V.Valid, BestOk, CountsOk, TipsOk, ProposersOk, TreeOk, LedgerOk, GenesisTree, OneEach, Indexed, TipVotes,
      GenesisTips, GenesisVotes;
    var vg, g := c.voterGenesis, c.proposerGenesis;
    GenesisTreeValid(vg, g);
    GenesisBest(vg, g);
    GenesisCounts(vg, g, Genesis(c).voterBest);
    GenesisIndex(vg, g);
    GenesisProposers(g);
    GenesisLedger(g);
  }

  // ---- proposer insertion ----

  function AfterProposer(s: State, hash: Hash, parent: Hash, refs: seq<Hash>, transactions: seq<Hash>): State
    requires parent in s.db.dag.level
  {
    var level := s.db.dag.level[parent] + 1;
    s.(db := s.db.(
         dag := L.Dag(s.db.dag.refs[hash := [parent] + refs], s.db.dag.level[hash := level]),
         transactionRefs := s.db.transactionRefs[hash := transactions],
         treeLevel := s.db.treeLevel[level := (if level in s.db.treeLevel then s.db.treeLevel[level]
                                               else []) + [hash]]),
       proposerBestLevel := if level > s.proposerBestLevel then level else s.proposerBestLevel,
       unconfirmedProposers := s.unconfirmedProposers + {hash})
  }

  /** What validation established before a proposer block is inserted. */
  ghost predicate ProposerAdmissible(s: State, hash: Hash, parent: Hash, refs: seq<Hash>) {
    && hash !in s.db.dag.level
    && parent in s.db.dag.level
    && RefsBelow(s.db.dag, refs, s.db.dag.level[parent] + 1)
  }

  lemma ProposerKeepsProposers(c: Config, s: State, hash: Hash, parent: Hash, refs: seq<Hash>, transactions: seq<Hash>)
    requires ProposersInv(c, s) && ProposerAdmissible(s, hash, parent, refs)
    ensures ProposersInv(c, AfterProposer(s, hash, parent, refs, transactions))
    ensures L.Agree(s.db.dag, AfterProposer(s, hash, parent, refs, transactions).db.dag)
  {
    hide ProposersOk, TreeOk, L.Valid, L.Agree, RefsBelow;
    var d, all, level := s.db.dag, [parent] + refs, s.db.dag.level[parent] + 1;
    InsertedRefs(c, s, hash, parent, refs);
    AddProposer(d, c.proposerGenesis, hash, all);
    AddedIsValid(d, hash, all, level);
    AddToTree(s.db.treeLevel, d.level, s.proposerBestLevel, hash, level);
    assert AfterProposer(s, hash, parent, refs, transactions).db.transactionRefs.Keys == s.db.dag.refs.Keys + {hash};
    assert AfterProposer(s, hash, parent, refs, transactions).db.dag == Added(d, hash, all, level);
  }

  lemma InsertedRefs(c: Config, s: State, hash: Hash, parent: Hash, refs: seq<Hash>)
    requires ProposersInv(c, s) && ProposerAdmissible(s, hash, parent, refs)
    ensures L.Valid(s.db.dag) && s.db.dag.refs.Keys == s.db.dag.level.Keys
    ensures RefsBelow(s.db.dag, [parent] + refs, s.db.dag.level[parent] + 1) && ([parent] + refs)[0] == parent
    ensures s.db.dag.level[parent] <= s.proposerBestLevel
  {
    assert s.db.dag.level[parent] in s.db.treeLevel;
  }

  lemma ProposerKeepsVoters(c: Config, s: State, hash: Hash, parent: Hash, refs: seq<Hash>, transactions: seq<Hash>)
    requires ProposersInv(c, s) && VotersInv(c, s) && IndexInv(c, s) && ProposerAdmissible(s, hash, parent, refs)
    ensures VotersInv(c, AfterProposer(s, hash, parent, refs, transactions))
    ensures IndexInv(c, AfterProposer(s, hash, parent, refs, transactions))
  {
    hide V.Valid, BestOk, CountsOk, TipsOk, Indexed, TipVotes;
    var pl, ql := s.db.dag.level, s.db.dag.level[hash := s.db.dag.level[parent] + 1];
    VotersKeepOnProposer(s.db.voters, pl, ql, c.voterGenesis);
    TipVotesFrame(s.db.voters, pl, s.db.voters, ql, c.voterGenesis, s.voterLedgerTips);
  }

  lemma ProposerKeepsLedger(c: Config, s: State, hash: Hash, parent: Hash, refs: seq<Hash>, transactions: seq<Hash>)
    requires ProposersInv(c, s) && LedgerInv(s) && ProposerAdmissible(s, hash, parent, refs)
    ensures
      var s' := AfterProposer(s, hash, parent, refs, transactions);
      && L.Valid(s'.db.dag) && LedgerInv(s')
      && Scratch(s'.db.dag, s'.db.leaderSequence, s'.ledgerTip + 1)
        == Scratch(s.db.dag, s.db.leaderSequence, s.ledgerTip + 1)
  {
    hide TreeOk, L.Agree, RefsBelow, LedgerOk, Scratch, AboveParent;
    ProposerKeepsProposers(c, s, hash, parent, refs, transactions);
    var s' := AfterProposer(s, hash, parent, refs, transactions);
    assert s'.db.dag.refs.Keys == s.db.dag.refs.Keys + {hash};
    LedgerKeepsOnProposer(s.db.dag, s'.db.dag, s.db.leaderSequence, s.db.ledgerOrder, s.ledgerTip,
                          s.unconfirmedProposers, hash);
  }

  /** Inserting a proposer block keeps everything, and leaves the ledger as it is. */
  lemma ProposerKeeps(c: Config, s: State, hash: Hash, parent: Hash, refs: seq<Hash>, transactions: seq<Hash>)
    requires Inv(c, s) && ProposerAdmissible(s, hash, parent, refs)
    ensures Inv(c, AfterProposer(s, hash, parent, refs, transactions))
    ensures LedgerOf(c, AfterProposer(s, hash, parent, refs, transactions)) == LedgerOf(c, s)
    ensures TransactionLedger(c, AfterProposer(s, hash, parent, refs, transactions)) == TransactionLedger(c, s)
  {
    ProposerKeepsProposers(c, s, hash, parent, refs, transactions);
    ProposerKeepsVoters(c, s, hash, parent, refs, transactions);
    ProposerKeepsLedger(c, s, hash, parent, refs, transactions);
    LedgerWithinDag(c, s);
    TransactionsFrame(s.db.transactionRefs, hash, transactions, Flatten(LedgerOf(c, s)));
  }

  lemma {:induction false} TransactionsFrame(refs: map<Hash, seq<Hash>>, hash: Hash, transactions: seq<Hash>,
                                             blocks: seq<Hash>)
    requires hash !in refs && forall b :: b in blocks ==> b in refs
    ensures forall b :: b in blocks ==> b in refs[hash := transactions]
    ensures TransactionsOf(refs[hash := transactions], blocks) == TransactionsOf(refs, blocks)
  {
    if blocks != [] {
      var k := |blocks| - 1;
      assert blocks[k] in blocks;
      TransactionsFrame(refs, hash, transactions, blocks[..k]);
    }
  }

  // ---- voter insertion ----

  /** Every vote counts once for its proposer block. */
  function CountVotes(counts: map<Hash, nat>, votes: seq<Hash>): map<Hash, nat> {
    if votes == [] then counts else
      var m := CountVotes(counts, votes[..|votes| - 1]);
      var p := votes[|votes| - 1];
      m[p := VotesFor(m, p) + 1]
  }

  lemma {:induction false} CountVotesAt(counts: map<Hash, nat>, votes: seq<Hash>, p: Hash)
    requires NoDup(votes)
    ensures VotesFor(CountVotes(counts, votes), p) == VotesFor(counts, p) + if p in votes then 1 else 0
  {
    if votes != [] {
      var k := |votes| - 1;
      assert votes == votes[..k] + [votes[k]];
      CountVotesAt(counts, votes[..k], p);
    }
  }

  function AfterVoter(s: State, hash: Hash, parent: Hash, voterParent: Hash, votes: seq<Hash>): State
    requires parent in s.db.dag.level && voterParent in s.db.voters.level && voterParent in s.db.voters.chain
  {
    var level := s.db.voters.level[voterParent] + 1;
    var chain := s.db.voters.chain[voterParent];
    s.(db := s.db.(
         voters := V.VoterTree(s.db.voters.level[hash := level], s.db.voters.chain[hash := chain],
                               s.db.voters.parent[hash := voterParent],
                               s.db.voters.votes[hash := votes], s.db.voters.voted[hash := s.db.dag.level[parent]]),
         levelCount := s.db.levelCount[(chain, level) := CountAt(s.db.levelCount, chain, level) + 1],
         voteCount := CountVotes(s.db.voteCount, votes)),
       voterBest := if chain < |s.voterBest| && level > s.voterBest[chain].1 then s.voterBest[chain := (hash, level)]
         else s.voterBest)
  }

  /** What validation established before a voter block is inserted: `check_levels_voted` on the header's
      proposer parent and the votes of the voter parent's chain. */
  ghost predicate VoterAdmissible(s: State, hash: Hash, parent: Hash, voterParent: Hash, votes: seq<Hash>) {
    && hash !in s.db.voters.level
    && parent in s.db.dag.level
    && voterParent in s.db.voters.level && voterParent in s.db.voters.chain && voterParent in s.db.voters.voted
    && LevelsVoted(s, parent, voterParent, votes)
  }

  predicate LevelsVoted(s: State, parent: Hash, voterParent: Hash, votes: seq<Hash>)
    requires parent in s.db.dag.level && voterParent in s.db.voters.voted
  {
    && s.db.voters.voted[voterParent] <= s.db.dag.level[parent]
    && V.VotesLevels(votes, s.db.dag.level, s.db.voters.voted[voterParent] + 1, s.db.dag.level[parent] + 1)
  }

  lemma VoterKeepsTree(c: Config, s: State, hash: Hash, parent: Hash, voterParent: Hash, votes: seq<Hash>)
    requires VotersInv(c, s) && VoterAdmissible(s, hash, parent, voterParent, votes)
    ensures
      var s' := AfterVoter(s, hash, parent, voterParent, votes);
      && V.Valid(s'.db.voters, s'.db.dag.level, c.voterGenesis)
      && Extends(s.db.voters, s'.db.voters)
      && s'.db.voters == Grown(s.db.voters, hash, voterParent, votes, s.db.dag.level[parent])
      && hash !in s.db.voters.votes
  {
    hide BestOk, CountsOk, TipsOk, Extends, V.VotesLevels, V.GenesisOk, V.ChildOk, CountVotes;
    AddVoter(s.db.voters, s.db.dag.level, c.voterGenesis, hash, voterParent, votes, s.db.dag.level[parent]);
  }

  lemma VoterKeepsBest(c: Config, s: State, hash: Hash, parent: Hash, voterParent: Hash, votes: seq<Hash>)
    requires VotersInv(c, s) && VoterAdmissible(s, hash, parent, voterParent, votes)
    ensures
      var s' := AfterVoter(s, hash, parent, voterParent, votes);
      && |s'.voterBest| == |s.voterBest| && BestOk(s'.voterBest, s'.db.voters)
        && TipsOk(s'.voterLedgerTips, s'.db.voters)
  {
    hide CountsOk, V.Valid, LevelsVoted;
    var s' := AfterVoter(s, hash, parent, voterParent, votes);
    var t, u := s.db.voters, s'.db.voters;
    forall k | 0 <= k < |s'.voterBest|
      ensures OnChain(u, s'.voterBest[k].0, k) && u.level[s'.voterBest[k].0] == s'.voterBest[k].1
    {
      assert OnChain(t, s.voterBest[k].0, k);
    }
    forall v | v in u.level && v in u.chain
      ensures u.chain[v] < |s'.voterBest| && u.level[v] <= s'.voterBest[u.chain[v]].1
    {
      assert voterParent in t.level && t.chain[voterParent] < |s.voterBest|;
      if v != hash { assert v in t.level && v in t.chain; }
    }
    forall k | 0 <= k < |s'.voterLedgerTips|
      ensures OnChain(u, s'.voterLedgerTips[k], k)
    {
      assert OnChain(t, s.voterLedgerTips[k], k);
    }
  }

  lemma VotesDistinct(votes: seq<Hash>, pl: map<Hash, nat>, from: nat, to: nat)
    requires V.VotesLevels(votes, pl, from, to)
    ensures NoDup(votes)
  {
    forall i, j | 0 <= i < j < |votes| ensures votes[i] != votes[j] {
      assert pl[votes[i]] == from + i && pl[votes[j]] == from + j;
    }
  }

  lemma VoterKeepsLevelCounts(c: Config, s: State, hash: Hash, parent: Hash, voterParent: Hash, votes: seq<Hash>)
    requires VotersInv(c, s) && VoterAdmissible(s, hash, parent, voterParent, votes)
    ensures
      var s' := AfterVoter(s, hash, parent, voterParent, votes);
      LevelCountsOk(s'.db.levelCount, s'.voterBest, s'.db.voters)
  {
    hide V.Valid, TipsOk, BlocksAt, VotersOf, CountVotes, LevelsVoted, Extends;
    VoterKeepsTree(c, s, hash, parent, voterParent, votes);
    var s' := AfterVoter(s, hash, parent, voterParent, votes);
    var t := s.db.voters;
    forall k: nat, l: nat
      ensures CountAt(s'.db.levelCount, k, l) == |BlocksAt(s'.db.voters, k, l)|
    {
      CountsGrow(t, hash, voterParent, votes, s.db.dag.level[parent], k, l);
    }
    VoterKeepsCounted(c, s, hash, parent, voterParent, votes);
  }

  lemma VoterKeepsCounted(c: Config, s: State, hash: Hash, parent: Hash, voterParent: Hash, votes: seq<Hash>)
    requires VotersInv(c, s) && VoterAdmissible(s, hash, parent, voterParent, votes)
    ensures
      var s' := AfterVoter(s, hash, parent, voterParent, votes);
      forall k: nat, l: nat :: 0 <= k < |s'.voterBest| && l <= s'.voterBest[k].1 ==> (k, l) in s'.db.levelCount
  {
    hide V.Valid, TipsOk, BlocksAt, VotersOf, CountVotes, LevelsVoted, CountAt;
    var s' := AfterVoter(s, hash, parent, voterParent, votes);
    var t := s.db.voters;
    assert voterParent in t.level && voterParent in t.chain;
    forall k: nat, l: nat | 0 <= k < |s'.voterBest| && l <= s'.voterBest[k].1
      ensures (k, l) in s'.db.levelCount
    {
      if l <= s.voterBest[k].1 { assert (k, l) in s.db.levelCount; }
    }
  }

  lemma VoterKeepsCounts(c: Config, s: State, hash: Hash, parent: Hash, voterParent: Hash, votes: seq<Hash>)
    requires VotersInv(c, s) && VoterAdmissible(s, hash, parent, voterParent, votes)
    ensures
      var s' := AfterVoter(s, hash, parent, voterParent, votes);
      CountsOk(s'.db.levelCount, s'.db.voteCount, s'.voterBest, s'.db.voters)
  {
    hide V.Valid, TipsOk, BestOk, LevelCountsOk, BlocksAt, VotersOf, CountVotes, Extends;
    VoterKeepsLevelCounts(c, s, hash, parent, voterParent, votes);
    VoterKeepsTree(c, s, hash, parent, voterParent, votes);
    var s' := AfterVoter(s, hash, parent, voterParent, votes);
    var t, voted := s.db.voters, s.db.dag.level[parent];
    VotesDistinct(votes, s.db.dag.level, t.voted[voterParent] + 1, voted + 1);
    forall p: Hash
      ensures VotesFor(s'.db.voteCount, p) == |VotersOf(s'.db.voters, p)|
    {
      CountVotesAt(s.db.voteCount, votes, p);
      VotersGrow(t, hash, voterParent, votes, voted, p);
    }
  }

  /** Inserting a voter block keeps everything, and leaves the ledger as it is. */
  lemma VoterKeeps(c: Config, s: State, hash: Hash, parent: Hash, voterParent: Hash, votes: seq<Hash>)
    requires Inv(c, s) && VoterAdmissible(s, hash, parent, voterParent, votes)
    ensures Inv(c, AfterVoter(s, hash, parent, voterParent, votes))
    ensures LedgerOf(c, AfterVoter(s, hash, parent, voterParent, votes)) == LedgerOf(c, s)
    ensures TransactionLedger(c, AfterVoter(s, hash, parent, voterParent, votes)) == TransactionLedger(c, s)
  {
    hide V.Valid, BestOk, CountsOk, TipsOk, Extends, Indexed, TipVotes, Scratch, TransactionsOf, ProposersOk, TreeOk;
    var s' := AfterVoter(s, hash, parent, voterParent, votes);
    VoterKeepsTree(c, s, hash, parent, voterParent, votes);
    VoterKeepsBest(c, s, hash, parent, voterParent, votes);
    VoterKeepsCounts(c, s, hash, parent, voterParent, votes);
    TipVotesFrame(s.db.voters, s.db.dag.level, s'.db.voters, s'.db.dag.level, c.voterGenesis, s.voterLedgerTips);
  }

  // ---- what the elections can rely on ----

  lemma TipVotesAt(c: Config, s: State, k: nat)
    requires VotersInv(c, s) && k < c.voterChains
    ensures
      var v := s.voterLedgerTips[k];
      && v in s.db.voters.level && v in s.db.voters.voted
      && s.db.voters.level[v] <= s.voterBest[k].1
      && TipVotes(s.db.voters, s.db.dag.level, c.voterGenesis, s.voterLedgerTips)[k]
        == V.MainVotes(s.db.voters, s.db.dag.level, c.voterGenesis, v)
  {
    hide CountsOk, V.ChildOk, V.GenesisOk;
    assert OnChain(s.db.voters, s.voterLedgerTips[k], k);
  }

  /** Every stored vote lies on a counted level of its chain, at or below the best block. */
  lemma VotesReachable(c: Config, s: State)
    requires VotersInv(c, s) && IndexInv(c, s)
    ensures Reachable(s.db.nodeVotes, s.db.levelCount, s.voterBest)
  {
    hide V.Valid, BestOk, TipsOk, BlocksAt, TipVotes, V.MainVotes;
    var w := TipVotes(s.db.voters, s.db.dag.level, c.voterGenesis, s.voterLedgerTips);
    forall p: Hash, e: Entry | e in Entries(s.db.nodeVotes, p)
      ensures e.0 < |s.voterBest| && e.1 <= s.voterBest[e.0].1
    {
      assert Exact(Entries(s.db.nodeVotes, p), Column(w, p));
      assert e.0 in Column(w, p);
      TipVotesAt(c, s, e.0);
      V.MainVotesOnePerLevel(s.db.voters, s.db.dag.level, c.voterGenesis, s.voterLedgerTips[e.0]);
    }
  }

  /** The votes stored on a level number exactly the chains whose ledger tip has voted it: at most one per
      chain, so the sanity check of the election cannot fire. */
  lemma LevelVotes(c: Config, s: State, l: nat)
    requires ProposersInv(c, s) && VotersInv(c, s) && IndexInv(c, s) && l in s.db.treeLevel
    ensures forall k :: 0 <= k < c.voterChains ==> s.voterLedgerTips[k] in s.db.voters.voted
    ensures TotalVotes(s.db.nodeVotes, s.db.treeLevel[l]) ==
            |set k | 0 <= k < c.voterChains && l <= s.db.voters.voted[s.voterLedgerTips[k]]| <= c.voterChains
  {
    hide V.Valid, BestOk, TipsOk, CountsOk, TipVotes, V.MainVotes, Indexed, ProposersOk, TotalVotes, V.OnePerLevel;
    forall k | 0 <= k < c.voterChains
      ensures s.voterLedgerTips[k] in s.db.voters.voted
    {
      TipVotesAt(c, s, k);
    }
    var w := TipVotes(s.db.voters, s.db.dag.level, c.voterGenesis, s.voterLedgerTips);
    var voted := seq(c.voterChains, k requires 0 <= k < c.voterChains => s.db.voters.voted[s.voterLedgerTips[k]]);
    forall k | 0 <= k < |w|
      ensures V.OnePerLevel(w[k], s.db.dag.level, voted[k])
    {
      TipVotesAt(c, s, k);
      V.MainVotesOnePerLevel(s.db.voters, s.db.dag.level, c.voterGenesis, s.voterLedgerTips[k]);
    }
    LevelVotesBounded(s.db.nodeVotes, w, s.db.dag.level, voted, s.db.treeLevel[l], l);
    assert (set k | 0 <= k < |w| && l <= voted[k])
      == (set k | 0 <= k < c.voterChains && l <= s.db.voters.voted[s.voterLedgerTips[k]]);
  }
}
