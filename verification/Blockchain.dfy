/** The block chain store as the node runs it: fields that hold the column families, methods that edit them.

    `Valid()` is what every run keeps: `new` establishes it, `InsertProposer`, `InsertVoter`, `InsertTransaction`
    and the two halves of `UpdateLedger` preserve it, in any order and any number of times. */
module Blockchain {
  import opened Common
  import L = Linearization
  import V = VoterTrees
  import opened VoteIndex
  import opened ChainInvariants
  import opened Leader
  import opened LedgerUpdate
  import opened Store
  import opened Links

  class BlockChain {
    const config: Config
    const voteBound: VoteBound

    var db: Columns
    var proposerBestLevel: nat
    var voterBest: seq<(Hash, nat)>
    var unconfirmedProposers: set<Hash>
    var ledgerTip: nat
    var voterLedgerTips: seq<Hash>
    var links: Links
    ghost var transactionBlocks: set<Hash>

    /** The stored state as a value. */
    ghost function S(): State
      reads this
    {
      State(db, proposerBestLevel, voterBest, unconfirmedProposers, ledgerTip, voterLedgerTips)
    }

    ghost predicate Valid()
      reads this
    {
      && Sound(voteBound) && Inv(config, S())
      && LinksOk(config.proposerGenesis, db.dag.refs, db.transactionRefs, db.voters.level.Keys, transactionBlocks,
                 links)
    }

    /** The block is not in the chain. */
    predicate New(hash: Hash)
      reads this
    {
      hash != config.proposerGenesis && hash !in links.parents
    }

    constructor (config: Config, voteBound: VoteBound)
      requires WellFormed(config) && Sound(voteBound)
      ensures Valid() && this.config == config && this.voteBound == voteBound
      ensures S() == Genesis(config)
      ensures links == GenesisLinks(config.proposerGenesis, config.voterGenesis) && transactionBlocks == {}
    {
      hide Inv, OneEach, LinksOk, GenesisTree, GenesisVotes, GenesisTips, GenesisLinks;
      this.config, this.voteBound := config, voteBound;
      var start := Genesis(config);
      db, proposerBestLevel, voterBest := start.db, 0, start.voterBest;
      unconfirmedProposers, ledgerTip, voterLedgerTips := {}, 0, config.voterGenesis;
      links, transactionBlocks := GenesisLinks(config.proposerGenesis, config.voterGenesis), {};
      new;
      GenesisKeeps(config);
      GenesisIsLinked(config);
    }

    /** Insert a proposer block that passed its checks. The ledger does not change. */
    method InsertProposer(hash: Hash, parent: Hash, refs: seq<Hash>, transactions: seq<Hash>)
      requires Valid() && New(hash) && ProposerAdmissible(S(), hash, parent, refs)
      requires forall x :: x in transactions ==> x in links.parents
      modifies this`db, this`proposerBestLevel, this`unconfirmedProposers, this`links
      ensures Valid() && links == WithProposer(old(links), hash, parent, refs, transactions)
      ensures links.parents == old(links.parents)[hash := parent]
      ensures db.dag.refs == old(db.dag.refs)[hash := [parent] + refs]
      ensures db.dag.level == old(db.dag.level)[hash := old(db.dag.level)[parent] + 1]
      ensures db.transactionRefs == old(db.transactionRefs)[hash := transactions]
      ensures
        var level := old(db.dag.level)[parent] + 1;
        var siblings := if level in old(db.treeLevel) then old(db.treeLevel)[level] else [];
        && db.treeLevel == old(db.treeLevel)[level := siblings + [hash]]
        && proposerBestLevel == if level > old(proposerBestLevel) then level else old(proposerBestLevel)
      ensures db == old(db).(dag := db.dag, transactionRefs := db.transactionRefs, treeLevel := db.treeLevel)
      ensures unconfirmedProposers == old(unconfirmedProposers) + {hash}
      ensures S() == AfterProposer(old(S()), hash, parent, refs, transactions)
      ensures LedgerOf(config, S()) == old(LedgerOf(config, S()))
                && TransactionLedger(config, S()) == old(TransactionLedger(config, S()))
    {
      hide Inv, LedgerOf, TransactionLedger, Sound, RefsBelow, LinksOk;
      ProposerKeeps(config, S(), hash, parent, refs, transactions);
      RefsKnown(config, S(), parent, refs);
      ProposerLinked(config.proposerGenesis, db.dag.refs, db.transactionRefs, db.voters.level.Keys, transactionBlocks,
                     links,
                     hash, parent, refs, transactions);
      var referred := [parent] + refs;
      var level := db.dag.level[parent] + 1;
      var siblings := if level in db.treeLevel then db.treeLevel[level] else [];
      unconfirmedProposers := unconfirmedProposers + {hash};
      db := db.(dag := L.Dag(db.dag.refs[hash := referred], db.dag.level[hash := level]),
                transactionRefs := db.transactionRefs[hash := transactions],
                treeLevel := db.treeLevel[level := siblings + [hash]]);
      if level > proposerBestLevel {
        proposerBestLevel := level;
      }
      links := WithProposer(links, hash, parent, refs, transactions);
    }

    /** Insert a voter block that passed its checks. Neither the vote index nor the ledger changes. */
    method InsertVoter(hash: Hash, parent: Hash, voterParent: Hash, votes: seq<Hash>)
      requires Valid() && New(hash) && VoterAdmissible(S(), hash, parent, voterParent, votes)
      modifies this`db, this`voterBest, this`links
      ensures Valid() && links == WithVoter(old(links), hash, parent)
      ensures links.parents == old(links.parents)[hash := parent]
      ensures db.voters == V.VoterTree(old(db.voters.level)[hash := old(db.voters.level)[voterParent] + 1],
                                       old(db.voters.chain)[hash := old(db.voters.chain)[voterParent]],
                                       old(db.voters.parent)[hash := voterParent],
                                       old(db.voters.votes)[hash := votes],
                                       old(db.voters.voted)[hash := old(db.dag.level)[parent]])
      ensures
        var chain, level := old(db.voters.chain)[voterParent], old(db.voters.level)[voterParent] + 1;
        && chain < |old(voterBest)|
        && voterBest ==
           if level > old(voterBest)[chain].1 then old(voterBest)[chain := (hash, level)] else old(voterBest)
      ensures db == old(db).(voters := db.voters, levelCount := db.levelCount, voteCount := db.voteCount)
      ensures S() == AfterVoter(old(S()), hash, parent, voterParent, votes)
      ensures LedgerOf(config, S()) == old(LedgerOf(config, S()))
                && TransactionLedger(config, S()) == old(TransactionLedger(config, S()))
    {
      hide Inv, LedgerOf, TransactionLedger, Sound, LevelsVoted, CountVotes, LinksOk;
      VoterKeeps(config, S(), hash, parent, voterParent, votes);
      VoterLinked(config.proposerGenesis, db.dag.refs, db.transactionRefs, db.voters.level.Keys, transactionBlocks,
                  links, hash, parent);
      ChainInRange(config, S(), voterParent);
      var level := db.voters.level[voterParent] + 1;
      var chain := db.voters.chain[voterParent];
      var counts := CountEach(db.voteCount, votes);
      db := db.(voters := V.VoterTree(db.voters.level[hash := level], db.voters.chain[hash := chain],
                                      db.voters.parent[hash := voterParent], db.voters.votes[hash := votes],
                                      db.voters.voted[hash := db.dag.level[parent]]),
                levelCount := db.levelCount[(chain, level) := CountAt(db.levelCount, chain, level) + 1],
                voteCount := counts);
      if level > voterBest[chain].1 {
        voterBest := voterBest[chain := (hash, level)];
      }
      assert db.voters.level.Keys == old(db.voters.level.Keys) + {hash};
      links := WithVoter(links, hash, parent);
    }

    /** Insert a transaction block: only its existence is recorded. */
    method InsertTransaction(hash: Hash, parent: Hash)
      requires Valid() && New(hash)
      modifies this`links, this`transactionBlocks
      ensures Valid() && S() == old(S())
      ensures links == WithTransaction(old(links), hash, parent) && transactionBlocks == old(transactionBlocks) + {hash}
    {
      hide Inv, Sound, LinksOk;
      TransactionLinked(config.proposerGenesis, db.dag.refs, db.transactionRefs, db.voters.level.Keys,
                        transactionBlocks, links,
                        hash, parent);
      links := WithTransaction(links, hash, parent);
      transactionBlocks := transactionBlocks + {hash};
    }

    /** Bring votes, leaders and ledger up to date; return the transaction blocks added to and removed from
        the ledger, in ledger order. */
    method UpdateLedger() returns (added: seq<Hash>, removed: seq<Hash>, ghost range: Range, ghost diff: ProposerDiff)
      requires Valid()
      modifies this`db, this`unconfirmedProposers, this`ledgerTip, this`voterLedgerTips
      ensures Valid()
      ensures db == old(db).(nodeVotes := db.nodeVotes, leaderSequence := db.leaderSequence,
                             ledgerOrder := db.ledgerOrder)
      ensures voterLedgerTips == BestTips(voterBest)
      ensures forall p :: p in db.dag.level && !range.Has(db.dag.level[p]) ==>
                Entries(db.nodeVotes, p) == Entries(old(db.nodeVotes), p)
      ensures range.start.None? ==> db.leaderSequence == old(db.leaderSequence)
      ensures range.start.Some? ==>
                Updated(Votes(voteBound, config.voterChains, db.treeLevel, db.nodeVotes, db.levelCount, voterBest),
                        old(db.leaderSequence), db.leaderSequence,
                        Min(range.start.value, old(ledgerTip) + 1), range.end)
      ensures DiffOf(config, old(S()), S(), diff, added, removed)
    {
      hide Inv, TransactionLedger, Updated, BestTips, LinksOk, LedgerOf;
      var affected := UpdateVotes();
      range := affected;
      added, removed, diff := UpdateOrder(affected);
    }

    /** Stage 1 on the fields: only the vote index and the tips change. */
    method UpdateVotes() returns (range: Range)
      requires Valid()
      modifies this`db, this`voterLedgerTips
      ensures Valid() && db == old(db).(nodeVotes := db.nodeVotes)
      ensures voterLedgerTips == BestTips(voterBest) && range.Within(proposerBestLevel)
      ensures TransactionLedger(config, S()) == old(TransactionLedger(config, S()))
                && LedgerOf(config, S()) == old(LedgerOf(config, S()))
      ensures forall p :: p in db.dag.level && !range.Has(db.dag.level[p]) ==>
                Entries(db.nodeVotes, p) == Entries(old(db.nodeVotes), p)
    {
      hide V.Valid, BestOk, CountsOk, TipsOk, Indexed, TipVotes, ProposersOk, LedgerOk, Scratch, TransactionsOf;
      var index, tips;
      index, tips, range := MoveVotes(db.voters, db.dag.level, config.voterGenesis, proposerBestLevel, db.nodeVotes,
                                      voterLedgerTips, voterBest);
      db, voterLedgerTips := db.(nodeVotes := index), tips;
    }

    /** Stages 2 and 3 on the fields: only leaders and ledger change. */
    method UpdateOrder(range: Range) returns (added: seq<Hash>, removed: seq<Hash>, ghost diff: ProposerDiff)
      requires Valid() && range.Within(proposerBestLevel)
      modifies this`db, this`ledgerTip, this`unconfirmedProposers
      ensures Valid() && db == old(db).(leaderSequence := db.leaderSequence, ledgerOrder := db.ledgerOrder)
      ensures range.start.None? ==> db.leaderSequence == old(db.leaderSequence)
      ensures range.start.Some? ==>
                Updated(Votes(voteBound, config.voterChains, db.treeLevel, db.nodeVotes, db.levelCount, voterBest),
                        old(db.leaderSequence), db.leaderSequence,
                        Min(range.start.value, old(ledgerTip) + 1), range.end)
      ensures DiffOf(config, old(S()), S(), diff, added, removed)
    {
      hide V.Valid, BestOk, CountsOk, TipsOk, Indexed, TipVotes, TransactionsOf, TreeOk, Updated, FirstChange, Scratch,
        Elected;
      hide Sound, L.Valid, ProposersOk, Electable, LeadersOk, LedgerOk;
      ghost var s := S();
      OrderReady(voteBound, config, s);
      var votes := Votes(voteBound, config.voterChains, db.treeLevel, db.nodeVotes, db.levelCount, voterBest);
      var leaders, change := RecomputeLeaders(votes, db.dag, proposerBestLevel, db.leaderSequence, ledgerTip, range);
      if change.Some? {
        var order, blocks, gone;
        order, unconfirmedProposers, ledgerTip, blocks, gone :=
          RebuildLedger(db.dag, db.leaderSequence, leaders, db.ledgerOrder, ledgerTip, unconfirmedProposers,
                        change.value);
        db := db.(leaderSequence := leaders, ledgerOrder := order);
        added, removed := DiffTransactions(config, s, S(), db.transactionRefs, blocks, gone);
        diff := ProposerDiff(blocks, gone);
      } else {
        added, removed, diff := [], [], ProposerDiff([], []);
        SameLeaders(db.leaderSequence, leaders);
        NoDiff(config, S());
      }
    }
  }

  /** The proposer blocks that an update confirmed and deconfirmed. */
  datatype ProposerDiff = ProposerDiff(confirmed: seq<Hash>, deconfirmed: seq<Hash>)

  /** The ledger loses its end and gets a new one, and `added` and `removed` are the transaction blocks of the
      two ends. */
  ghost predicate DiffOf(c: Config, s: State, s': State, diff: ProposerDiff, added: seq<Hash>, removed: seq<Hash>)
    requires Inv(c, s) && Inv(c, s')
  {
    && (exists kept ::
          && Flatten(LedgerOf(c, s)) == kept + diff.deconfirmed
          && Flatten(LedgerOf(c, s')) == kept + diff.confirmed)
    && (exists kept :: TransactionLedger(c, s) == kept + removed && TransactionLedger(c, s') == kept + added)
    && (forall b :: b in diff.confirmed || b in diff.deconfirmed ==> b in s'.db.transactionRefs)
    && added == TransactionsOf(s'.db.transactionRefs, diff.confirmed)
    && removed == TransactionsOf(s'.db.transactionRefs, diff.deconfirmed)
  }

  lemma NoDiff(c: Config, s: State)
    requires Inv(c, s)
    ensures DiffOf(c, s, s, ProposerDiff([], []), [], [])
  {
    hide Inv, LedgerOf, TransactionLedger;
    assert Flatten(LedgerOf(c, s)) + [] == Flatten(LedgerOf(c, s));
    assert TransactionLedger(c, s) + [] == TransactionLedger(c, s);
  }

  lemma GenesisIsLinked(c: Config)
    ensures
      var db := Genesis(c).db;
      LinksOk(c.proposerGenesis, db.dag.refs, db.transactionRefs, db.voters.level.Keys, {},
              GenesisLinks(c.proposerGenesis, c.voterGenesis))
  {
    hide LinksOk, OneEach, GenesisVotes, GenesisTips, GenesisLinks;
    GenesisLinked(c.proposerGenesis, c.voterGenesis);
    assert GenesisTree(c.voterGenesis, c.proposerGenesis).level.Keys == Elems(c.voterGenesis);
  }

  lemma RefsKnown(c: Config, s: State, parent: Hash, refs: seq<Hash>)
    requires Inv(c, s) && parent in s.db.dag.level && RefsBelow(s.db.dag, refs, s.db.dag.level[parent] + 1)
    ensures parent in s.db.dag.refs && forall r :: r in refs ==> r in s.db.dag.refs
  {
    hide VotersInv, IndexInv, LedgerInv, TreeOk;
  }

  lemma OrderReady(bound: VoteBound, c: Config, s: State)
    requires Sound(bound) && Inv(c, s)
    ensures Electable(Votes(bound, c.voterChains, s.db.treeLevel, s.db.nodeVotes, s.db.levelCount, s.voterBest),
                      s.db.dag, s.proposerBestLevel)
    ensures L.Valid(s.db.dag) && LeadersOk(s.db.dag, s.db.leaderSequence)
  {
    VotesElectable(bound, c, s);
  }

  lemma ChainInRange(c: Config, s: State, v: Hash)
    requires Inv(c, s) && v in s.db.voters.level && v in s.db.voters.chain
    ensures s.db.voters.chain[v] < |s.voterBest|
  {
    hide V.Valid, CountsOk, TipsOk;
  }

  method CountEach(counts0: map<Hash, nat>, votes: seq<Hash>) returns (counts: map<Hash, nat>)
    ensures counts == CountVotes(counts0, votes)
  {
    counts := counts0;
    for i := 0 to |votes|
      invariant counts == CountVotes(counts0, votes[..i])
    {
      assert votes[..i + 1][..i] == votes[..i];
      counts := counts[votes[i] := VotesFor(counts, votes[i]) + 1];
    }
    assert votes[..|votes|] == votes;
  }

  lemma SameLeaders(leaders0: map<nat, Hash>, leaders: map<nat, Hash>)
    requires FirstChange(leaders0, leaders, None)
    ensures leaders == leaders0
  {
    forall l: nat
      ensures l in leaders <==> l in leaders0
      ensures l in leaders && l in leaders0 ==> leaders[l] == leaders0[l]
    {
      assert LeaderAt(leaders, l) == LeaderAt(leaders0, l);
    }
  }

  lemma VotesElectable(bound: VoteBound, c: Config, s: State)
    requires Sound(bound) && Inv(c, s)
    ensures Electable(Votes(bound, c.voterChains, s.db.treeLevel, s.db.nodeVotes, s.db.levelCount, s.voterBest),
                      s.db.dag, s.proposerBestLevel)
  {
    hide VotersInv, IndexInv, LedgerInv, TotalVotes, Reachable;
    VotesReachable(c, s);
    forall l | l in s.db.treeLevel
      ensures TotalVotes(s.db.nodeVotes, s.db.treeLevel[l]) <= c.voterChains
    {
      LevelVotes(c, s, l);
    }
  }

  /** Look up the transaction blocks of the added and removed proposer blocks. */
  method DiffTransactions(ghost c: Config, ghost s: State, ghost s': State, refs: map<Hash, seq<Hash>>,
                          blocks: seq<Hash>, gone: seq<Hash>)
    returns (added: seq<Hash>, removed: seq<Hash>)
    requires Inv(c, s) && Inv(c, s') && refs == s.db.transactionRefs == s'.db.transactionRefs
    requires exists kept :: Flatten(LedgerOf(c, s)) == kept + gone && Flatten(LedgerOf(c, s')) == kept + blocks
    ensures DiffOf(c, s, s', ProposerDiff(blocks, gone), added, removed)
  {
    hide Inv, LedgerOf;
    ghost var kept :| && Flatten(LedgerOf(c, s)) == kept + gone && Flatten(LedgerOf(c, s')) == kept + blocks;
    LedgerWithinDag(c, s);
    LedgerWithinDag(c, s');
    TransactionsConcat(refs, kept, gone);
    TransactionsConcat(refs, kept, blocks);
    removed := GatherTransactions(refs, gone);
    added := GatherTransactions(refs, blocks);
    assert TransactionLedger(c, s) == TransactionsOf(refs, kept) + removed;
    assert TransactionLedger(c, s') == TransactionsOf(refs, kept) + added;
  }

  method GatherTransactions(refs: map<Hash, seq<Hash>>, blocks: seq<Hash>) returns (r: seq<Hash>)
    requires forall b :: b in blocks ==> b in refs
    ensures r == TransactionsOf(refs, blocks)
  {
    r := [];
    for i := 0 to |blocks|
      invariant r == TransactionsOf(refs, blocks[..i])
    {
      assert blocks[..i + 1][..i] == blocks[..i];
      r := r + refs[blocks[i]];
    }
    assert blocks[..|blocks|] == blocks;
  }
}
