/** The node as its peers drive it: any blocks in any order, checked before they are inserted, while the ledger
    thread updates the ledger and hands the transactions of each diff to execution. */
module Nodes {
  import opened Common
  import opened Utxo
  import opened Rollback
  import L = Linearization
  import V = VoterTrees
  import opened ChainInvariants
  import opened Leader
  import opened LedgerUpdate
  import opened Store
  import opened Links
  import opened Blockchain
  import opened ChainTheorems
  import opened Voting
  import M = LedgerManager
  import opened Events
  import Dispatcher
  import Serializability

  /** The block is new, all it needs is there, and its checks pass. The existence of a transaction block is looked
      up by its parent link, which every kind of block has. */
  predicate Passes(s: State, root: Hash, k: Links, e: Event)
    requires IsBlock(e)
  {
    && e.hash != root && e.hash !in k.parents && e.parent in s.db.dag.level && e.sortition
    && match e
       case ProposerBlock(_, parent, refs, transactions, _) =>
         && (forall x :: x in transactions ==> x in k.parents)
         && (forall r :: r in refs ==> r in s.db.dag.level && s.db.dag.level[r] <= s.db.dag.level[parent])
       case VoterBlock(_, parent, voterParent, chainNumber, votes, _) =>
         && voterParent in s.db.voters.level && voterParent in s.db.voters.voted
         && voterParent in s.db.voters.chain && s.db.voters.chain[voterParent] == chainNumber
         && LevelsVoted(s, parent, voterParent, votes)
       case TransactionBlock(_, _, body, signatures, _) =>
         && signatures
         && Checked(body)
       case _ => true
  }

  /** What passes the checks may be inserted. */
  lemma PassesIsAdmissible(c: Config, s: State, k: Links, e: Event)
    requires Inv(c, s) && IsBlock(e) && Passes(s, c.proposerGenesis, k, e)
    requires k.parents.Keys + {c.proposerGenesis} >= s.db.dag.refs.Keys + s.db.voters.level.Keys
    ensures e.ProposerBlock? ==> ProposerAdmissible(s, e.hash, e.parent, e.refs)
    ensures e.VoterBlock? ==> VoterAdmissible(s, e.hash, e.parent, e.voterParent, e.votes)
  {
    hide VotersInv, IndexInv, LedgerInv, TreeOk, LevelsVoted;
  }

  /** Availability first, then the proof, then the content checks of the block's kind. */
  method Check(s: State, ghost c: Config, root: Hash, k: Links, e: Event) returns (ok: bool)
    requires Inv(c, s) && IsBlock(e)
    ensures ok <==> Passes(s, root, k, e)
  {
    hide Inv, LevelsVoted, Checked;
    if e.hash == root || e.hash in k.parents || e.parent !in s.db.dag.level || !e.sortition {
      return false;
    }
    match e
    case ProposerBlock(_, parent, refs, transactions, _) =>
      ok := && (forall i :: 0 <= i < |transactions| ==> transactions[i] in k.parents)
            && (forall i :: 0 <= i < |refs| ==> refs[i] in s.db.dag.level);
      if ok {
        ok := CheckRefProposerLevel(s.db.dag.level, parent, refs);
      }
    case VoterBlock(_, parent, voterParent, chainNumber, votes, _) =>
      VoterColumns(c, s);
      LevelsKnown(s, parent, voterParent, votes);
      ok := voterParent in s.db.voters.level && forall i :: 0 <= i < |votes| ==> votes[i] in s.db.dag.level;
      if ok {
        ok := s.db.voters.chain[voterParent] == chainNumber;
      }
      if ok {
        ok := CheckLevelsVoted(s, parent, voterParent, votes);
      }
    case TransactionBlock(_, _, body, signatures, _) =>
      ok := CheckTransactions(body);
      ok := ok && signatures;
    case _ => assert false;
  }

  method CheckTransactions(body: seq<Transaction>) returns (ok: bool)
    ensures ok <==> Checked(body)
  {
    hide CheckNonEmpty, CheckNonZero, CheckSufficientInput;
    for i := 0 to |body|
      invariant forall t :: t in body[..i] ==> CheckNonEmpty(t) && CheckNonZero(t) && CheckSufficientInput(t)
    {
      assert body[i] in body && body[..i + 1] == body[..i] + [body[i]];
      if !CheckNonEmpty(body[i]) || !CheckNonZero(body[i]) || !CheckSufficientInput(body[i]) {
        return false;
      }
    }
    assert body[..|body|] == body;
    ok := true;
  }

  lemma VoterColumns(c: Config, s: State)
    requires Inv(c, s)
    ensures s.db.voters.level.Keys == s.db.voters.chain.Keys == s.db.voters.voted.Keys
  {
    hide ProposersInv, IndexInv, LedgerInv, BestOk, CountsOk, TipsOk;
  }

  /** Accepted votes are for known blocks. */
  lemma LevelsKnown(s: State, parent: Hash, voterParent: Hash, votes: seq<Hash>)
    ensures parent in s.db.dag.level && voterParent in s.db.voters.voted &&
            LevelsVoted(s, parent, voterParent, votes) ==>
              forall p :: p in votes ==> p in s.db.dag.level
  {
  }

  // ---- what the ledger thread needs of the block database ----

  /** Every block in the chain is stored, and exactly the transaction blocks as such. */
  ghost predicate StoredRight(blockdb: M.BlockDatabase, root: Hash, parents: map<Hash, Hash>, transactions: set<Hash>) {
    forall x :: x == root || x in parents ==> x in blockdb && (blockdb[x].Transactions? <==> x in transactions)
  }

  /** The first copy of a block is kept. */
  function WithBody(blockdb: M.BlockDatabase, hash: Hash, body: M.Body): M.BlockDatabase {
    if hash in blockdb then blockdb else blockdb[hash := body]
  }

  /** Adding to the block database changes no ledger. */
  lemma {:induction false} ExpandFrame(blockdb: M.BlockDatabase, more: M.BlockDatabase, hashOf: M.Hasher,
                                       blocks: seq<Hash>)
    requires M.Holds(blockdb, blocks) && forall x :: x in blockdb ==> x in more && more[x] == blockdb[x]
    ensures M.Holds(more, blocks) && M.Expand(more, hashOf, blocks) == M.Expand(blockdb, hashOf, blocks)
  {
    hide M.Hashed;
    if blocks != [] {
      assert M.IsTransactionBlock(blockdb, blocks[|blocks| - 1]);
      ExpandFrame(blockdb, more, hashOf, blocks[..|blocks| - 1]);
    }
  }

  /** The ledger of the chain, and the history of diffs that led to it. */
  ghost predicate Followed(blockdb: M.BlockDatabase, hashOf: M.Hasher, c: Config, s: State,
                           ledgers: seq<seq<Tx>>, diffs: seq<(seq<Tx>, seq<Tx>)>)
    requires Inv(c, s)
  {
    && M.Holds(blockdb, TransactionLedger(c, s)) && M.History(ledgers, diffs)
    && ledgers[|diffs|] == M.FullLedger(blockdb, hashOf, c, s)
  }

  lemma FollowedFrame(blockdb: M.BlockDatabase, more: M.BlockDatabase, hashOf: M.Hasher, c: Config, s: State, s': State,
                      ledgers: seq<seq<Tx>>, diffs: seq<(seq<Tx>, seq<Tx>)>)
    requires Inv(c, s) && Inv(c, s') && TransactionLedger(c, s) == TransactionLedger(c, s')
    requires forall x :: x in blockdb ==> x in more && more[x] == blockdb[x]
    requires Followed(blockdb, hashOf, c, s, ledgers, diffs)
    ensures Followed(more, hashOf, c, s', ledgers, diffs)
  {
    hide Inv, TransactionLedger, M.History;
    ExpandFrame(blockdb, more, hashOf, TransactionLedger(c, s));
  }

  lemma FollowedDiff(blockdb: M.BlockDatabase, hashOf: M.Hasher, c: Config, s: State, s': State, diff: ProposerDiff,
                     added: seq<Hash>, removed: seq<Hash>, ledgers: seq<seq<Tx>>, diffs: seq<(seq<Tx>, seq<Tx>)>)
    requires Inv(c, s) && Inv(c, s') && DiffOf(c, s, s', diff, added, removed) && M.Holds(blockdb, added)
    requires Followed(blockdb, hashOf, c, s, ledgers, diffs)
    ensures M.Holds(blockdb, removed) && M.Holds(blockdb, TransactionLedger(c, s'))
    ensures Followed(blockdb, hashOf, c, s', ledgers + [M.FullLedger(blockdb, hashOf, c, s')],
                     diffs + [(M.Expand(blockdb, hashOf, removed), M.Expand(blockdb, hashOf, added))])
  {
    hide Inv, TransactionLedger, LedgerOf, DiffOf;
    M.GatheredDiff(blockdb, hashOf, c, s, s', diff, added, removed);
    HistoryGrows(ledgers, diffs, M.Expand(blockdb, hashOf, removed), M.Expand(blockdb, hashOf, added),
                 M.FullLedger(blockdb, hashOf, c, s'));
  }

  lemma HistoryGrows(ledgers: seq<seq<Tx>>, diffs: seq<(seq<Tx>, seq<Tx>)>, removed: seq<Tx>, added: seq<Tx>,
                     after: seq<Tx>)
    requires M.History(ledgers, diffs) && M.Diff(ledgers[|diffs|], removed, added, after)
    ensures M.History(ledgers + [after], diffs + [(removed, added)])
  {
    hide M.Diff;
    var ledgers', diffs' := ledgers + [after], diffs + [(removed, added)];
    forall i | 0 <= i < |diffs'|
      ensures M.Diff(ledgers'[i], diffs'[i].0, diffs'[i].1, ledgers'[i + 1])
    {
      if i < |diffs| { assert M.Diff(ledgers[i], diffs[i].0, diffs[i].1, ledgers[i + 1]); }
    }
  }

  /** The genesis ledger holds no transaction. */
  lemma GenesisFollowed(blockdb: M.BlockDatabase, hashOf: M.Hasher, c: Config)
    requires WellFormed(c) && Inv(c, Genesis(c))
    ensures Followed(blockdb, hashOf, c, Genesis(c), [[]], [])
  {
    hide Inv, TransactionLedger, Genesis, WellFormed;
    GenesisLedgerEmpty(c);
  }

  lemma GenesisLedgerEmpty(c: Config)
    requires WellFormed(c) && Inv(c, Genesis(c))
    ensures TransactionLedger(c, Genesis(c)) == []
  {
    hide Inv, LedgerOf, Scratch, GenesisTree, OneEach, GenesisVotes, GenesisTips, L.Valid, LeadersOk;
    var s, g := Genesis(c), c.proposerGenesis;
    StoredIsScratch(c, s);
    assert StoredLedger(s) == [[g]];
    FlattenOne([g]);
    TransactionsOne(s.db.transactionRefs, g);
  }

  // ---- the node ----

  class FullNode {
    const chain: BlockChain
    const hashOf: M.Hasher
    var blockdb: M.BlockDatabase
    var updating: Option<Range>                 // votes are moved, leaders and ledger not yet
    var stopped: bool                           // the ledger thread has panicked
    ghost var ledgers: seq<seq<Tx>>             // history: the ledger before the first diff and after each one
    ghost var diffs: seq<(seq<Tx>, seq<Tx>)>    // history: the diffs handed to execution
    ghost var accepted: seq<Event>              // history: the blocks inserted, in order

    ghost predicate Valid()
      reads this, chain
    {
      && chain.Valid()
      && StoredRight(blockdb, chain.config.proposerGenesis, chain.links.parents, chain.transactionBlocks)
      && (updating.Some? ==> updating.value.Within(chain.proposerBestLevel))
      && (!stopped ==> Followed(blockdb, hashOf, chain.config, chain.S(), ledgers, diffs))
      && AllRecorded(blockdb, chain.db, chain.links.parents, chain.transactionBlocks, accepted)
      && NothingElse(chain.config.proposerGenesis, chain.config.voterGenesis, chain.db, chain.transactionBlocks,
                     accepted)
    }

    constructor (config: Config, voteBound: VoteBound, hashOf: M.Hasher)
      requires WellFormed(config) && Sound(voteBound)
      ensures Valid() && fresh(chain) && chain.config == config && this.hashOf == hashOf && !stopped && accepted == []
    {
      hide Inv, LinksOk, Followed, StoredRight, Genesis, GenesisLinks, AllRecorded, NothingElse;
      var c := new BlockChain(config, voteBound);
      chain, this.hashOf := c, hashOf;
      blockdb := GenesisBodies(config);
      updating, stopped, ledgers, diffs, accepted := None, false, [[]], [], [];
      new;
      GenesisFollowed(blockdb, hashOf, config);
      GenesisStored(config);
      GenesisRecorded(config, blockdb, chain.links.parents);
    }

    /** A block taken up by a worker is stored, and inserted if and only if it passes; the ledger stays. */
    method AddBlock(e: Event) returns (passed: bool)
      requires Valid() && IsBlock(e)
      modifies this`blockdb, this`accepted, chain
      ensures Valid()
      ensures passed <==> && old(e.hash in blockdb ==> blockdb[e.hash] == BodyOf(e))
                          && Passes(old(chain.S()), chain.config.proposerGenesis, old(chain.links), e)
      ensures accepted == if passed then old(accepted) + [e] else old(accepted)
      ensures !passed ==> chain.S() == old(chain.S()) && chain.links == old(chain.links)
      ensures LedgerOf(chain.config, chain.S()) == old(LedgerOf(chain.config, chain.S()))
    {
      hide Inv, LinksOk, Followed, StoredRight, Passes, LedgerOf, TransactionLedger, Sound, ProposerAdmissible;
      hide VoterAdmissible, AllRecorded, NothingElse, Grows, Recorded;
      ghost var db0, s0, links0, txs0 := blockdb, chain.S(), chain.links, chain.transactionBlocks;
      var root := chain.config.proposerGenesis;
      if e.hash in blockdb && blockdb[e.hash] != BodyOf(e) {
        return false;
      }
      blockdb := WithBody(blockdb, e.hash, BodyOf(e));
      StoringKeeps(db0, root, chain.links.parents, chain.transactionBlocks, e.hash, BodyOf(e));
      var s := State(chain.db, chain.proposerBestLevel, chain.voterBest, chain.unconfirmedProposers, chain.ledgerTip,
                     chain.voterLedgerTips);
      passed := Check(s, chain.config, root, chain.links, e);
      if passed {
        Insert(e);
        RecordedAfter(db0, s0.db, links0.parents, txs0, blockdb, chain.db, chain.links.parents, chain.transactionBlocks,
                      accepted, root, chain.config.voterGenesis, e);
        accepted := accepted + [e];
      } else {
        SameGrows(s0.db);
        RecordedStays(db0, s0.db, links0.parents, txs0, blockdb, s0.db, links0.parents, txs0, accepted);
      }
      if !stopped {
        FollowedFrame(db0, blockdb, hashOf, chain.config, s0, chain.S(), ledgers, diffs);
      }
    }

    /** Insertion by kind: the store grows by the block, as it came. */
    method Insert(e: Event)
      requires chain.Valid() && IsBlock(e) && Passes(chain.S(), chain.config.proposerGenesis, chain.links, e)
      requires StoredRight(blockdb, chain.config.proposerGenesis, chain.links.parents, chain.transactionBlocks)
      requires e.hash in blockdb && blockdb[e.hash] == BodyOf(e)
      modifies chain
      ensures chain.Valid() && old(chain.proposerBestLevel) <= chain.proposerBestLevel
      ensures StoredRight(blockdb, chain.config.proposerGenesis, chain.links.parents, chain.transactionBlocks)
      ensures LedgerOf(chain.config, chain.S()) == old(LedgerOf(chain.config, chain.S()))
      ensures TransactionLedger(chain.config, chain.S()) == old(TransactionLedger(chain.config, chain.S()))
      ensures Grows(old(chain.db), chain.db) && Sub(old(chain.links.parents), chain.links.parents)
      ensures old(chain.transactionBlocks) <= chain.transactionBlocks
      ensures Recorded(blockdb, chain.db, chain.links.parents, chain.transactionBlocks, e)
      ensures GrownBy(old(chain.db), old(chain.transactionBlocks), chain.db, chain.transactionBlocks, e)
    {
      hide Inv, LinksOk, StoredRight, Passes, LedgerOf, TransactionLedger, Sound, ProposerAdmissible, VoterAdmissible;
      hide Grows, GrownBy, Recorded, Sub, Checked;
      ghost var s, k, txs := chain.S(), chain.links, chain.transactionBlocks;
      PassesIsNew(s, chain.config.proposerGenesis, k, e);
      PassesContent(s, chain.config.proposerGenesis, k, e);
      Linked(chain);
      NotThere(chain, e.hash);
      PassesIsAdmissible(chain.config, s, k, e);
      InsertingKeeps(blockdb, chain.config.proposerGenesis, k.parents, txs, e.hash, e.parent);
      SubMore(k.parents, e.hash, e.parent);
      match e
      case ProposerBlock(hash, parent, refs, transactions, _) =>
        chain.InsertProposer(hash, parent, refs, transactions);
        ProposerInserted(blockdb, s.db, chain.db, k.parents, txs, e);
      case VoterBlock(hash, parent, voterParent, _, votes, _) =>
        chain.InsertVoter(hash, parent, voterParent, votes);
        VoterInserted(blockdb, s.db, chain.db, k.parents, txs, e);
      case TransactionBlock(hash, parent, _, _, _) =>
        chain.InsertTransaction(hash, parent);
        TransactionsInserted(blockdb, s.db, k.parents, txs, e);
      case _ => assert false;
    }

    /** First half of an update: the votes move. Insertions may follow before the second half. */
    method BeginUpdate() returns (moved: bool)
      requires Valid()
      modifies this`updating, chain
      ensures accepted == old(accepted)
      ensures Valid() && moved == (!stopped && old(updating).None?)
      ensures LedgerOf(chain.config, chain.S()) == old(LedgerOf(chain.config, chain.S()))
    {
      hide Inv, LinksOk, Followed, StoredRight, LedgerOf, TransactionLedger, Sound, AllRecorded, NothingElse, Grows;
      moved := !stopped && updating.None?;
      if moved {
        ghost var s0 := chain.S();
        ghost var root, genesis := chain.config.proposerGenesis, chain.config.voterGenesis;
        var range := chain.UpdateVotes();
        updating := Some(range);
        RecordsUntouched(root, genesis, blockdb, s0.db, chain.links.parents, chain.transactionBlocks, accepted,
                         chain.db);
        FollowedFrame(blockdb, blockdb, hashOf, chain.config, s0, chain.S(), ledgers, diffs);
      }
    }

    /** Second half: leaders and ledger follow, and the transactions of the diff are gathered. The thread stops
        exactly when a newly confirmed proposer block refers to something that is no transaction block. */
    method EndUpdate() returns (moved: bool, ghost diff: ProposerDiff)
      requires Valid()
      modifies this`updating, this`stopped, this`ledgers, this`diffs, chain
      ensures Valid() && moved == (!old(stopped) && old(updating).Some?)
      ensures !moved ==> stopped == old(stopped) && chain.S() == old(chain.S())
      ensures moved ==>
                && (exists added, removed :: DiffOf(chain.config, old(chain.S()), chain.S(), diff, added, removed))
                && (stopped <==> exists b :: M.Misrefers(blockdb, chain.db.transactionRefs, diff.confirmed, b))
    {
      hide Inv, LinksOk, StoredRight, LedgerOf, TransactionLedger, Sound, M.Holds, M.History, M.Misrefers;
      hide AllRecorded, NothingElse, Grows;
      moved := !stopped && updating.Some?;
      diff := ProposerDiff([], []);
      if moved {
        ghost var s0 := chain.S();
        ghost var root, genesis := chain.config.proposerGenesis, chain.config.voterGenesis;
        var added, removed, d := chain.UpdateOrder(updating.value);
        diff := d;
        RecordsUntouched(root, genesis, blockdb, s0.db, chain.links.parents, chain.transactionBlocks, accepted,
                         chain.db);
        updating := None;
        var r := M.GatherDiff(blockdb, hashOf, added, removed);
        M.HoldsByBlock(blockdb, chain.db.transactionRefs, diff.confirmed);
        if M.Holds(blockdb, added) {
          FollowedDiff(blockdb, hashOf, chain.config, s0, chain.S(), diff, added, removed, ledgers, diffs);
        }
        stopped := r.Panicked?;
        if !stopped {
          diffs := diffs + [(r.value.1, r.value.0)];
          ledgers := ledgers + [M.FullLedger(blockdb, hashOf, chain.config, chain.S())];
        }
      }
    }

    method Process(e: Event)
      requires Valid()
      modifies this, chain
      ensures Valid()
    {
      if e.StartUpdate? {
        var moved := BeginUpdate();
      } else if e.FinishUpdate? {
        var moved, diff := EndUpdate();
      } else {
        var passed := AddBlock(e);
      }
    }
  }

  lemma RecordedAfter(blockdb: M.BlockDatabase, db: Columns, parents: map<Hash, Hash>, transactions: set<Hash>,
                      blockdb': M.BlockDatabase, db': Columns, parents': map<Hash, Hash>, transactions': set<Hash>,
                      accepted: seq<Event>, root: Hash, genesis: seq<Hash>, e: Event)
    requires IsBlock(e)
    requires AllRecorded(blockdb, db, parents, transactions, accepted)
    requires NothingElse(root, genesis, db, transactions, accepted)
    requires Sub(blockdb, blockdb') && Grows(db, db') && Sub(parents, parents') && transactions <= transactions'
    requires Recorded(blockdb', db', parents', transactions', e) && GrownBy(db, transactions, db', transactions', e)
    ensures AllRecorded(blockdb', db', parents', transactions', accepted + [e])
    ensures NothingElse(root, genesis, db', transactions', accepted + [e])
  {
    hide Recorded, Grows, Sub, NothingElse, GrownBy;
    RecordedStays(blockdb, db, parents, transactions, blockdb', db', parents', transactions', accepted);
    NothingElseGrows(root, genesis, db, transactions, accepted, db', transactions', e);
    assert forall x :: x in accepted + [e] <==> x in accepted || x == e;
  }

  lemma SameGrows(db: Columns)
    ensures Grows(db, db)
  {
  }

  /** An update of votes, leaders or ledger leaves the recorded blocks alone. */
  lemma RecordsUntouched(root: Hash, genesis: seq<Hash>, blockdb: M.BlockDatabase, db: Columns,
                         parents: map<Hash, Hash>,
                         transactions: set<Hash>, accepted: seq<Event>, db': Columns)
    requires AllRecorded(blockdb, db, parents, transactions, accepted)
    requires NothingElse(root, genesis, db, transactions, accepted)
    requires db' == db.(nodeVotes := db'.nodeVotes, leaderSequence := db'.leaderSequence,
                        ledgerOrder := db'.ledgerOrder)
    ensures AllRecorded(blockdb, db', parents, transactions, accepted)
    ensures NothingElse(root, genesis, db', transactions, accepted)
  {
    hide Recorded, AcceptedProposer, AcceptedVoter, AcceptedTransactions, AllRecorded;
    assert Grows(db, db');
    RecordedStays(blockdb, db, parents, transactions, blockdb, db', parents, transactions, accepted);
  }

  lemma GenesisRecorded(c: Config, blockdb: M.BlockDatabase, parents: map<Hash, Hash>)
    ensures AllRecorded(blockdb, Genesis(c).db, parents, {}, [])
    ensures NothingElse(c.proposerGenesis, c.voterGenesis, Genesis(c).db, {}, [])
  {
    hide OneEach, GenesisVotes, GenesisTips;
  }

  /** A new block is in no column yet. */
  lemma NotThere(chain: BlockChain, hash: Hash)
    requires chain.Valid() && chain.New(hash)
    ensures hash !in chain.db.dag.refs && hash !in chain.db.dag.level && hash !in chain.db.transactionRefs
    ensures hash !in chain.db.voters.level && hash !in chain.db.voters.chain && hash !in chain.db.voters.parent
    ensures hash !in chain.db.voters.votes && hash !in chain.db.voters.voted
  {
    hide Sound, IndexInv, LedgerInv, BestOk, CountsOk, TipsOk, TreeOk;
    Linked(chain);
    assert hash !in chain.links.parents.Keys + {chain.config.proposerGenesis};
  }

  lemma PassesContent(s: State, root: Hash, k: Links, e: Event)
    requires IsBlock(e) && Passes(s, root, k, e)
    ensures e.sortition && e.parent in s.db.dag.level
    ensures e.VoterBlock? ==> e.voterParent in s.db.voters.level && e.voterParent in s.db.voters.chain
    ensures e.VoterBlock? ==> s.db.voters.chain[e.voterParent] == e.chainNumber
    ensures e.TransactionBlock? ==> e.signatures && Checked(e.body)
  {
    hide LevelsVoted, Checked;
  }

  function GenesisBodies(c: Config): M.BlockDatabase {
    map x | x in Elems(c.voterGenesis) + {c.proposerGenesis} :: M.OtherBody
  }

  lemma GenesisStored(c: Config)
    ensures StoredRight(GenesisBodies(c), c.proposerGenesis, GenesisLinks(c.proposerGenesis, c.voterGenesis).parents,
                        {})
  {
  }

  lemma Linked(chain: BlockChain)
    requires chain.Valid()
    ensures chain.links.parents.Keys + {chain.config.proposerGenesis}
            == chain.db.dag.refs.Keys + chain.db.voters.level.Keys + chain.transactionBlocks
  {
    hide Inv, Sound;
  }

  lemma PassesIsNew(s: State, root: Hash, k: Links, e: Event)
    requires IsBlock(e) && Passes(s, root, k, e)
    ensures e.hash != root && e.hash !in k.parents
    ensures e.ProposerBlock? ==> forall x :: x in e.transactions ==> x in k.parents
  {
  }

  lemma StoringKeeps(blockdb: M.BlockDatabase, root: Hash, parents: map<Hash, Hash>, transactions: set<Hash>,
                     hash: Hash, body: M.Body)
    requires StoredRight(blockdb, root, parents, transactions)
    ensures StoredRight(WithBody(blockdb, hash, body), root, parents, transactions)
    ensures forall x :: x in blockdb ==>
              x in WithBody(blockdb, hash, body) && WithBody(blockdb, hash, body)[x] == blockdb[x]
  {
  }

  lemma InsertingKeeps(blockdb: M.BlockDatabase, root: Hash, parents: map<Hash, Hash>, transactions: set<Hash>,
                       hash: Hash, parent: Hash)
    requires StoredRight(blockdb, root, parents, transactions) && hash in blockdb && hash !in transactions
    ensures !blockdb[hash].Transactions? ==> StoredRight(blockdb, root, parents[hash := parent], transactions)
    ensures blockdb[hash].Transactions? ==> StoredRight(blockdb, root, parents[hash := parent], transactions + {hash})
  {
  }

  // ---- whole runs ----

  /** The state every reader relies on. */
  ghost predicate Consistent(c: Config, s: State) {
    && Inv(c, s)
    && L.Valid(s.db.dag) && LeadersOk(s.db.dag, s.db.leaderSequence) && HasRun(s.db.leaderSequence, s.ledgerTip + 1)
    && s.ledgerTip + 1 !in s.db.leaderSequence
    && (forall l: nat :: l in s.db.ledgerOrder <==> l <= s.ledgerTip)
    && StoredLedger(s) == Scratch(s.db.dag, s.db.leaderSequence, s.ledgerTip + 1)
    && L.Topological(s.db.dag, {}, Flatten(StoredLedger(s))) && NoDup(Flatten(StoredLedger(s)))
    && Elems(Flatten(StoredLedger(s))) + s.unconfirmedProposers == s.db.dag.refs.Keys
    && Elems(Flatten(StoredLedger(s))) !! s.unconfirmedProposers
  }

  lemma ValidIsConsistent(c: Config, s: State)
    requires Inv(c, s)
    ensures Consistent(c, s)
  {
    hide Inv, L.Valid, L.Topological, LedgerOf, Scratch, L.Ledger, LeadersOk, StoredLedger;
    StoredIsScratch(c, s);
    ConfirmedLedger(c, s);
  }

  /** From genesis, after any events whatsoever - blocks of any kind, good or bad, before, between and after the
      halves of any number of updates - the stored ledger is the from-scratch linearization of the current
      leaders up to the first level without one, and it is a topological order without repeats. */
  method Run(config: Config, voteBound: VoteBound, hashOf: M.Hasher, events: seq<Event>) returns (node: FullNode)
    requires WellFormed(config) && Sound(voteBound)
    ensures fresh(node) && fresh(node.chain) && node.Valid() && node.chain.config == config && node.hashOf == hashOf
    ensures Consistent(config, node.chain.S())
  {
    hide Consistent, Inv, LinksOk, Followed, StoredRight;
    node := new FullNode(config, voteBound, hashOf);
    for i := 0 to |events|
      invariant node.Valid() && node.chain.config == config && node.hashOf == hashOf
    {
      node.Process(events[i]);
    }
    ValidIsConsistent(config, node.chain.S());
  }

  /** Whatever a node has been through, once execution has written every diff it was handed, the coin set is the
      replay of the node's own current ledger from the initial coins, however dispatcher and workers
      interleaved. */
  lemma CoinsFollowChain(node: FullNode, init: Coins, capacity: nat, workers: nat, steps: seq<Dispatcher.Step>)
    requires node.Valid() && !node.stopped && forall i :: 0 <= i < |node.ledgers| ==> WellBehaved(init, node.ledgers[i])
    requires Serializability.Executes(capacity, Dispatcher.Start(init, workers), steps)
    requires Serializability.Final(capacity, Dispatcher.Start(init, workers), steps).arrived == M.AllJobs(node.diffs)
    ensures M.Holds(node.blockdb, TransactionLedger(node.chain.config, node.chain.S()))
    ensures M.Lists(node.blockdb, node.hashOf, TransactionLedger(node.chain.config, node.chain.S()),
                    M.FullLedger(node.blockdb, node.hashOf, node.chain.config, node.chain.S()))
    ensures
      var s := Serializability.Final(capacity, Dispatcher.Start(init, workers), steps);
      var now := ApplyAll(init, M.FullLedger(node.blockdb, node.hashOf, node.chain.config, node.chain.S()));
      && (Serializability.Written(s) ==> s.coins == now)
      && (capacity > 0 && workers > 0 && (forall step :: Dispatcher.Enabled(capacity, s, step) ==> step.Arrive?) ==>
          s.coins == now)
  {
    hide WellBehaved, M.History, Serializability.Executes, Serializability.Final, Dispatcher.Enabled, Inv, LinksOk,
      StoredRight;
    hide TransactionLedger, Sound;
    hide AllRecorded, NothingElse, M.Lists;
    LedgerLists(node);
    M.CoinsFollowLedger(capacity, init, workers, steps, node.ledgers, node.diffs);
  }

  // ---- a reference to a block of another kind ----

  /** A proposer block may list a voter block, say a voter genesis block, as a transaction block: it passes every
      check, and is inserted. Once it is confirmed, `EndUpdate` stops the ledger thread. */
  lemma WrongReferencePasses(node: FullNode, hash: Hash, v: Hash)
    requires node.Valid() && node.chain.New(hash)
    requires v in node.chain.db.voters.level && v != node.chain.config.proposerGenesis
    ensures Passes(node.chain.S(), node.chain.config.proposerGenesis, node.chain.links,
                   ProposerBlock(hash, node.chain.config.proposerGenesis, [], [v], true))
    ensures v in node.blockdb && !M.IsTransactionBlock(node.blockdb, v)
  {
    hide VotersInv, IndexInv, LedgerInv, TreeOk, Followed, Sound, LinksOk;
    Linked(node.chain);
    KindsDiffer(node.chain, v);
  }

  lemma KindsDiffer(chain: BlockChain, v: Hash)
    requires chain.Valid() && v in chain.db.voters.level
    ensures v !in chain.transactionBlocks
  {
    hide Inv, Sound;
  }

  // ---- what the record of accepted blocks gives ----

  /** After any run every accepted block is stored as it came - a proposer block with its parent first and its
      references and transaction references in their order, a voter block on the chain it names with its votes, a
      transaction block with its checked transactions - and nothing else is stored. */
  lemma StoredAsAccepted(node: FullNode, e: Event)
    requires node.Valid() && e in node.accepted
    ensures IsBlock(e) && e.sortition && e.hash in node.chain.links.parents
              && node.chain.links.parents[e.hash] == e.parent
    ensures e.ProposerBlock? ==>
              && e.hash in node.chain.db.dag.refs && node.chain.db.dag.refs[e.hash] == [e.parent] + e.refs
              && e.hash in node.chain.db.transactionRefs && node.chain.db.transactionRefs[e.hash] == e.transactions
              && e.hash in node.chain.db.dag.level && e.parent in node.chain.db.dag.level
              && node.chain.db.dag.level[e.hash] == node.chain.db.dag.level[e.parent] + 1
    ensures e.VoterBlock? ==>
              && e.hash in node.chain.db.voters.chain && node.chain.db.voters.chain[e.hash] == e.chainNumber
              && e.hash in node.chain.db.voters.votes && node.chain.db.voters.votes[e.hash] == e.votes
              && e.hash in node.chain.db.voters.parent && node.chain.db.voters.parent[e.hash] == e.voterParent
    ensures e.TransactionBlock? ==>
              && e.hash in node.blockdb && node.blockdb[e.hash] == M.Transactions(e.body)
              && e.signatures && Checked(e.body)
  {
    hide Inv, LinksOk, Followed, StoredRight, Sound, NothingElse, Checked;
    assert Recorded(node.blockdb, node.chain.db, node.chain.links.parents, node.chain.transactionBlocks, e);
  }

  /** Two nodes with the same genesis for which a hash names one block hold the same ledger up to every level up to
      which they have the same leaders, whatever else each of them has been through. */
  lemma NodesAgree(a: FullNode, b: FullNode, top: nat)
    requires a.Valid() && b.Valid() && a.chain.config.proposerGenesis == b.chain.config.proposerGenesis
    requires SameBlocks(a.accepted, b.accepted)
    requires top <= a.chain.ledgerTip && top <= b.chain.ledgerTip
    requires forall l: nat :: l <= top ==>
               && l in a.chain.db.leaderSequence && l in b.chain.db.leaderSequence
               && a.chain.db.leaderSequence[l] == b.chain.db.leaderSequence[l]
    ensures L.Agree(a.chain.db.dag, b.chain.db.dag)
    ensures forall l: nat :: l <= top ==>
              && l in a.chain.db.ledgerOrder && l in b.chain.db.ledgerOrder
              && a.chain.db.ledgerOrder[l] == b.chain.db.ledgerOrder[l]
  {
    hide Inv, LinksOk, Followed, StoredRight, Sound, NothingElse, AllRecorded, SameBlocks, L.Agree;
    GenesisRefs(a.chain);
    GenesisRefs(b.chain);
    RecordsAgree(a.chain.config.proposerGenesis, a.chain.config.voterGenesis, a.blockdb, a.chain.db,
                 a.chain.links.parents, a.chain.transactionBlocks, a.accepted, b.chain.config.voterGenesis, b.blockdb,
                 b.chain.db, b.chain.links.parents, b.chain.transactionBlocks, b.accepted);
    SameLeadersSameLedger(a.chain.config, a.chain.S(), b.chain.config, b.chain.S(), top);
  }

  lemma GenesisRefs(chain: BlockChain)
    requires chain.Valid()
    ensures chain.config.proposerGenesis in chain.db.dag.refs && chain.db.dag.refs[chain.config.proposerGenesis] == []
  {
    hide LinksOk, Sound, VotersInv, IndexInv, LedgerInv, TreeOk;
  }

  /** Every transaction of a node's ledger has passed the three content checks, and carries its hash. */
  lemma LedgerIsChecked(node: FullNode, tx: Tx)
    requires node.Valid() && !node.stopped
    requires M.Holds(node.blockdb, TransactionLedger(node.chain.config, node.chain.S()))
    requires tx in M.FullLedger(node.blockdb, node.hashOf, node.chain.config, node.chain.S())
    ensures tx.1 == node.hashOf(tx.0) && tx.0.input != [] && tx.0.output != []
    ensures forall i :: 0 <= i < |tx.0.input| ==> tx.0.input[i].value > 0
    ensures forall i :: 0 <= i < |tx.0.output| ==> tx.0.output[i].value > 0
    ensures InputSum(tx.0.input) % U64 >= OutputSum(tx.0.output) % U64 && CheckNonZero(tx.0)
  {
    hide Inv, LinksOk, Sound, TransactionLedger, M.Expand, M.History;
    var blocks := TransactionLedger(node.chain.config, node.chain.S());
    var b := M.ExpandFrom(node.blockdb, node.hashOf, blocks, tx);
    LedgerLinked(node.chain, b);
    assert b in node.chain.transactionBlocks;
    assert AcceptedTransactions(node.accepted, b);
    var e :| e in node.accepted && e.TransactionBlock? && e.hash == b;
    assert Recorded(node.blockdb, node.chain.db, node.chain.links.parents, node.chain.transactionBlocks, e);
  }

  /** What the ledger refers to is in the chain. */
  lemma LedgerLinked(chain: BlockChain, b: Hash)
    requires chain.Valid() && b in TransactionLedger(chain.config, chain.S())
    ensures b in chain.links.parents
  {
    LedgerWithinDag(chain.config, chain.S());
    hide Inv, Sound, LedgerOf;
    M.ReferredBy(chain.db.transactionRefs, Flatten(LedgerOf(chain.config, chain.S())), b);
  }

  /** So the coins of its replay all have value, if the initial ones have. */
  lemma LedgerHasNoZeroCoins(node: FullNode, init: Coins)
    requires node.Valid() && !node.stopped && forall c :: c in init ==> init[c].value > 0
    requires M.Holds(node.blockdb, TransactionLedger(node.chain.config, node.chain.S()))
    ensures
      var coins := ApplyAll(init, M.FullLedger(node.blockdb, node.hashOf, node.chain.config, node.chain.S()));
      forall c :: c in coins ==> coins[c].value > 0
  {
    hide Inv, LinksOk, Sound, TransactionLedger, M.Expand, CheckNonZero, AllRecorded, NothingElse, StoredRight;
    var txs := M.FullLedger(node.blockdb, node.hashOf, node.chain.config, node.chain.S());
    forall i | 0 <= i < |txs| ensures CheckNonZero(txs[i].0) { LedgerIsChecked(node, txs[i]); }
    NoZeroCoins(init, txs);
  }

  /** The node's ledger, entry by entry: the transactions of its transaction blocks, block after block, each with its
      hash. */
  lemma LedgerLists(node: FullNode)
    requires node.Valid() && !node.stopped
    ensures M.Holds(node.blockdb, TransactionLedger(node.chain.config, node.chain.S()))
    ensures
      var blocks := TransactionLedger(node.chain.config, node.chain.S());
      var txs := M.FullLedger(node.blockdb, node.hashOf, node.chain.config, node.chain.S());
      M.Lists(node.blockdb, node.hashOf, blocks, txs)
  {
    hide Inv, LinksOk, StoredRight, Sound, NothingElse, AllRecorded, TransactionLedger, M.Lists, M.Expand, M.History;
    M.ExpandLists(node.blockdb, node.hashOf, TransactionLedger(node.chain.config, node.chain.S()));
  }
}
