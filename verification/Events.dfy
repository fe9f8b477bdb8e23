/** What a node has accepted, and that its store is exactly the record of it. */
module Events {
  import opened Common
  import opened Utxo
  import opened Rollback
  import L = Linearization
  import V = VoterTrees
  import opened Store
  import M = LedgerManager

  /** A block that a worker takes up, or one half of a ledger update. `sortition` and `signatures` are the
      outcomes of the proof check and of the signature check. */
  datatype Event =
    | ProposerBlock(hash: Hash, parent: Hash, refs: seq<Hash>, transactions: seq<Hash>, sortition: bool)
    | VoterBlock(hash: Hash, parent: Hash, voterParent: Hash, chainNumber: nat, votes: seq<Hash>, sortition: bool)
    | TransactionBlock(hash: Hash, parent: Hash, body: seq<Transaction>, signatures: bool, sortition: bool)
    | StartUpdate
    | FinishUpdate

  predicate IsBlock(e: Event) {
    !e.StartUpdate? && !e.FinishUpdate?
  }

  function BodyOf(e: Event): M.Body {
    if e.TransactionBlock? then M.Transactions(e.body) else M.OtherBody
  }

  ghost predicate Sub<K, T>(a: map<K, T>, b: map<K, T>) {
    forall k :: k in a ==> k in b && b[k] == a[k]
  }

  /** The proposer block is stored with its parent first and its references in order, and with its transaction
      references. */
  ghost predicate ProposerRecorded(db: Columns, e: Event)
    requires e.ProposerBlock?
  {
    && e.sortition
    && e.hash in db.dag.refs && db.dag.refs[e.hash] == [e.parent] + e.refs
    && e.hash in db.transactionRefs && db.transactionRefs[e.hash] == e.transactions
    && e.hash in db.dag.level && e.parent in db.dag.level && db.dag.level[e.hash] == db.dag.level[e.parent] + 1
  }

  /** The voter block is stored on the chain its content names, with its voter parent and its votes. */
  ghost predicate VoterRecorded(db: Columns, e: Event)
    requires e.VoterBlock?
  {
    && e.sortition
    && e.hash in db.voters.parent && db.voters.parent[e.hash] == e.voterParent
    && e.hash in db.voters.votes && db.voters.votes[e.hash] == e.votes
    && e.hash in db.voters.chain && db.voters.chain[e.hash] == e.chainNumber
    && e.hash in db.voters.level && e.voterParent in db.voters.level
    && db.voters.level[e.hash] == db.voters.level[e.voterParent] + 1
    && e.hash in db.voters.voted && e.parent in db.dag.level && db.voters.voted[e.hash] == db.dag.level[e.parent]
  }

  /** The transaction block is stored with its transactions, all of which passed their checks. */
  ghost predicate TransactionRecorded(blockdb: M.BlockDatabase, transactions: set<Hash>, e: Event)
    requires e.TransactionBlock?
  {
    && e.sortition && e.signatures && e.hash in transactions
    && e.hash in blockdb && blockdb[e.hash] == M.Transactions(e.body)
    && Checked(e.body)
  }

  predicate Checked(body: seq<Transaction>) {
    forall t :: t in body ==> CheckNonEmpty(t) && CheckNonZero(t) && CheckSufficientInput(t)
  }

  ghost predicate Recorded(blockdb: M.BlockDatabase, db: Columns, parents: map<Hash, Hash>, transactions: set<Hash>,
                           e: Event) {
    && IsBlock(e) && e.hash in parents && parents[e.hash] == e.parent
    && (e.ProposerBlock? ==> ProposerRecorded(db, e))
    && (e.VoterBlock? ==> VoterRecorded(db, e))
    && (e.TransactionBlock? ==> TransactionRecorded(blockdb, transactions, e))
  }

  ghost predicate AllRecorded(blockdb: M.BlockDatabase, db: Columns, parents: map<Hash, Hash>, transactions: set<Hash>,
                              accepted: seq<Event>) {
    forall e :: e in accepted ==> Recorded(blockdb, db, parents, transactions, e)
  }

  /** Nothing is in the chain but the genesis blocks and what was accepted. */
  ghost predicate NothingElse(root: Hash, genesis: seq<Hash>, db: Columns, transactions: set<Hash>,
                              accepted: seq<Event>) {
    && (forall p :: p in db.dag.refs && p != root ==> AcceptedProposer(accepted, p))
    && (forall v :: v in db.voters.level && v !in genesis ==> AcceptedVoter(accepted, v))
    && (forall x :: x in transactions ==> AcceptedTransactions(accepted, x))
  }

  ghost predicate AcceptedProposer(accepted: seq<Event>, h: Hash) {
    exists e :: e in accepted && e.ProposerBlock? && e.hash == h
  }

  ghost predicate AcceptedVoter(accepted: seq<Event>, h: Hash) {
    exists e :: e in accepted && e.VoterBlock? && e.hash == h
  }

  ghost predicate AcceptedTransactions(accepted: seq<Event>, h: Hash) {
    exists e :: e in accepted && e.TransactionBlock? && e.hash == h
  }

  /** The store has only grown. */
  ghost predicate Grows(db: Columns, db': Columns) {
    && Sub(db.dag.refs, db'.dag.refs) && Sub(db.dag.level, db'.dag.level)
    && Sub(db.transactionRefs, db'.transactionRefs)
    && Sub(db.voters.level, db'.voters.level) && Sub(db.voters.chain, db'.voters.chain)
    && Sub(db.voters.parent, db'.voters.parent) && Sub(db.voters.votes, db'.voters.votes)
    && Sub(db.voters.voted, db'.voters.voted)
  }

  lemma RecordedStays(blockdb: M.BlockDatabase, db: Columns, parents: map<Hash, Hash>, transactions: set<Hash>,
                      blockdb': M.BlockDatabase, db': Columns, parents': map<Hash, Hash>, transactions': set<Hash>,
                      accepted: seq<Event>)
    requires AllRecorded(blockdb, db, parents, transactions, accepted)
    requires Sub(blockdb, blockdb') && Grows(db, db') && Sub(parents, parents') && transactions <= transactions'
    ensures AllRecorded(blockdb', db', parents', transactions', accepted)
  {
    hide Checked;
    forall e | e in accepted
      ensures Recorded(blockdb', db', parents', transactions', e)
    {
      assert Recorded(blockdb, db, parents, transactions, e);
    }
  }

  lemma AcceptedMore(accepted: seq<Event>, e: Event, h: Hash)
    ensures AcceptedProposer(accepted, h) ==> AcceptedProposer(accepted + [e], h)
    ensures AcceptedVoter(accepted, h) ==> AcceptedVoter(accepted + [e], h)
    ensures AcceptedTransactions(accepted, h) ==> AcceptedTransactions(accepted + [e], h)
    ensures e.ProposerBlock? ==> AcceptedProposer(accepted + [e], e.hash)
    ensures e.VoterBlock? ==> AcceptedVoter(accepted + [e], e.hash)
    ensures e.TransactionBlock? ==> AcceptedTransactions(accepted + [e], e.hash)
  {
    var more := accepted + [e];
    assert e in more && forall x :: x in accepted ==> x in more;
  }

  /** The store has grown by this block, and by nothing else. */
  ghost predicate GrownBy(db: Columns, transactions: set<Hash>, db': Columns, transactions': set<Hash>, e: Event)
    requires IsBlock(e)
  {
    && db'.dag.refs.Keys == (if e.ProposerBlock? then db.dag.refs.Keys + {e.hash} else db.dag.refs.Keys)
    && db'.voters.level.Keys == (if e.VoterBlock? then db.voters.level.Keys + {e.hash} else db.voters.level.Keys)
    && transactions' == (if e.TransactionBlock? then transactions + {e.hash} else transactions)
  }

  lemma NothingElseGrows(root: Hash, genesis: seq<Hash>, db: Columns, transactions: set<Hash>, accepted: seq<Event>,
                         db': Columns, transactions': set<Hash>, e: Event)
    requires NothingElse(root, genesis, db, transactions, accepted) && IsBlock(e)
    requires GrownBy(db, transactions, db', transactions', e)
    ensures NothingElse(root, genesis, db', transactions', accepted + [e])
  {
    hide AcceptedProposer, AcceptedVoter, AcceptedTransactions;
    forall p | p in db'.dag.refs && p != root ensures AcceptedProposer(accepted + [e], p) {
      AcceptedMore(accepted, e, p);
      assert p in db'.dag.refs.Keys;
    }
    forall v | v in db'.voters.level && v !in genesis ensures AcceptedVoter(accepted + [e], v) {
      AcceptedMore(accepted, e, v);
      assert v in db'.voters.level.Keys;
    }
    forall x | x in transactions' ensures AcceptedTransactions(accepted + [e], x) { AcceptedMore(accepted, e, x); }
  }

  // ---- insertion by kind ----

  lemma SubSelf<K, T>(a: map<K, T>)
    ensures Sub(a, a)
  {
  }

  lemma SubMore<K, T>(a: map<K, T>, k: K, x: T)
    requires k !in a
    ensures Sub(a, a[k := x])
  {
  }

  lemma ProposerInserted(blockdb: M.BlockDatabase, db: Columns, db': Columns, parents: map<Hash, Hash>,
                         transactions: set<Hash>, e: Event)
    requires e.ProposerBlock? && e.sortition && e.parent in db.dag.level
    requires e.hash !in db.dag.refs && e.hash !in db.dag.level && e.hash !in db.transactionRefs && e.hash !in parents
    requires db'.dag.refs == db.dag.refs[e.hash := [e.parent] + e.refs]
    requires db'.dag.level == db.dag.level[e.hash := db.dag.level[e.parent] + 1]
    requires db'.transactionRefs == db.transactionRefs[e.hash := e.transactions] && db'.voters == db.voters
    ensures Grows(db, db') && GrownBy(db, transactions, db', transactions, e)
    ensures Recorded(blockdb, db', parents[e.hash := e.parent], transactions, e)
  {
    hide Sub;
    assert e.parent != e.hash;
    SubMore(db.dag.refs, e.hash, [e.parent] + e.refs);
    SubMore(db.dag.level, e.hash, db.dag.level[e.parent] + 1);
    SubMore(db.transactionRefs, e.hash, e.transactions);
    SubSelf(db.voters.level);
    SubSelf(db.voters.chain);
    SubSelf(db.voters.parent);
    SubSelf(db.voters.votes);
    SubSelf(db.voters.voted);
  }

  lemma VoterInserted(blockdb: M.BlockDatabase, db: Columns, db': Columns, parents: map<Hash, Hash>,
                      transactions: set<Hash>, e: Event)
    requires e.VoterBlock? && e.sortition && e.parent in db.dag.level && e.voterParent in db.voters.level
    requires e.voterParent in db.voters.chain && db.voters.chain[e.voterParent] == e.chainNumber
    requires e.hash !in db.voters.level && e.hash !in db.voters.chain && e.hash !in db.voters.parent
    requires e.hash !in db.voters.votes && e.hash !in db.voters.voted && e.hash !in parents
    requires db'.voters == V.VoterTree(db.voters.level[e.hash := db.voters.level[e.voterParent] + 1],
                                       db.voters.chain[e.hash := e.chainNumber],
                                       db.voters.parent[e.hash := e.voterParent], db.voters.votes[e.hash := e.votes],
                                       db.voters.voted[e.hash := db.dag.level[e.parent]])
    requires db'.dag == db.dag && db'.transactionRefs == db.transactionRefs
    ensures Grows(db, db') && GrownBy(db, transactions, db', transactions, e)
    ensures Recorded(blockdb, db', parents[e.hash := e.parent], transactions, e)
  {
    hide Sub;
    assert e.voterParent != e.hash;
    SubSelf(db.dag.refs);
    SubSelf(db.dag.level);
    SubSelf(db.transactionRefs);
    SubMore(db.voters.level, e.hash, db.voters.level[e.voterParent] + 1);
    SubMore(db.voters.chain, e.hash, e.chainNumber);
    SubMore(db.voters.parent, e.hash, e.voterParent);
    SubMore(db.voters.votes, e.hash, e.votes);
    SubMore(db.voters.voted, e.hash, db.dag.level[e.parent]);
  }

  lemma TransactionsInserted(blockdb: M.BlockDatabase, db: Columns, parents: map<Hash, Hash>, transactions: set<Hash>,
                             e: Event)
    requires e.TransactionBlock? && e.sortition && e.signatures && Checked(e.body)
    requires e.hash in blockdb && blockdb[e.hash] == M.Transactions(e.body) && e.hash !in parents
    ensures Grows(db, db) && GrownBy(db, transactions, db, transactions + {e.hash}, e)
    ensures Recorded(blockdb, db, parents[e.hash := e.parent], transactions + {e.hash}, e)
  {
    hide Checked;
  }

  // ---- two nodes ----

  /** A hash names one block: what both nodes accepted under one hash has the same parent and references. */
  ghost predicate SameBlocks(a: seq<Event>, b: seq<Event>) {
    forall x, y :: x in a && y in b && x.ProposerBlock? && y.ProposerBlock? && x.hash == y.hash ==>
      x.parent == y.parent && x.refs == y.refs
  }

  /** Stores that record such blocks agree on the references of every block they share. */
  lemma RecordsAgree(root: Hash, genesis: seq<Hash>, blockdb: M.BlockDatabase, db: Columns, parents: map<Hash, Hash>,
                     transactions: set<Hash>, accepted: seq<Event>, genesis': seq<Hash>, blockdb': M.BlockDatabase,
                     db': Columns, parents': map<Hash, Hash>, transactions': set<Hash>, accepted': seq<Event>)
    requires AllRecorded(blockdb, db, parents, transactions, accepted)
    requires AllRecorded(blockdb', db', parents', transactions', accepted')
    requires NothingElse(root, genesis, db, transactions, accepted)
    requires NothingElse(root, genesis', db', transactions', accepted')
    requires root in db.dag.refs && root in db'.dag.refs && db.dag.refs[root] == db'.dag.refs[root]
    requires SameBlocks(accepted, accepted')
    ensures L.Agree(db.dag, db'.dag)
  {
    hide Checked, VoterRecorded, TransactionRecorded;
    forall b | b in db.dag.refs && b in db'.dag.refs
      ensures db.dag.refs[b] == db'.dag.refs[b]
    {
      if b != root {
        assert AcceptedProposer(accepted, b) && AcceptedProposer(accepted', b);
        var x :| x in accepted && x.ProposerBlock? && x.hash == b;
        var y :| y in accepted' && y.ProposerBlock? && y.hash == b;
        assert Recorded(blockdb, db, parents, transactions, x) && Recorded(blockdb', db', parents', transactions', y);
      }
    }
  }
}
