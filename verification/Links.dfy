/** What the store keeps beside the trees: the parent of every block, and the blocks nobody refers to yet. */
module Links {
  import opened Common
  import L = Linearization

  /** `parents` is the column by which the existence of a transaction block is looked up; every block but the
      proposer genesis block is in it, whatever its kind. */
  datatype Links = Links(
    parents: map<Hash, Hash>,
    unreferredProposers: set<Hash>,
    unreferredTransactions: set<Hash>)

  function GenesisLinks(root: Hash, voterGenesis: seq<Hash>): Links {
    Links(map v | v in Elems(voterGenesis) :: root, {root}, {})
  }

  function WithProposer(k: Links, hash: Hash, parent: Hash, refs: seq<Hash>, transactions: seq<Hash>): Links {
    Links(k.parents[hash := parent],
          k.unreferredProposers + {hash} - Elems(refs) - {parent},
          k.unreferredTransactions - Elems(transactions))
  }

  function WithVoter(k: Links, hash: Hash, parent: Hash): Links {
    k.(parents := k.parents[hash := parent])
  }

  function WithTransaction(k: Links, hash: Hash, parent: Hash): Links {
    k.(parents := k.parents[hash := parent], unreferredTransactions := k.unreferredTransactions + {hash})
  }

  /** Nobody in `refs` refers to `x`. */
  ghost predicate Unreferred(refs: map<Hash, seq<Hash>>, x: Hash) {
    forall p :: p in refs ==> x !in refs[p]
  }

  /** Every block has its parent recorded, what is referred to as a transaction block has been inserted, and the
      two sets are exactly the blocks nobody refers to. */
  ghost predicate LinksOk(root: Hash, refs: map<Hash, seq<Hash>>, transactionRefs: map<Hash, seq<Hash>>,
                          voters: set<Hash>,
                          transactions: set<Hash>, k: Links) {
    && k.parents.Keys + {root} == refs.Keys + voters + transactions
    && transactions !! refs.Keys + voters
    && refs.Keys == transactionRefs.Keys
    && (forall p, x :: p in refs && x in refs[p] ==> x in refs)
    && (forall p, x :: p in transactionRefs && x in transactionRefs[p] ==> x in k.parents)
    && (forall x :: x in k.unreferredProposers <==> x in refs && Unreferred(refs, x))
    && (forall x :: x in k.unreferredTransactions <==> x in transactions && Unreferred(transactionRefs, x))
  }

  lemma GenesisLinked(root: Hash, voterGenesis: seq<Hash>)
    ensures LinksOk(root, map[root := []], map[root := []], Elems(voterGenesis), {}, GenesisLinks(root, voterGenesis))
  {
  }

  lemma AddReference(refs: map<Hash, seq<Hash>>, hash: Hash, list: seq<Hash>, x: Hash)
    requires hash !in refs
    ensures Unreferred(refs[hash := list], x) <==> Unreferred(refs, x) && x !in list
  {
    var more := refs[hash := list];
    if Unreferred(more, x) {
      assert hash in more && x !in more[hash];
      forall p | p in refs ensures x !in refs[p] { assert p in more && more[p] == refs[p]; }
    }
  }

  /** A proposer block over existing blocks keeps the links, and is itself referred to by nobody. */
  lemma ProposerLinked(root: Hash, refs: map<Hash, seq<Hash>>, transactionRefs: map<Hash, seq<Hash>>, voters: set<Hash>,
                       transactions: set<Hash>, k: Links, hash: Hash, parent: Hash, more: seq<Hash>, txs: seq<Hash>)
    requires LinksOk(root, refs, transactionRefs, voters, transactions, k)
    requires hash != root && hash !in k.parents && parent in refs
    requires (forall r :: r in more ==> r in refs) && forall x :: x in txs ==> x in k.parents
    ensures LinksOk(root, refs[hash := [parent] + more], transactionRefs[hash := txs], voters, transactions,
                    WithProposer(k, hash, parent, more, txs))
  {
    hide Unreferred;
    var all := [parent] + more;
    var k' := WithProposer(k, hash, parent, more, txs);
    var refs', transactionRefs' := refs[hash := all], transactionRefs[hash := txs];
    NotReferred(root, refs, transactionRefs, voters, transactions, k, hash);
    forall x ensures x in k'.unreferredProposers <==> x in refs' && Unreferred(refs', x) {
      AddReference(refs, hash, all, x);
    }
    forall x ensures x in k'.unreferredTransactions <==> x in transactions && Unreferred(transactionRefs', x) {
      AddReference(transactionRefs, hash, txs, x);
    }
    forall p, x | p in refs' && x in refs'[p] ensures x in refs' {
      if p != hash { assert p in refs && x in refs[p]; }
    }
    forall p, x | p in transactionRefs' && x in transactionRefs'[p] ensures x in k'.parents {
      if p != hash { assert p in transactionRefs && x in transactionRefs[p]; }
    }
    assert k'.parents.Keys == k.parents.Keys + {hash} && refs'.Keys == refs.Keys + {hash};
  }

  /** A new block is referred to by nobody. */
  lemma NotReferred(root: Hash, refs: map<Hash, seq<Hash>>, transactionRefs: map<Hash, seq<Hash>>, voters: set<Hash>,
                    transactions: set<Hash>, k: Links, hash: Hash)
    requires LinksOk(root, refs, transactionRefs, voters, transactions, k) && hash != root && hash !in k.parents
    ensures hash !in refs && hash !in voters && hash !in transactions
    ensures Unreferred(refs, hash) && Unreferred(transactionRefs, hash)
  {
    assert hash !in k.parents.Keys + {root};
  }

  lemma VoterLinked(root: Hash, refs: map<Hash, seq<Hash>>, transactionRefs: map<Hash, seq<Hash>>, voters: set<Hash>,
                    transactions: set<Hash>, k: Links, hash: Hash, parent: Hash)
    requires LinksOk(root, refs, transactionRefs, voters, transactions, k) && hash != root && hash !in k.parents
    ensures LinksOk(root, refs, transactionRefs, voters + {hash}, transactions, WithVoter(k, hash, parent))
  {
    hide Unreferred;
    NotReferred(root, refs, transactionRefs, voters, transactions, k, hash);
    assert WithVoter(k, hash, parent).parents.Keys == k.parents.Keys + {hash};
  }

  lemma TransactionLinked(root: Hash, refs: map<Hash, seq<Hash>>, transactionRefs: map<Hash, seq<Hash>>,
                          voters: set<Hash>,
                          transactions: set<Hash>, k: Links, hash: Hash, parent: Hash)
    requires LinksOk(root, refs, transactionRefs, voters, transactions, k) && hash != root && hash !in k.parents
    ensures LinksOk(root, refs, transactionRefs, voters, transactions + {hash}, WithTransaction(k, hash, parent))
  {
    hide Unreferred;
    NotReferred(root, refs, transactionRefs, voters, transactions, k, hash);
    assert WithTransaction(k, hash, parent).parents.Keys == k.parents.Keys + {hash};
  }
}
