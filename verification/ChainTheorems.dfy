/** What the invariant of the store means to its readers, in every reachable state. */
module ChainTheorems {
  import opened Common
  import L = Linearization
  import V = VoterTrees
  import opened VoteIndex
  import opened ChainInvariants
  import opened Store

  /** The stored per-level lists, in level order. */
  ghost function StoredLedger(s: State): seq<seq<Hash>>
    requires forall l: nat :: l <= s.ledgerTip ==> l in s.db.ledgerOrder
  {
    seq(s.ledgerTip + 1, l requires 0 <= l <= s.ledgerTip => s.db.ledgerOrder[l])
  }

  lemma StoredIsScratch(c: Config, s: State)
    requires Inv(c, s)
    ensures forall l: nat :: l in s.db.ledgerOrder <==> l <= s.ledgerTip
    ensures StoredLedger(s) == LedgerOf(c, s)
    ensures L.Valid(s.db.dag) && LeadersOk(s.db.dag, s.db.leaderSequence)
              && HasRun(s.db.leaderSequence, s.ledgerTip + 1)
    ensures s.ledgerTip + 1 !in s.db.leaderSequence
    ensures LedgerOf(c, s) == Scratch(s.db.dag, s.db.leaderSequence, s.ledgerTip + 1)
    ensures s.unconfirmedProposers == s.db.dag.refs.Keys - Elems(Flatten(LedgerOf(c, s)))
  {
    hide TreeOk, VotersInv, IndexInv, Scratch, LeadersOk, L.Valid;
  }

  lemma EndsWithLeader(d: L.Dag, leaders: map<nat, Hash>, n: nat)
    requires L.Valid(d) && LeadersOk(d, leaders) && HasRun(leaders, n)
    ensures forall l: nat :: l < n ==>
              var list := Scratch(d, leaders, n)[l];
              l in leaders && list != [] && list[|list| - 1] == leaders[l]
  {
    PrefixIn(d, leaders, n);
    L.LedgerIsTopological(d, Prefix(leaders, n));
  }

  /** The stored ledger covers exactly the longest run of levels that all have a leader, repeats no proposer
      block, lists every block after its parent and references, and ends each level with its leader.
      Confirmed and unconfirmed blocks partition everything inserted. */
  lemma ConfirmedLedger(c: Config, s: State)
    requires Inv(c, s)
    ensures forall l: nat :: l in s.db.ledgerOrder <==> l <= s.ledgerTip
    ensures (forall l: nat :: l <= s.ledgerTip ==> l in s.db.leaderSequence) && s.ledgerTip + 1 !in s.db.leaderSequence
    ensures
      var flat := Flatten(StoredLedger(s));
      && NoDup(flat)
      && L.Topological(s.db.dag, {}, flat)
      && Elems(flat) + s.unconfirmedProposers == s.db.dag.refs.Keys
      && Elems(flat) !! s.unconfirmedProposers
    ensures forall l: nat :: l <= s.ledgerTip ==>
              var list := s.db.ledgerOrder[l];
              && l in s.db.leaderSequence && list != [] && list[|list| - 1] == s.db.leaderSequence[l]
              && s.db.leaderSequence[l] in s.db.dag.level && s.db.dag.level[s.db.leaderSequence[l]] == l
  {
    hide Inv, L.Valid, L.Topological, LedgerOf, Scratch, L.Ledger;
    StoredIsScratch(c, s);
    var n := s.ledgerTip + 1;
    ScratchIsTopological(s.db.dag, s.db.leaderSequence, n);
    EndsWithLeader(s.db.dag, s.db.leaderSequence, n);
    forall l: nat | l <= s.ledgerTip
      ensures
        var list := s.db.ledgerOrder[l];
        && l in s.db.leaderSequence && list != [] && list[|list| - 1] == s.db.leaderSequence[l]
    {
      assert StoredLedger(s)[l] == s.db.ledgerOrder[l];
    }
  }

  /** Two nodes that agree on the leaders up to a level hold the same ledger up to that level, whatever
      order the blocks arrived in, whatever else they hold and whatever they reorganised before. */
  lemma SameLeadersSameLedger(c: Config, s: State, c': Config, s': State, top: nat)
    requires Inv(c, s) && Inv(c', s') && L.Agree(s.db.dag, s'.db.dag)
    requires top <= s.ledgerTip && top <= s'.ledgerTip
    requires forall l: nat :: l <= top ==>
               l in s.db.leaderSequence && l in s'.db.leaderSequence
                 && s.db.leaderSequence[l] == s'.db.leaderSequence[l]
    ensures forall l: nat :: l <= top ==>
              l in s.db.ledgerOrder && l in s'.db.ledgerOrder && s.db.ledgerOrder[l] == s'.db.ledgerOrder[l]
  {
    hide Inv, L.Valid, L.Agree, LedgerOf, Scratch;
    StoredIsScratch(c, s);
    StoredIsScratch(c', s');
    ScratchPrefix(s.db.dag, s.db.leaderSequence, s.ledgerTip + 1, top + 1);
    ScratchPrefix(s'.db.dag, s'.db.leaderSequence, s'.ledgerTip + 1, top + 1);
    SameScratch(s.db.dag, s.db.leaderSequence, s'.db.dag, s'.db.leaderSequence, top + 1);
    forall l: nat | l <= top
      ensures s.db.ledgerOrder[l] == s'.db.ledgerOrder[l]
    {
      assert StoredLedger(s)[l] == StoredLedger(s)[..top + 1][l];
      assert StoredLedger(s')[l] == StoredLedger(s')[..top + 1][l];
    }
  }

  lemma SameScratch(d: L.Dag, leaders: map<nat, Hash>, e: L.Dag, leaders': map<nat, Hash>, n: nat)
    requires L.Valid(d) && L.Valid(e) && L.Agree(d, e)
    requires LeadersOk(d, leaders) && HasRun(leaders, n) && LeadersOk(e, leaders') && HasRun(leaders', n)
    requires forall l: nat :: l < n ==> leaders[l] == leaders'[l]
    ensures Scratch(d, leaders, n) == Scratch(e, leaders', n)
  {
    hide L.Valid, L.Agree, L.Ledger;
    PrefixIn(d, leaders, n);
    PrefixIn(e, leaders', n);
    assert Prefix(leaders, n) == Prefix(leaders', n);
    L.LedgerFrame(d, e, Prefix(leaders, n));
  }

  /** Each chain's ledger tip carries exactly one vote per proposer level up to its voted level, and the
      votes stored with a proposer block are exactly the main-chain votes for it, each once. */
  lemma IndexIsMainChainVotes(c: Config, s: State, p: Hash)
    requires Inv(c, s)
    ensures NoDup(Entries(s.db.nodeVotes, p))
    ensures forall k: nat :: k < c.voterChains ==>
              && s.voterLedgerTips[k] in s.db.voters.voted
              && V.OnePerLevel(V.MainVotes(s.db.voters, s.db.dag.level, c.voterGenesis, s.voterLedgerTips[k]),
                               s.db.dag.level, s.db.voters.voted[s.voterLedgerTips[k]])
    ensures forall k: nat, l: nat :: (k, l) in Entries(s.db.nodeVotes, p) <==>
              && k < c.voterChains
              && var votes := V.MainVotes(s.db.voters, s.db.dag.level, c.voterGenesis, s.voterLedgerTips[k]);
                 p in votes && votes[p] == l
  {
    hide ProposersInv, LedgerInv, V.Valid, BestOk, CountsOk, TipsOk, TipVotes, V.MainVotes, V.OnePerLevel;
    var w := TipVotes(s.db.voters, s.db.dag.level, c.voterGenesis, s.voterLedgerTips);
    assert Exact(Entries(s.db.nodeVotes, p), Column(w, p));
    forall k: nat | k < c.voterChains
      ensures s.voterLedgerTips[k] in s.db.voters.level && s.voterLedgerTips[k] in s.db.voters.voted
      ensures w[k] == V.MainVotes(s.db.voters, s.db.dag.level, c.voterGenesis, s.voterLedgerTips[k])
      ensures V.OnePerLevel(w[k], s.db.dag.level, s.db.voters.voted[s.voterLedgerTips[k]])
    {
      TipVotesAt(c, s, k);
      V.MainVotesOnePerLevel(s.db.voters, s.db.dag.level, c.voterGenesis, s.voterLedgerTips[k]);
    }
    forall k: nat, l: nat
      ensures (k, l) in Entries(s.db.nodeVotes, p) <==> k < c.voterChains && p in w[k] && w[k][p] == l
    {
      var e: Entry := (k, l);
      assert e in Entries(s.db.nodeVotes, p) <==> e.0 in Column(w, p) && Column(w, p)[e.0] == e.1;
    }
  }
}
