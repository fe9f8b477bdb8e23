/** What the numbers of an election mean in the voter trees: how deep a vote is buried under the best block of its
    chain, and how many blocks the chain has mined since. */
module VoteDepths {
  import opened Common
  import E = Election
  import V = VoterTrees
  import opened VoteIndex
  import opened ChainInvariants
  import opened Leader
  import opened LedgerUpdate
  import opened Store

  /** The blocks of the main chain that ends in `v`, from level `l` up. */
  ghost function Burying(t: V.VoterTree, pl: map<Hash, nat>, genesis: seq<Hash>, v: Hash, l: nat): set<Hash>
    requires V.Valid(t, pl, genesis) && v in t.level
  {
    set a | a in t.level && V.IsAncestor(t, pl, genesis, a, v) && l <= t.level[a]
  }

  /** All blocks of chain `c` from level `l` to level `top`. */
  ghost function Mined(t: V.VoterTree, c: nat, l: nat, top: nat): set<Hash> {
    set v | v in t.level && v in t.chain && t.chain[v] == c && l <= t.level[v] <= top
  }

  lemma {:induction false} BuryingCount(t: V.VoterTree, pl: map<Hash, nat>, genesis: seq<Hash>, v: Hash, l: nat)
    requires V.Valid(t, pl, genesis) && v in t.level && l <= t.level[v]
    ensures |Burying(t, pl, genesis, v, l)| == t.level[v] + 1 - l
    decreases t.level[v]
  {
    hide V.Valid;
    V.HasParent(t, pl, genesis, v);
    if t.level[v] == l {
      forall a | a in Burying(t, pl, genesis, v, l) ensures a == v { V.AncestorFacts(t, pl, genesis, a, v); }
      assert Burying(t, pl, genesis, v, l) == {v};
    } else {
      var u := t.parent[v];
      BuryingCount(t, pl, genesis, u, l);
      forall a | a in Burying(t, pl, genesis, u, l) ensures a != v { V.AncestorFacts(t, pl, genesis, a, u); }
      assert Burying(t, pl, genesis, v, l) == Burying(t, pl, genesis, u, l) + {v};
    }
  }

  lemma {:induction false} MinedCount(counts: map<(nat, nat), nat>, best: seq<(Hash, nat)>, t: V.VoterTree, c: nat,
                                      l: nat, top: nat)
    requires LevelCountsOk(counts, best, t) && l <= top + 1
    ensures CountRange(counts, c, l, top + 1) == |Mined(t, c, l, top)|
    decreases top
  {
    if l == top + 1 {
      assert Mined(t, c, l, top) == {};
    } else {
      var here := BlocksAt(t, c, top);
      assert CountAt(counts, c, top) == |here|;
      if top == 0 {
        assert Mined(t, c, l, top) == here;
        assert CountRange(counts, c, 0, 0) == 0;
      } else {
        MinedCount(counts, best, t, c, l, top - 1);
        assert Mined(t, c, l, top) == Mined(t, c, l, top - 1) + here;
        assert Mined(t, c, l, top - 1) !! here;
      }
    }
  }

  // ---- the numbers of an election in a valid store ----

  ghost predicate Voted(c: Config, s: State) {
    ProposersInv(c, s) && VotersInv(c, s) && IndexInv(c, s)
  }

  ghost predicate InReach(s: State, e: Entry) {
    && e.0 < |s.voterBest| && e.1 <= s.voterBest[e.0].1
    && s.voterBest[e.0].0 in s.db.voters.level && s.db.voters.level[s.voterBest[e.0].0] == s.voterBest[e.0].1
  }

  lemma EntryInReach(c: Config, s: State, p: Hash, e: Entry)
    requires Voted(c, s) && e in Entries(s.db.nodeVotes, p)
    ensures InReach(s, e)
  {
    VotesReachable(c, s);
    hide V.Valid, CountsOk, TipsOk, ProposersInv, IndexInv;
    assert OnChain(s.db.voters, s.voterBest[e.0].0, e.0);
  }

  /** Blocks on top of a vote, the voting block included. */
  ghost function TreeDepth(c: Config, s: State, e: Entry): nat
    requires Voted(c, s) && InReach(s, e)
  {
    |Burying(s.db.voters, s.db.dag.level, c.voterGenesis, s.voterBest[e.0].0, e.1)|
  }

  /** Blocks of the vote's chain since the vote, forks included. */
  ghost function TreeMined(s: State, e: Entry): nat
    requires InReach(s, e)
  {
    |Mined(s.db.voters, e.0, e.1, s.voterBest[e.0].1)|
  }

  /** The depth of a stored vote and the blocks mined since, counted in the tree. */
  lemma CountedInTheTree(c: Config, s: State, e: Entry)
    requires Voted(c, s) && InReach(s, e)
    ensures Depth(s.voterBest, e) == TreeDepth(c, s, e)
    ensures MinedSince(s.db.levelCount, s.voterBest, e) == TreeMined(s, e)
  {
    hide V.Valid, TipsOk, BestOk, ProposersInv, IndexInv, Burying, Mined;
    BuryingCount(s.db.voters, s.db.dag.level, c.voterGenesis, s.voterBest[e.0].0, e.1);
    MinedCount(s.db.levelCount, s.voterBest, s.db.voters, e.0, e.1, s.voterBest[e.0].1);
  }

  ghost predicate AllInReach(s: State, entries: seq<Entry>) {
    forall e :: e in entries ==> InReach(s, e)
  }

  ghost function TreeDepths(c: Config, s: State, entries: seq<Entry>): seq<nat>
    requires Voted(c, s) && AllInReach(s, entries)
  {
    seq(|entries|, i requires 0 <= i < |entries| => assert entries[i] in entries; TreeDepth(c, s, entries[i]))
  }

  ghost function TreeMinedAll(s: State, entries: seq<Entry>): nat
    requires AllInReach(s, entries)
  {
    if entries == [] then 0 else
      var e := entries[|entries| - 1];
      assert e in entries;
      TreeMinedAll(s, entries[..|entries| - 1]) + TreeMined(s, e)
  }

  lemma {:induction false} EntriesInTheTree(c: Config, s: State, entries: seq<Entry>)
    requires Voted(c, s) && AllInReach(s, entries)
    ensures Depths(s.voterBest, entries) == TreeDepths(c, s, entries)
    ensures MinedSinceAll(s.db.levelCount, s.voterBest, entries) == TreeMinedAll(s, entries)
  {
    hide Voted, InReach, TreeDepth, TreeMined, Depth, MinedSince;
    if entries != [] {
      var n := |entries| - 1;
      assert entries[n] in entries;
      EntriesInTheTree(c, s, entries[..n]);
      CountedInTheTree(c, s, entries[n]);
      assert TreeDepths(c, s, entries) == TreeDepths(c, s, entries[..n]) + [TreeDepth(c, s, entries[n])];
    }
  }

  lemma BlockInReach(c: Config, s: State, p: Hash)
    requires Voted(c, s)
    ensures AllInReach(s, Entries(s.db.nodeVotes, p))
  {
    hide Voted, InReach;
    forall e | e in Entries(s.db.nodeVotes, p) ensures InReach(s, e) { EntryInReach(c, s, p, e); }
  }

  ghost function TreeMinedOnLevel(c: Config, s: State, blocks: seq<Hash>): nat
    requires Voted(c, s)
  {
    if blocks == [] then 0 else
      var p := blocks[|blocks| - 1];
      BlockInReach(c, s, p);
      TreeMinedOnLevel(c, s, blocks[..|blocks| - 1]) + TreeMinedAll(s, Entries(s.db.nodeVotes, p))
  }

  lemma {:induction false} LevelInTheTree(c: Config, s: State, blocks: seq<Hash>)
    requires Voted(c, s)
    ensures MinedOnLevel(s.db.levelCount, s.voterBest, s.db.nodeVotes, blocks) == TreeMinedOnLevel(c, s, blocks)
  {
    hide Voted, AllInReach, TreeMinedAll, MinedSinceAll, Depths, TreeDepths;
    if blocks != [] {
      var p := blocks[|blocks| - 1];
      LevelInTheTree(c, s, blocks[..|blocks| - 1]);
      BlockInReach(c, s, p);
      EntriesInTheTree(c, s, Entries(s.db.nodeVotes, p));
    }
  }

  /** The chains whose ledger tip has voted on level `l`. */
  ghost function ChainsVoted(c: Config, s: State, l: nat): set<nat> {
    set k | 0 <= k < c.voterChains && k < |s.voterLedgerTips| && s.voterLedgerTips[k] in s.db.voters.voted
            && l <= s.db.voters.voted[s.voterLedgerTips[k]]
  }

  /** The bound of a block of level `l`, from what is in the trees. */
  ghost function TreeBound(bound: VoteBound, c: Config, s: State, l: nat, confirm: bool, p: Hash): real
    requires Voted(c, s) && l in s.db.treeLevel
  {
    BlockInReach(c, s, p);
    var x := bound(TreeDepths(c, s, Entries(s.db.nodeVotes, p)), TreeMinedOnLevel(c, s, s.db.treeLevel[l]),
                   |ChainsVoted(c, s, l)|, confirm);
    if x > 0.0 then x else 0.0
  }

  ghost function TreeBounds(bound: VoteBound, c: Config, s: State, l: nat, confirm: bool): map<Hash, real>
    requires Voted(c, s) && l in s.db.treeLevel
  {
    map p | p in s.db.treeLevel[l] :: TreeBound(bound, c, s, l, confirm, p)
  }

  /** `r` leads level `l`: it wins every completion of the bounds, and more than a quorum of chains has voted. */
  ghost predicate LeadsOverTrees(bound: VoteBound, c: Config, s: State, l: nat, confirm: bool, r: Option<Hash>)
    requires Voted(c, s) && l in s.db.treeLevel
  {
    && (r.Some? ==> r.value in s.db.treeLevel[l])
    && forall b: Hash :: r == Some(b) <==>
         && |ChainsVoted(c, s, l)| > Quorum(c.voterChains)
         && E.Robust(s.db.treeLevel[l], TreeBounds(bound, c, s, l, confirm), c.voterChains as real, b)
  }

  lemma VotesAreChains(c: Config, s: State, l: nat)
    requires Voted(c, s) && l in s.db.treeLevel
    ensures TotalVotes(s.db.nodeVotes, s.db.treeLevel[l]) == |ChainsVoted(c, s, l)|
  {
    hide V.Valid, BestOk, CountsOk, IndexInv, ProposersInv, TotalVotes;
    LevelVotes(c, s, l);
    assert ChainsVoted(c, s, l)
           == set k | 0 <= k < c.voterChains && l <= s.db.voters.voted[s.voterLedgerTips[k]];
  }

  lemma BoundsInTheTree(bound: VoteBound, c: Config, s: State, l: nat, confirm: bool)
    requires Voted(c, s) && l in s.db.treeLevel
    ensures Bounds(bound, s.db.treeLevel[l], s.db.nodeVotes, s.db.levelCount, s.voterBest, confirm)
            == TreeBounds(bound, c, s, l, confirm)
  {
    hide Voted, AllInReach, MinedOnLevel, TreeMinedOnLevel, Depths, TreeDepths, TotalVotes, ChainsVoted;
    LevelInTheTree(c, s, s.db.treeLevel[l]);
    VotesAreChains(c, s, l);
    forall p | p in s.db.treeLevel[l]
      ensures Bounds(bound, s.db.treeLevel[l], s.db.nodeVotes, s.db.levelCount, s.voterBest, confirm)[p]
              == TreeBound(bound, c, s, l, confirm, p)
    {
      BlockInReach(c, s, p);
      EntriesInTheTree(c, s, Entries(s.db.nodeVotes, p));
    }
  }

  /** The leader an update gives to a level is the one the voter trees elect: by the depths of the votes in their
      main chains, the blocks mined since, and the chains that have voted. */
  lemma ElectedByTheTrees(bound: VoteBound, c: Config, s: State, l: nat, existing: Option<Hash>, r: Option<Hash>)
    requires Voted(c, s) && l in s.db.treeLevel
    ensures
      var v := Votes(bound, c.voterChains, s.db.treeLevel, s.db.nodeVotes, s.db.levelCount, s.voterBest);
      Reelected(v, l, existing, r) <==> LeadsOverTrees(bound, c, s, l, existing.None?, r)
  {
    hide Voted, Bounds, TreeBounds, TotalVotes, ChainsVoted, E.Robust, Quorum;
    VotesAreChains(c, s, l);
    BoundsInTheTree(bound, c, s, l, existing.None?);
  }
}
