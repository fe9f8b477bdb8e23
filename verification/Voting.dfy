/** Which votes a miner casts, and which votes validation accepts. */
module Voting {
  import opened Common
  import L = Linearization
  import V = VoterTrees
  import opened ChainInvariants
  import opened Store

  // ---- validation ----

  /** No reference of a proposer block lies above its parent. */
  method CheckRefProposerLevel(level: map<Hash, nat>, parent: Hash, refs: seq<Hash>) returns (ok: bool)
    requires parent in level && forall r :: r in refs ==> r in level
    ensures ok <==> forall r :: r in refs ==> level[r] <= level[parent]
  {
    ok := true;
    for i := 0 to |refs|
      invariant ok
      invariant forall r :: r in refs[..i] ==> level[r] <= level[parent]
    {
      assert refs[i] in refs && refs[..i + 1] == refs[..i] + [refs[i]];
      if level[refs[i]] > level[parent] {
        return false;
      }
    }
    assert refs[..|refs|] == refs;
  }

  /** Votes are accepted exactly when they name one block for each level after the last one the voter parent
      voted, up to the level of the proposer parent, in order. */
  method CheckLevelsVoted(s: State, parent: Hash, voterParent: Hash, votes: seq<Hash>) returns (ok: bool)
    requires parent in s.db.dag.level && voterParent in s.db.voters.voted
    requires forall p :: p in votes ==> p in s.db.dag.level
    ensures ok <==> LevelsVoted(s, parent, voterParent, votes)
  {
    var start := s.db.voters.voted[voterParent];
    var end := s.db.dag.level[parent];
    ghost var first := start;
    if start > end {
      return false;
    }
    if |votes| != end - start {
      return false;
    }
    for i := 0 to |votes|
      invariant start == first + i
      invariant forall j :: 0 <= j < i ==> s.db.dag.level[votes[j]] == first + 1 + j
    {
      start := start + 1;
      assert votes[i] in votes;
      if start != s.db.dag.level[votes[i]] {
        return false;
      }
    }
    ok := true;
  }

  // ---- the miner's choice ----

  ghost predicate Sorted(s: seq<Hash>) {
    forall i, j :: 0 <= i < j < |s| ==> s[i] <= s[j]
  }

  function Insert(s: seq<Hash>, x: Hash): (r: seq<Hash>)
    ensures multiset(r) == multiset(s) + multiset{x}
  {
    if s == [] then [x]
    else if x <= s[0] then [x] + s
    else
      assert s == [s[0]] + s[1..];
      [s[0]] + Insert(s[1..], x)
  }

  /** `sort_unstable` on hashes. */
  function Sort(s: seq<Hash>): (r: seq<Hash>)
    ensures multiset(r) == multiset(s)
  {
    if s == [] then [] else
      assert s == s[..|s| - 1] + [s[|s| - 1]];
      Insert(Sort(s[..|s| - 1]), s[|s| - 1])
  }

  lemma {:induction false} InsertSorted(s: seq<Hash>, x: Hash)
    requires Sorted(s)
    ensures Sorted(Insert(s, x))
  {
    if s != [] && x > s[0] {
      InsertSorted(s[1..], x);
      InsertAbove(s[1..], x, s[0]);
      hide Insert;
      PrependSorted(s[0], Insert(s[1..], x));
      InsertTail(s, x);
    }
  }

  lemma InsertTail(s: seq<Hash>, x: Hash)
    requires s != [] && x > s[0]
    ensures Insert(s, x) == [s[0]] + Insert(s[1..], x)
  {
  }

  lemma {:induction false} InsertAbove(s: seq<Hash>, x: Hash, low: Hash)
    requires low <= x && forall i :: 0 <= i < |s| ==> low <= s[i]
    ensures forall i :: 0 <= i < |Insert(s, x)| ==> low <= Insert(s, x)[i]
  {
    if s != [] && x > s[0] {
      InsertAbove(s[1..], x, low);
    }
  }

  lemma PrependSorted(y: Hash, s: seq<Hash>)
    requires Sorted(s) && forall i :: 0 <= i < |s| ==> y <= s[i]
    ensures Sorted([y] + s)
  {
  }

  lemma {:induction false} SortSorts(s: seq<Hash>)
    ensures Sorted(Sort(s))
    ensures forall x :: x in Sort(s) <==> x in s
  {
    if s != [] {
      SortSorts(s[..|s| - 1]);
      InsertSorted(Sort(s[..|s| - 1]), s[|s| - 1]);
    }
    forall x ensures x in Sort(s) <==> x in s {
      assert x in Sort(s) <==> x in multiset(Sort(s));
    }
  }

  /** `b` has the most votes among `blocks`, and the lowest hash among those with as many. */
  ghost predicate MostVoted(counts: map<Hash, nat>, blocks: seq<Hash>, b: Hash) {
    && b in blocks
    && forall x :: x in blocks ==>
         || VotesFor(counts, x) < VotesFor(counts, b)
         || (VotesFor(counts, x) == VotesFor(counts, b) && b <= x)
  }

  /** The block to vote for on one level. */
  method BestVote(counts: map<Hash, nat>, blocks0: seq<Hash>) returns (best: Hash)
    requires blocks0 != []
    ensures MostVoted(counts, blocks0, best)
  {
    var blocks := Sort(blocks0);
    SortSorts(blocks0);
    assert blocks0[0] in blocks;
    var bestVote: Option<(Hash, nat)> := None;
    for i := 0 to |blocks|
      invariant i == 0 <==> bestVote.None?
      invariant bestVote.Some? ==>
                  && bestVote.value.1 == VotesFor(counts, bestVote.value.0)
                  && MostVoted(counts, blocks[..i], bestVote.value.0)
    {
      var b := blocks[i];
      var n := VotesFor(counts, b);
      assert blocks[..i + 1] == blocks[..i] + [b];
      match bestVote {
        case Some(v) =>
          if n > v.1 {
            bestVote := Some((b, n));
          } else {
            assert v.0 <= b by {
              var k :| 0 <= k < i && blocks[k] == v.0;
            }
          }
        case None =>
          bestVote := Some((b, n));
      }
    }
    assert blocks[..|blocks|] == blocks;
    best := bestVote.value.0;
  }

  /** One vote for every level after the tip's voted level up to the proposer parent's level: the most voted
      block of the level, lowest hash on ties. Validation accepts exactly this list whenever the tip has not
      voted beyond the proposer parent. */
  method UnvotedProposer(c: Config, s: State, tip: Hash, parent: Hash) returns (list: seq<Hash>)
    requires ProposersInv(c, s) && VotersInv(c, s) && tip in s.db.voters.voted && parent in s.db.dag.level
    ensures forall i :: 0 <= i < |list| ==>
              s.db.voters.voted[tip] + 1 + i in s.db.treeLevel
              && MostVoted(s.db.voteCount, s.db.treeLevel[s.db.voters.voted[tip] + 1 + i], list[i])
    ensures LevelsVoted(s, parent, tip, list) <==> s.db.voters.voted[tip] <= s.db.dag.level[parent]
  {
    hide V.Valid, BestOk, CountsOk, TipsOk, ProposersOk;
    var first, last := s.db.voters.voted[tip], s.db.dag.level[parent];
    list := [];
    if first <= last {
      for level := first + 1 to last + 1
        invariant |list| == level - first - 1
        invariant forall i :: 0 <= i < |list| ==>
                    first + 1 + i in s.db.treeLevel && MostVoted(s.db.voteCount, s.db.treeLevel[first + 1 + i], list[i])
      {
        LevelNonempty(c, s, parent, level);
        var best := BestVote(s.db.voteCount, s.db.treeLevel[level]);
        list := list + [best];
      }
      forall i | 0 <= i < |list|
        ensures list[i] in s.db.dag.level && s.db.dag.level[list[i]] == first + 1 + i
      {
        assert list[i] in s.db.treeLevel[first + 1 + i];
      }
    }
  }

  /** Every level up to that of an inserted proposer block holds a block. */
  lemma {:induction false} LevelNonempty(c: Config, s: State, b: Hash, l: nat)
    requires ProposersInv(c, s) && b in s.db.dag.level && l <= s.db.dag.level[b]
    ensures l in s.db.treeLevel && s.db.treeLevel[l] != []
    decreases s.db.dag.level[b]
  {
    var d := s.db.dag;
    assert b in s.db.treeLevel[d.level[b]];
    if l < d.level[b] {
      assert AboveParent(d, b);
      LevelNonempty(c, s, d.refs[b][0], l);
    }
  }

  /** A block mined with these votes on that tip is admissible, and never lowers the voted level. */
  lemma MinedVotesAdmissible(c: Config, s: State, hash: Hash, parent: Hash, tip: Hash, votes: seq<Hash>)
    requires Inv(c, s) && hash !in s.db.voters.level && parent in s.db.dag.level && tip in s.db.voters.level
    requires tip in s.db.voters.voted && LevelsVoted(s, parent, tip, votes)
    ensures VoterAdmissible(s, hash, parent, tip, votes)
    ensures
      var s' := AfterVoter(s, hash, parent, tip, votes);
      && Inv(c, s')
      && hash in s'.db.voters.voted && s.db.voters.voted[tip] <= s'.db.voters.voted[hash]
  {
    hide ProposersInv, IndexInv, LedgerInv, BestOk, CountsOk, TipsOk;
    assert tip in s.db.voters.chain;
    VoterKeeps(c, s, hash, parent, tip, votes);
  }
}
