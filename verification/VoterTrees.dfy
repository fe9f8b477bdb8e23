/** The voter trees, the votes of a main chain, and the per-proposer vote index kept in step with them. */
module VoterTrees {
  import opened Common

  /** `level`, `chain`, `votes` and `voted` describe every voter block; `parent` all but the genesis blocks.
      `voted` is the deepest proposer level voted on the path to the block. */
  datatype VoterTree = VoterTree(
    level: map<Hash, nat>,
    chain: map<Hash, nat>,
    parent: map<Hash, Hash>,
    votes: map<Hash, seq<Hash>>,
    voted: map<Hash, nat>)

  /** What validated insertion keeps. `pl` gives the level of every proposer block. */
  ghost predicate Valid(t: VoterTree, pl: map<Hash, nat>, genesis: seq<Hash>) {
    && t.level.Keys == t.chain.Keys == t.votes.Keys == t.voted.Keys
    && t.parent.Keys <= t.level.Keys
    && (forall c :: 0 <= c < |genesis| ==> GenesisOk(t, pl, genesis[c], c))
    && (forall v {:trigger t.chain[v]} :: v in t.level && v !in t.parent ==>
        t.chain[v] < |genesis| && v == genesis[t.chain[v]])
    && (forall v {:trigger ChildOk(t, pl, v)} :: v in t.parent ==> ChildOk(t, pl, v))
  }

  /** A voter genesis block: level 0, and a single vote for a level-0 proposer block. */
  ghost predicate GenesisOk(t: VoterTree, pl: map<Hash, nat>, g: Hash, c: nat)
    requires t.level.Keys == t.chain.Keys == t.votes.Keys == t.voted.Keys
  {
    && g in t.level && g !in t.parent
    && t.level[g] == 0 && t.chain[g] == c && t.voted[g] == 0
    && VotesLevels(t.votes[g], pl, 0, 1)
  }

  /** A voter block one level above its parent on the same chain, voting the next levels in order. */
  ghost predicate ChildOk(t: VoterTree, pl: map<Hash, nat>, v: Hash)
    requires t.level.Keys == t.chain.Keys == t.votes.Keys == t.voted.Keys && v in t.parent && v in t.level
  {
    var u := t.parent[v];
    && u in t.level
    && t.level[v] == t.level[u] + 1 && t.chain[v] == t.chain[u]
    && t.voted[u] <= t.voted[v]
    && VotesLevels(t.votes[v], pl, t.voted[u] + 1, t.voted[v] + 1)
  }

  /** `votes` holds exactly one proposer block for each level `from <= l < to`, in order. */
  predicate VotesLevels(votes: seq<Hash>, pl: map<Hash, nat>, from: nat, to: nat) {
    && from <= to && |votes| == to - from
    && forall i :: 0 <= i < |votes| ==> votes[i] in pl && pl[votes[i]] == from + i
  }

  // ---- the votes of a main chain ----

  ghost function Own(t: VoterTree, v: Hash): map<Hash, nat>
    requires v in t.votes && v in t.level
  {
    map p | p in t.votes[v] :: t.level[v]
  }

  /** All votes on the path from genesis to `v`: proposer block to the level of the voter block. */
  ghost function MainVotes(t: VoterTree, pl: map<Hash, nat>, genesis: seq<Hash>, v: Hash): map<Hash, nat>
    requires Valid(t, pl, genesis) && v in t.level
    decreases t.level[v]
  {
    if v in t.parent then assert ChildOk(t, pl, v); MainVotes(t, pl, genesis, t.parent[v]) + Own(t, v)
    else Own(t, v)
  }

  ghost predicate VotesOn(m: map<Hash, nat>, pl: map<Hash, nat>, l: nat) {
    exists p :: p in m && p in pl && pl[p] == l
  }

  /** A main chain holds exactly one vote on every proposer level up to its voted level. */
  ghost predicate OnePerLevel(m: map<Hash, nat>, pl: map<Hash, nat>, voted: nat) {
    && (forall p :: p in m ==> p in pl && pl[p] <= voted)
    && (forall l :: 0 <= l <= voted ==> VotesOn(m, pl, l))
    && (forall p, q :: p in m && q in m && pl[p] == pl[q] ==> p == q)
  }

  lemma OnePerLevelExtends(m: map<Hash, nat>, own: map<Hash, nat>, votes: seq<Hash>, pl: map<Hash, nat>, from: nat,
                           to: nat)
    requires from == 0 ==> m == map[]
    requires from > 0 ==> OnePerLevel(m, pl, from - 1)
    requires VotesLevels(votes, pl, from, to + 1) && own.Keys == Elems(votes)
    ensures OnePerLevel(m + own, pl, to)
  {
    forall l | 0 <= l <= to
      ensures VotesOn(m + own, pl, l)
    {
      if l < from {
        assert VotesOn(m, pl, l);
      } else {
        assert votes[l - from] in m + own;
      }
    }
  }

  lemma {:induction false} MainVotesOnePerLevel(t: VoterTree, pl: map<Hash, nat>, genesis: seq<Hash>, v: Hash)
    requires Valid(t, pl, genesis) && v in t.level
    ensures OnePerLevel(MainVotes(t, pl, genesis, v), pl, t.voted[v])
    ensures forall p :: p in MainVotes(t, pl, genesis, v) ==> MainVotes(t, pl, genesis, v)[p] <= t.level[v]
    decreases t.level[v]
  {
    if v in t.parent {
      assert ChildOk(t, pl, v);
      var u := t.parent[v];
      MainVotesOnePerLevel(t, pl, genesis, u);
      OnePerLevelExtends(MainVotes(t, pl, genesis, u), Own(t, v), t.votes[v], pl, t.voted[u] + 1, t.voted[v]);
    } else {
      assert GenesisOk(t, pl, genesis[t.chain[v]], t.chain[v]);
      OnePerLevelExtends(map[], Own(t, v), t.votes[v], pl, 0, 0);
      assert map[] + Own(t, v) == Own(t, v);
    }
  }

  ghost predicate IsAncestor(t: VoterTree, pl: map<Hash, nat>, genesis: seq<Hash>, a: Hash, v: Hash)
    requires Valid(t, pl, genesis) && v in t.level
    decreases t.level[v]
  {
    a == v || (v in t.parent && (assert ChildOk(t, pl, v); IsAncestor(t, pl, genesis, a, t.parent[v])))
  }

  lemma {:induction false} AncestorFacts(t: VoterTree, pl: map<Hash, nat>, genesis: seq<Hash>, a: Hash, v: Hash)
    requires Valid(t, pl, genesis) && v in t.level && IsAncestor(t, pl, genesis, a, v)
    ensures a in t.level && t.level[a] <= t.level[v] && t.chain[a] == t.chain[v] && t.voted[a] <= t.voted[v]
    ensures a != v ==> t.level[a] < t.level[v]
    decreases t.level[v]
  {
    if a != v {
      assert ChildOk(t, pl, v);
      AncestorFacts(t, pl, genesis, a, t.parent[v]);
    }
  }

  function Tag(votes: seq<Hash>, level: nat): seq<(Hash, nat)> {
    seq(|votes|, i requires 0 <= i < |votes| => (votes[i], level))
  }

  /** The votes above `a` on the path to `v`, from the top block down: what `vote_diff` collects. */
  ghost function Segment(t: VoterTree, pl: map<Hash, nat>, genesis: seq<Hash>, v: Hash, a: Hash): seq<(Hash, nat)>
    requires Valid(t, pl, genesis) && v in t.level && IsAncestor(t, pl, genesis, a, v)
    decreases t.level[v]
  {
    if a == v then [] else
      assert ChildOk(t, pl, v);
      Tag(t.votes[v], t.level[v]) + Segment(t, pl, genesis, t.parent[v], a)
  }

  lemma {:induction false} SegmentExtends(t: VoterTree, pl: map<Hash, nat>, genesis: seq<Hash>, v: Hash, a: Hash)
    requires Valid(t, pl, genesis) && v in t.level && IsAncestor(t, pl, genesis, a, v) && a in t.parent
    ensures a in t.level && IsAncestor(t, pl, genesis, t.parent[a], v)
    ensures Segment(t, pl, genesis, v, t.parent[a]) == Segment(t, pl, genesis, v, a) + Tag(t.votes[a], t.level[a])
    decreases t.level[v]
  {
    assert ChildOk(t, pl, a);
    var u := t.parent[a];
    if a == v {
      assert IsAncestor(t, pl, genesis, u, u);
      assert Segment(t, pl, genesis, u, u) == [];
    } else {
      assert ChildOk(t, pl, v);
      SegmentExtends(t, pl, genesis, t.parent[v], a);
      AncestorFacts(t, pl, genesis, a, t.parent[v]);
      assert u != v;
    }
  }

  /** The votes of a list as a map. */
  function AsMap(s: seq<(Hash, nat)>): map<Hash, nat> {
    if s == [] then map[] else AsMap(s[..|s| - 1])[s[|s| - 1].0 := s[|s| - 1].1]
  }

  ghost predicate DistinctProposers(s: seq<(Hash, nat)>) {
    forall i, j :: 0 <= i < j < |s| ==> s[i].0 != s[j].0
  }

  lemma {:induction false} AsMapKeys(s: seq<(Hash, nat)>, p: Hash)
    ensures p in AsMap(s) <==> exists i :: 0 <= i < |s| && s[i].0 == p
  {
    if s != [] {
      var k := |s| - 1;
      AsMapKeys(s[..k], p);
      if p in AsMap(s) && p != s[k].0 {
        var i :| 0 <= i < k && s[..k][i].0 == p;
        assert s[i].0 == p;
      }
      if i :| 0 <= i < |s| && s[i].0 == p {
        if i < k { assert s[..k][i].0 == p; }
      }
    }
  }

  lemma {:induction false} AsMapConcat(a: seq<(Hash, nat)>, b: seq<(Hash, nat)>)
    ensures AsMap(a + b) == AsMap(a) + AsMap(b)
  {
    if b == [] {
      assert a + b == a;
    } else {
      AsMapConcat(a, b[..|b| - 1]);
      assert (a + b)[..|a + b| - 1] == a + b[..|b| - 1];
    }
  }

  lemma {:induction false} AsMapTag(votes: seq<Hash>, level: nat)
    ensures AsMap(Tag(votes, level)) == map p | p in votes :: level
  {
    if votes != [] {
      var k := |votes| - 1;
      AsMapTag(votes[..k], level);
      assert Tag(votes, level)[..k] == Tag(votes[..k], level);
      assert votes == votes[..k] + [votes[k]];
    }
  }

  /** All votes of `s` are for distinct proposer blocks with levels in `lo < l <= hi`. */
  ghost predicate Spread(s: seq<(Hash, nat)>, pl: map<Hash, nat>, lo: nat, hi: nat) {
    && DistinctProposers(s)
    && forall i :: 0 <= i < |s| ==> s[i].0 in pl && lo < pl[s[i].0] <= hi
  }

  lemma SpreadExtends(votes: seq<Hash>, level: nat, rest: seq<(Hash, nat)>, pl: map<Hash, nat>, lo: nat, mid: nat,
                      hi: nat)
    requires VotesLevels(votes, pl, mid + 1, hi + 1) && Spread(rest, pl, lo, mid) && lo <= mid
    ensures Spread(Tag(votes, level) + rest, pl, lo, hi)
  {
    var top := Tag(votes, level);
    var s := top + rest;
    forall i, j | 0 <= i < j < |s|
      ensures s[i].0 != s[j].0
    {
      if i < |top| {
        assert s[i].0 == votes[i] && pl[votes[i]] == mid + 1 + i;
        if j < |top| { assert s[j].0 == votes[j]; } else { assert s[j] == rest[j - |top|]; }
      } else {
        assert s[i] == rest[i - |top|] && s[j] == rest[j - |top|];
      }
    }
  }

  lemma {:induction false} SegmentSpread(t: VoterTree, pl: map<Hash, nat>, genesis: seq<Hash>, v: Hash, a: Hash)
    requires Valid(t, pl, genesis) && v in t.level && IsAncestor(t, pl, genesis, a, v)
    ensures a in t.level && t.voted[a] <= t.voted[v]
    ensures Spread(Segment(t, pl, genesis, v, a), pl, t.voted[a], t.voted[v])
    decreases t.level[v]
  {
    if a != v {
      assert ChildOk(t, pl, v);
      var u := t.parent[v];
      SegmentSpread(t, pl, genesis, u, a);
      SpreadExtends(t.votes[v], t.level[v], Segment(t, pl, genesis, u, a), pl, t.voted[a], t.voted[u], t.voted[v]);
    }
  }

  lemma SpreadDisjoint(votes: seq<Hash>, level: nat, rest: seq<(Hash, nat)>, pl: map<Hash, nat>, lo: nat, mid: nat,
                       hi: nat)
    requires VotesLevels(votes, pl, mid + 1, hi + 1) && Spread(rest, pl, lo, mid)
    ensures AsMap(Tag(votes, level) + rest) == AsMap(rest) + (map p | p in votes :: level)
  {
    AsMapConcat(Tag(votes, level), rest);
    AsMapTag(votes, level);
    forall p | p in votes ensures p !in AsMap(rest) {
      AsMapKeys(rest, p);
    }
  }

  lemma MapAssoc(a: map<Hash, nat>, b: map<Hash, nat>, c: map<Hash, nat>)
    ensures a + b + c == a + (b + c)
  {
  }

  lemma MapEmpty(a: map<Hash, nat>)
    ensures a + map[] == a
  {
  }

  /** A segment lists every vote above the ancestor, and nothing else. */
  lemma {:induction false} SegmentSplits(t: VoterTree, pl: map<Hash, nat>, genesis: seq<Hash>, v: Hash, a: Hash)
    requires Valid(t, pl, genesis) && v in t.level && IsAncestor(t, pl, genesis, a, v)
    ensures a in t.level
    ensures MainVotes(t, pl, genesis, v) == MainVotes(t, pl, genesis, a) + AsMap(Segment(t, pl, genesis, v, a))
    decreases t.level[v]
  {
    if a != v {
      assert ChildOk(t, pl, v);
      var u := t.parent[v];
      SegmentSplits(t, pl, genesis, u, a);
      SegmentSpread(t, pl, genesis, u, a);
      var rest := Segment(t, pl, genesis, u, a);
      SpreadDisjoint(t.votes[v], t.level[v], rest, pl, t.voted[a], t.voted[u], t.voted[v]);
      MapAssoc(MainVotes(t, pl, genesis, a), AsMap(rest), Own(t, v));
    } else {
      MapEmpty(MainVotes(t, pl, genesis, v));
    }
  }

  // ---- vote_diff ----

  /** `a` is the lowest common ancestor of `v` and `w`. */
  ghost predicate IsLowestCommonAncestor(t: VoterTree, pl: map<Hash, nat>, genesis: seq<Hash>, a: Hash, v: Hash,
                                         w: Hash)
    requires Valid(t, pl, genesis) && v in t.level && w in t.level
  {
    && IsAncestor(t, pl, genesis, a, v) && IsAncestor(t, pl, genesis, a, w)
    && forall c :: IsAncestor(t, pl, genesis, c, v) && IsAncestor(t, pl, genesis, c, w) ==>
         a in t.level && IsAncestor(t, pl, genesis, c, a)
  }

  /** The common ancestors of `v0` and `w0` are those of `v` and `w`. */
  ghost predicate SameCommon(t: VoterTree, pl: map<Hash, nat>, genesis: seq<Hash>, v0: Hash, w0: Hash, v: Hash, w: Hash)
    requires Valid(t, pl, genesis) && v0 in t.level && w0 in t.level && v in t.level && w in t.level
  {
    forall c :: IsAncestor(t, pl, genesis, c, v0) && IsAncestor(t, pl, genesis, c, w0) ==>
      IsAncestor(t, pl, genesis, c, v) && IsAncestor(t, pl, genesis, c, w)
  }

  /** Moving the deeper of two blocks to its parent loses no common ancestor. */
  lemma CommonClimb(t: VoterTree, pl: map<Hash, nat>, genesis: seq<Hash>, v0: Hash, w0: Hash, v: Hash, w: Hash)
    requires Valid(t, pl, genesis) && v0 in t.level && w0 in t.level && v in t.level && w in t.level
    requires SameCommon(t, pl, genesis, v0, w0, v, w)
    requires v in t.parent && t.level[w] <= t.level[v] && v != w
    ensures t.parent[v] in t.level && SameCommon(t, pl, genesis, v0, w0, t.parent[v], w)
  {
    assert ChildOk(t, pl, v);
    forall c | IsAncestor(t, pl, genesis, c, v0) && IsAncestor(t, pl, genesis, c, w0)
      ensures IsAncestor(t, pl, genesis, c, t.parent[v])
    {
      if c == v {
        AncestorFacts(t, pl, genesis, c, w);
      }
    }
  }

  /** Two voter blocks of one chain at level 0 are the same block, so a climb never passes genesis. */
  lemma HasParent(t: VoterTree, pl: map<Hash, nat>, genesis: seq<Hash>, v: Hash)
    requires Valid(t, pl, genesis) && v in t.level
    ensures t.level[v] == 0 <==> v !in t.parent
    ensures v !in t.parent ==> t.chain[v] < |genesis| && v == genesis[t.chain[v]]
    ensures v in t.parent ==>
              && t.parent[v] in t.level && t.level[v] == t.level[t.parent[v]] + 1
              && t.chain[v] == t.chain[t.parent[v]]
  {
    if v in t.parent {
      assert ChildOk(t, pl, v);
    } else {
      assert GenesisOk(t, pl, genesis[t.chain[v]], t.chain[v]);
    }
  }

  lemma LowestIsUnique(t: VoterTree, pl: map<Hash, nat>, genesis: seq<Hash>, a: Hash, b: Hash, v: Hash, w: Hash)
    requires Valid(t, pl, genesis) && v in t.level && w in t.level
    requires IsLowestCommonAncestor(t, pl, genesis, a, v, w) && IsLowestCommonAncestor(t, pl, genesis, b, v, w)
    ensures a == b
  {
    hide Valid, IsAncestor;
    AncestorFacts(t, pl, genesis, a, v);
    AncestorFacts(t, pl, genesis, b, v);
    AncestorFacts(t, pl, genesis, a, b);
    AncestorFacts(t, pl, genesis, b, a);
  }

  /** Added and removed votes when the main chain moves from one block to another of the same chain. */
  method VoteDiff(t: VoterTree, ghost pl: map<Hash, nat>, ghost genesis: seq<Hash>, from0: Hash, to0: Hash)
    returns (added: seq<(Hash, nat)>, removed: seq<(Hash, nat)>, ghost lca: Hash)
    requires Valid(t, pl, genesis) && from0 in t.level && to0 in t.level && t.chain[from0] == t.chain[to0]
    ensures IsLowestCommonAncestor(t, pl, genesis, lca, from0, to0)
    ensures forall a :: IsLowestCommonAncestor(t, pl, genesis, a, from0, to0) ==>
              added == Segment(t, pl, genesis, to0, a) && removed == Segment(t, pl, genesis, from0, a)
  {
    var to, from := to0, from0;
    var toLevel, fromLevel := t.level[to], t.level[from];
    added, removed := [], [];
    while toLevel != fromLevel
      invariant to in t.level && from in t.level && toLevel == t.level[to] && fromLevel == t.level[from]
      invariant t.chain[to] == t.chain[from]
      invariant IsAncestor(t, pl, genesis, to, to0) && added == Segment(t, pl, genesis, to0, to)
      invariant IsAncestor(t, pl, genesis, from, from0) && removed == Segment(t, pl, genesis, from0, from)
      invariant SameCommon(t, pl, genesis, from0, to0, from, to)
      decreases toLevel + fromLevel
    {
      if toLevel > fromLevel {
        HasParent(t, pl, genesis, to);
        SegmentExtends(t, pl, genesis, to0, to);
        CommonClimb(t, pl, genesis, to0, from0, to, from);
        added := added + Tag(t.votes[to], toLevel);
        to := t.parent[to];
        toLevel := toLevel - 1;
      } else {
        HasParent(t, pl, genesis, from);
        SegmentExtends(t, pl, genesis, from0, from);
        CommonClimb(t, pl, genesis, from0, to0, from, to);
        removed := removed + Tag(t.votes[from], fromLevel);
        from := t.parent[from];
        fromLevel := fromLevel - 1;
      }
    }
    while to != from
      invariant to in t.level && from in t.level && toLevel == t.level[to] == t.level[from] == fromLevel
      invariant t.chain[to] == t.chain[from]
      invariant IsAncestor(t, pl, genesis, to, to0) && added == Segment(t, pl, genesis, to0, to)
      invariant IsAncestor(t, pl, genesis, from, from0) && removed == Segment(t, pl, genesis, from0, from)
      invariant SameCommon(t, pl, genesis, from0, to0, from, to)
      decreases toLevel
    {
      HasParent(t, pl, genesis, to);
      HasParent(t, pl, genesis, from);
      SegmentExtends(t, pl, genesis, to0, to);
      CommonClimb(t, pl, genesis, to0, from0, to, from);
      ghost var below := t.parent[to];
      added := added + Tag(t.votes[to], toLevel);
      to := t.parent[to];
      toLevel := toLevel - 1;

      SegmentExtends(t, pl, genesis, from0, from);
      CommonClimb(t, pl, genesis, from0, to0, from, below);
      removed := removed + Tag(t.votes[from], fromLevel);
      from := t.parent[from];
      fromLevel := fromLevel - 1;
    }
    lca := to;
    forall a | IsLowestCommonAncestor(t, pl, genesis, a, from0, to0) ensures a == lca {
      LowestIsUnique(t, pl, genesis, a, lca, from0, to0);
    }
  }
}
