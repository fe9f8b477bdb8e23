/** The three stages of `update_ledger`, each over the values it reads and writes: move the vote index to the
    new voter tips, re-elect the leaders of the affected levels, and rebuild the changed suffix. */
module LedgerUpdate {
  import opened Common
  import E = Election
  import L = Linearization
  import V = VoterTrees
  import opened VoteIndex
  import opened ChainInvariants
  import opened Leader

  /** An affected range of levels; `start` is `None` while no vote has changed. */
  datatype Range = Range(start: Option<nat>, end: nat) {
    predicate Has(l: nat) { start.Some? && start.value <= l < end }

    function Include(l: nat): Range {
      Range(if start.None? || l < start.value then Some(l) else start, if l >= end then l + 1 else end)
    }

    /** Empty, or a proper range within levels `1 ..= best`. */
    ghost predicate Within(best: nat) {
      if start.None? then end == 0 else 1 <= start.value < end <= best + 1
    }
  }

  // ---- stage 1: votes ----

  /** Every proposer block with queued operands lies on an affected level. */
  ghost predicate Covers(range: Range, batch: map<Hash, seq<VoteOp>>, pl: map<Hash, nat>) {
    forall p :: p in batch ==> p in pl && range.Has(pl[p])
  }

  /** The range is no wider than the blocks with queued operands make it. */
  ghost predicate Tight(range: Range, batch: map<Hash, seq<VoteOp>>, pl: map<Hash, nat>) {
    if range.start.None? then batch == map[]
    else
      && (exists p :: p in batch && p in pl && pl[p] == range.start.value)
      && (exists p :: p in batch && p in pl && pl[p] + 1 == range.end)
  }

  lemma TightGrows(range: Range, batch: map<Hash, seq<VoteOp>>, pl: map<Hash, nat>, p: Hash, op: VoteOp, best: nat)
    requires Tight(range, batch, pl) && range.Within(best) && p in pl
    ensures Tight(range.Include(pl[p]), Queue(batch, p, op), pl)
  {
    var more := Queue(batch, p, op);
    assert p in more && forall q :: q in batch ==> q in more;
  }

  ghost predicate VotesWithin(votes: seq<(Hash, nat)>, pl: map<Hash, nat>, best: nat) {
    forall i :: 0 <= i < |votes| ==> votes[i].0 in pl && 1 <= pl[votes[i].0] <= best
  }

  /** Queue one operand per vote, and widen the affected range by its proposer level. */
  method QueueVotes(batch0: map<Hash, seq<VoteOp>>, range0: Range, pl: map<Hash, nat>, ghost best: nat,
                    add: bool, chain: nat, votes: seq<(Hash, nat)>)
    returns (batch: map<Hash, seq<VoteOp>>, range: Range)
    requires VotesWithin(votes, pl, best) && range0.Within(best) && Covers(range0, batch0, pl)
    requires Tight(range0, batch0, pl)
    ensures batch == QueueAll(batch0, add, chain, votes)
    ensures range.Within(best) && Covers(range, batch, pl) && Tight(range, batch, pl)
  {
    hide Tight;
    batch, range := batch0, range0;
    for i := 0 to |votes|
      invariant batch == QueueAll(batch0, add, chain, votes[..i])
      invariant range.Within(best) && Covers(range, batch, pl) && Tight(range, batch, pl)
    {
      var vote := votes[i];
      assert votes[..i + 1][..i] == votes[..i];
      TightGrows(range, batch, pl, vote.0, VoteOp(add, chain, vote.1), best);
      batch := Queue(batch, vote.0, VoteOp(add, chain, vote.1));
      range := range.Include(pl[vote.0]);
    }
    assert votes[..|votes|] == votes;
  }

  lemma SegmentWithin(t: V.VoterTree, pl: map<Hash, nat>, genesis: seq<Hash>, v: Hash, a: Hash, best: nat)
    requires V.Valid(t, pl, genesis) && v in t.level && V.IsAncestor(t, pl, genesis, a, v)
    requires forall p :: p in pl ==> pl[p] <= best
    ensures VotesWithin(V.Segment(t, pl, genesis, v, a), pl, best)
  {
    V.SegmentSpread(t, pl, genesis, v, a);
  }

  lemma TipVotesMove(t: V.VoterTree, pl: map<Hash, nat>, genesis: seq<Hash>, tips: seq<Hash>, c: nat, to: Hash)
    requires V.Valid(t, pl, genesis) && TipsOk(tips, t) && c < |tips| && OnChain(t, to, c)
    ensures TipsOk(tips[c := to], t)
    ensures TipVotes(t, pl, genesis, tips[c := to])
              == TipVotes(t, pl, genesis, tips)[c := V.MainVotes(t, pl, genesis, to)]
    ensures OnChain(t, tips[c], c) && TipVotes(t, pl, genesis, tips)[c] == V.MainVotes(t, pl, genesis, tips[c])
  {
    assert OnChain(t, tips[c], c);
    var tips' := tips[c := to];
    forall k | 0 <= k < |tips'|
      ensures OnChain(t, tips'[k], k)
    {
      assert OnChain(t, tips[k], k);
    }
  }

  /** The votes for `p` differ, or may differ, between two blocks of a chain: it is voted above their lowest common
      ancestor on one side. */
  ghost predicate InDiff(t: V.VoterTree, pl: map<Hash, nat>, genesis: seq<Hash>, from: Hash, dest: Hash, p: Hash)
    requires V.Valid(t, pl, genesis) && from in t.level && dest in t.level
  {
    exists a :: V.IsLowestCommonAncestor(t, pl, genesis, a, from, dest) &&
                (VotedIn(V.Segment(t, pl, genesis, from, a), p) || VotedIn(V.Segment(t, pl, genesis, dest, a), p))
  }

  ghost predicate VotedIn(votes: seq<(Hash, nat)>, p: Hash) {
    exists i :: 0 <= i < |votes| && votes[i].0 == p
  }

  lemma {:induction false} QueueAllKeys(batch: map<Hash, seq<VoteOp>>, add: bool, c: nat, votes: seq<(Hash, nat)>,
                                        p: Hash)
    ensures p in QueueAll(batch, add, c, votes) <==> p in batch || VotedIn(votes, p)
  {
    if votes != [] {
      var k := |votes| - 1;
      QueueAllKeys(batch, add, c, votes[..k], p);
      if VotedIn(votes[..k], p) {
        var i :| 0 <= i < k && votes[..k][i].0 == p;
        assert votes[i].0 == p;
      }
      if VotedIn(votes, p) {
        var i :| 0 <= i < |votes| && votes[i].0 == p;
        if i < k { assert votes[..k][i].0 == p; }
      }
      assert VotedIn(votes, votes[k].0);
    }
  }

  /** One chain: diff the votes between its old tip and its best block, removals before additions. */
  method MoveChain(t: V.VoterTree, pl: map<Hash, nat>, ghost genesis: seq<Hash>, ghost best: nat,
                   ghost index: map<Hash, seq<Entry>>, batch0: map<Hash, seq<VoteOp>>, range0: Range,
                   tips: seq<Hash>, chain: nat, to: Hash)
    returns (batch: map<Hash, seq<VoteOp>>, range: Range)
    requires V.Valid(t, pl, genesis) && TipsOk(tips, t) && chain < |tips| && OnChain(t, to, chain)
    requires forall p :: p in pl ==> pl[p] <= best
    requires range0.Within(best) && Covers(range0, batch0, pl) && Tight(range0, batch0, pl)
    requires WillIndex(index, batch0, TipVotes(t, pl, genesis, tips))
    ensures range.Within(best) && Covers(range, batch, pl) && Tight(range, batch, pl)
    ensures tips[chain] in t.level
    ensures forall p :: p in batch <==> p in batch0 || InDiff(t, pl, genesis, tips[chain], to, p)
    ensures TipsOk(tips[chain := to], t)
    ensures WillIndex(index, batch, TipVotes(t, pl, genesis, tips[chain := to]))
  {
    hide V.Valid, TipsOk, WillIndex, QueueAll, V.Segment, V.MainVotes, TipVotes, Covers, VotesWithin, V.IsAncestor,
      Tight;
    hide InDiff, VotedIn;
    TipVotesMove(t, pl, genesis, tips, chain, to);
    var added, removed, lca := V.VoteDiff(t, pl, genesis, tips[chain], to);
    SegmentWithin(t, pl, genesis, tips[chain], lca, best);
    SegmentWithin(t, pl, genesis, to, lca, best);
    batch, range := QueueVotes(batch0, range0, pl, best, false, chain, removed);
    batch, range := QueueVotes(batch, range, pl, best, true, chain, added);
    VoteDiffMovesIndex(t, pl, genesis, tips[chain], to, lca, index, batch0, TipVotes(t, pl, genesis, tips), chain);
    forall p ensures p in batch <==> p in batch0 || InDiff(t, pl, genesis, tips[chain], to, p) {
      QueueAllKeys(batch0, false, chain, removed, p);
      QueueAllKeys(QueueAll(batch0, false, chain, removed), true, chain, added, p);
      InDiffBySegments(t, pl, genesis, tips[chain], to, lca, p);
    }
  }

  lemma InDiffBySegments(t: V.VoterTree, pl: map<Hash, nat>, genesis: seq<Hash>, from: Hash, dest: Hash, a: Hash,
                         p: Hash)
    requires V.Valid(t, pl, genesis) && from in t.level && dest in t.level
    requires V.IsLowestCommonAncestor(t, pl, genesis, a, from, dest)
    ensures InDiff(t, pl, genesis, from, dest, p) <==>
              VotedIn(V.Segment(t, pl, genesis, from, a), p) || VotedIn(V.Segment(t, pl, genesis, dest, a), p)
  {
    hide V.Valid, VotedIn, V.Segment, V.IsAncestor;
    if InDiff(t, pl, genesis, from, dest, p) {
      var b :| V.IsLowestCommonAncestor(t, pl, genesis, b, from, dest) &&
               (VotedIn(V.Segment(t, pl, genesis, from, b), p) || VotedIn(V.Segment(t, pl, genesis, dest, b), p));
      V.LowestIsUnique(t, pl, genesis, a, b, from, dest);
    }
  }

  /** Merge every queued operand into the index. */
  function Commit(index: map<Hash, seq<Entry>>, batch: map<Hash, seq<VoteOp>>): map<Hash, seq<Entry>> {
    map p | p in index.Keys + batch.Keys :: Merged(index, batch, p)
  }

  lemma CommitIndexes(index: map<Hash, seq<Entry>>, batch: map<Hash, seq<VoteOp>>, w: seq<map<Hash, nat>>)
    requires WillIndex(index, batch, w)
    ensures Indexed(Commit(index, batch), w)
    ensures forall p :: p !in batch ==> Entries(Commit(index, batch), p) == Entries(index, p)
  {
    hide Exact, Column;
    forall p: Hash
      ensures Entries(Commit(index, batch), p) == Merged(index, batch, p)
    {
    }
    forall p: Hash
      ensures Exact(Entries(Commit(index, batch), p), Column(w, p))
    {
      assert Exact(Merged(index, batch, p), Column(w, p));
    }
  }

  function BestTips(best: seq<(Hash, nat)>): (r: seq<Hash>)
    ensures |r| == |best| && forall c :: 0 <= c < |best| ==> r[c] == best[c].0
  {
    seq(|best|, c requires 0 <= c < |best| => best[c].0)
  }

  /** Stage 1: every chain moves to its best block; levels outside the range keep their votes. */
  method MoveVotes(t: V.VoterTree, pl: map<Hash, nat>, ghost genesis: seq<Hash>, ghost bestLevel: nat,
                   index: map<Hash, seq<Entry>>, tips0: seq<Hash>, best: seq<(Hash, nat)>)
    returns (index': map<Hash, seq<Entry>>, tips: seq<Hash>, range: Range)
    requires V.Valid(t, pl, genesis) && TipsOk(tips0, t) && BestOk(best, t) && |best| == |tips0|
    requires forall p :: p in pl ==> pl[p] <= bestLevel
    requires Indexed(index, TipVotes(t, pl, genesis, tips0))
    ensures tips == BestTips(best) && TipsOk(tips, t)
    ensures Indexed(index', TipVotes(t, pl, genesis, tips))
    ensures range.Within(bestLevel)
    ensures forall p :: p in pl && !range.Has(pl[p]) ==> Entries(index', p) == Entries(index, p)
    ensures forall c :: 0 <= c < |best| ==> tips0[c] in t.level && best[c].0 in t.level
    ensures Spans(t, pl, genesis, tips0, tips, range)
  {
    hide V.Valid, WillIndex, TipVotes, Covers, Indexed, Tight, InDiff;
    var batch: map<Hash, seq<VoteOp>> := map[];
    tips, range := tips0, Range(None, 0);
    NothingQueued(index, TipVotes(t, pl, genesis, tips0), range, pl);
    for chain := 0 to |best|
      invariant |tips| == |best| && TipsOk(tips, t)
      invariant forall c :: 0 <= c < chain ==> tips[c] == best[c].0
      invariant forall c :: chain <= c < |best| ==> tips[c] == tips0[c]
      invariant forall c :: 0 <= c < |best| ==> tips0[c] in t.level && best[c].0 in t.level
      invariant range.Within(bestLevel) && Covers(range, batch, pl) && Tight(range, batch, pl)
      invariant forall p :: p in batch <==>
                  exists c :: 0 <= c < chain && InDiff(t, pl, genesis, tips0[c], best[c].0, p)
      invariant WillIndex(index, batch, TipVotes(t, pl, genesis, tips))
    {
      batch, range := MoveChain(t, pl, genesis, bestLevel, index, batch, range, tips, chain, best[chain].0);
      tips := tips[chain := best[chain].0];
    }
    TightSpans(t, pl, genesis, tips0, tips, batch, range);
    assert tips == BestTips(best);
    index' := Commit(index, batch);
    CommitIndexes(index, batch, TipVotes(t, pl, genesis, tips));
    Outside(range, batch, pl);
  }

  /** The range runs from the lowest to the highest proposer level that any chain's diff votes on. */
  ghost predicate Spans(t: V.VoterTree, pl: map<Hash, nat>, genesis: seq<Hash>, tips0: seq<Hash>, tips: seq<Hash>,
                        range: Range)
    requires V.Valid(t, pl, genesis) && |tips0| == |tips|
    requires forall c :: 0 <= c < |tips| ==> tips0[c] in t.level && tips[c] in t.level
  {
    && (forall c, p :: 0 <= c < |tips| && InDiff(t, pl, genesis, tips0[c], tips[c], p) ==> p in pl && range.Has(pl[p]))
    && (range.start.Some? ==>
          && (exists c, p :: 0 <= c < |tips| && InDiff(t, pl, genesis, tips0[c], tips[c], p) && p in pl
                             && pl[p] == range.start.value)
          && (exists c, p :: 0 <= c < |tips| && InDiff(t, pl, genesis, tips0[c], tips[c], p) && p in pl
                             && pl[p] + 1 == range.end))
  }

  lemma TightSpans(t: V.VoterTree, pl: map<Hash, nat>, genesis: seq<Hash>, tips0: seq<Hash>, tips: seq<Hash>,
                   batch: map<Hash, seq<VoteOp>>, range: Range)
    requires V.Valid(t, pl, genesis) && |tips0| == |tips|
    requires forall c :: 0 <= c < |tips| ==> tips0[c] in t.level && tips[c] in t.level
    requires Covers(range, batch, pl) && Tight(range, batch, pl)
    requires forall p :: p in batch <==> exists c :: 0 <= c < |tips| && InDiff(t, pl, genesis, tips0[c], tips[c], p)
    ensures Spans(t, pl, genesis, tips0, tips, range)
  {
    hide V.Valid, InDiff;
    if range.start.Some? {
      var p :| p in batch && p in pl && pl[p] == range.start.value;
      var c :| 0 <= c < |tips| && InDiff(t, pl, genesis, tips0[c], tips[c], p);
      var q :| q in batch && q in pl && pl[q] + 1 == range.end;
      var d :| 0 <= d < |tips| && InDiff(t, pl, genesis, tips0[d], tips[d], q);
    }
  }

  lemma NothingQueued(index: map<Hash, seq<Entry>>, w: seq<map<Hash, nat>>, range: Range, pl: map<Hash, nat>)
    requires Indexed(index, w)
    ensures WillIndex(index, map[], w) && Covers(range, map[], pl) && (range.start.None? ==> Tight(range, map[], pl))
  {
    forall p: Hash
      ensures Exact(Merged(index, map[], p), Column(w, p))
    {
      assert Exact(Entries(index, p), Column(w, p));
    }
  }

  lemma Outside(range: Range, batch: map<Hash, seq<VoteOp>>, pl: map<Hash, nat>)
    requires Covers(range, batch, pl)
    ensures forall p :: p in pl && !range.Has(pl[p]) ==> p !in batch
  {
  }

  // ---- stage 2: leaders ----

  function LeaderAt(leaders: map<nat, Hash>, l: nat): Option<Hash> {
    if l in leaders then Some(leaders[l]) else None
  }

  /** The votes `index` as the election of a level sees them. */
  datatype Votes = Votes(bound: VoteBound, chains: nat, tree: map<nat, seq<Hash>>, index: map<Hash, seq<Entry>>,
                         counts: map<(nat, nat), nat>, best: seq<(Hash, nat)>)

  ghost predicate Electable(v: Votes, d: L.Dag, bestLevel: nat) {
    && Sound(v.bound) && Reachable(v.index, v.counts, v.best)
    && TreeOk(v.tree, d.level, bestLevel)
    && forall l :: l in v.tree ==> TotalVotes(v.index, v.tree[l]) <= v.chains
  }

  /** The leader a level gets: deconfirming is judged less strictly than confirming. */
  ghost predicate Reelected(v: Votes, l: nat, existing: Option<Hash>, r: Option<Hash>) {
    l in v.tree && Elected(v.bound, v.chains, v.tree[l], v.index, v.counts, v.best, existing.None?, r)
  }

  /** Elections for `start <= l < end` replace the stored leaders; other levels keep theirs. */
  ghost predicate Updated(v: Votes, leaders0: map<nat, Hash>, leaders: map<nat, Hash>, start: nat, end: nat) {
    forall l: nat ::
      if start <= l < end then Reelected(v, l, LeaderAt(leaders0, l), LeaderAt(leaders, l))
      else LeaderAt(leaders, l) == LeaderAt(leaders0, l)
  }

  /** `change` is the first level whose leader differs. */
  ghost predicate FirstChange(leaders0: map<nat, Hash>, leaders: map<nat, Hash>, change: Option<nat>) {
    if change.None? then forall l: nat :: LeaderAt(leaders, l) == LeaderAt(leaders0, l)
    else
      && LeaderAt(leaders, change.value) != LeaderAt(leaders0, change.value)
      && forall l: nat :: l < change.value ==> LeaderAt(leaders, l) == LeaderAt(leaders0, l)
  }

  /** Confirming takes more than keeping: the confirming quantile gives the lower bound. */
  ghost predicate Cautious(bound: VoteBound) {
    forall depths, mined, total :: bound(depths, mined, total, true) <= bound(depths, mined, total, false)
  }

  /** A level whose leader would be elected afresh keeps or gets that leader, whatever it had before. */
  lemma FreshLeaderStays(v: Votes, l: nat, existing: Option<Hash>, r: Option<Hash>, b: Hash)
    requires Cautious(v.bound) && Reelected(v, l, existing, r) && Reelected(v, l, None, Some(b))
    ensures r == Some(b)
  {
    hide TotalVotes, Quorum, Depths, MinedOnLevel;
    var blocks := v.tree[l];
    var low := Bounds(v.bound, blocks, v.index, v.counts, v.best, true);
    var high := Bounds(v.bound, blocks, v.index, v.counts, v.best, false);
    assert forall p :: p in blocks ==> low[p] <= high[p];
    if existing.Some? {
      assert E.Robust(blocks, low, v.chains as real, b);
      E.RobustGrows(blocks, low, high, v.chains as real, b);
      assert r == Some(b);
    }
  }

  lemma LevelReady(v: Votes, d: L.Dag, bestLevel: nat, l: nat)
    requires Electable(v, d, bestLevel) && l in v.tree
    ensures Sound(v.bound) && Reachable(v.index, v.counts, v.best) && NoDup(v.tree[l])
    ensures TotalVotes(v.index, v.tree[l]) <= v.chains
  {
  }

  /** One level of stage 2. */
  method ReelectLevel(v: Votes, ghost d: L.Dag, ghost bestLevel: nat, leaders0: map<nat, Hash>, l: nat)
    returns (leaders: map<nat, Hash>)
    requires L.Valid(d) && Electable(v, d, bestLevel) && LeadersOk(d, leaders0) && l in v.tree
    ensures LeadersOk(d, leaders)
    ensures Reelected(v, l, LeaderAt(leaders0, l), LeaderAt(leaders, l))
    ensures forall k: nat :: k != l ==> LeaderAt(leaders, k) == LeaderAt(leaders0, k)
  {
    hide Elected, Electable, L.Valid;
    LevelReady(v, d, bestLevel, l);
    var existing := LeaderAt(leaders0, l);
    var blocks := v.tree[l];
    var confirm := ProposerLeader(v.bound, v.chains, blocks, v.index, v.counts, v.best, true);
    var deconfirm := ProposerLeader(v.bound, v.chains, blocks, v.index, v.counts, v.best, false);
    var new' := if existing.Some? then deconfirm else confirm;
    ElectedLevel(v, d, bestLevel, l, existing, new');
    leaders := leaders0;
    if new' != existing {
      leaders := match new' case None => leaders0 - {l} case Some(h) => leaders0[l := h];
    }
  }

  lemma ElectedLevel(v: Votes, d: L.Dag, bestLevel: nat, l: nat, existing: Option<Hash>, r: Option<Hash>)
    requires L.Valid(d) && Electable(v, d, bestLevel) && Reelected(v, l, existing, r)
    ensures r.Some? ==> r.value in d.refs && r.value in d.level && d.level[r.value] == l
  {
    if r.Some? {
      assert r.value in v.tree[l];
    }
  }

  /** Stage 2: recompute the leader of every affected level, from no later than the level above the tip. */
  method RecomputeLeaders(v: Votes, ghost d: L.Dag, ghost bestLevel: nat, leaders0: map<nat, Hash>, tip: nat,
                          range: Range)
    returns (leaders: map<nat, Hash>, change: Option<nat>)
    requires L.Valid(d) && Electable(v, d, bestLevel) && LeadersOk(d, leaders0) && range.Within(bestLevel)
    ensures LeadersOk(d, leaders)
    ensures range.start.None? ==> leaders == leaders0
    ensures range.start.Some? ==> Updated(v, leaders0, leaders, Min(range.start.value, tip + 1), range.end)
    ensures FirstChange(leaders0, leaders, change)
    ensures change.Some? ==> change.value >= 1
  {
    hide Electable, L.Valid, LeadersOk, Elected;
    leaders, change := leaders0, None;
    if range.start.Some? {
      var start := Min(range.start.value, tip + 1);
      for level := start to range.end
        invariant LeadersOk(d, leaders)
        invariant Updated(v, leaders0, leaders, start, level)
        invariant FirstChange(leaders0, leaders, change)
        invariant change.Some? ==> start <= change.value < level
      {
        LevelExists(v, d, bestLevel, level);
        var next := ReelectLevel(v, d, bestLevel, leaders, level);
        if LeaderAt(next, level) != LeaderAt(leaders, level) && change.None? {
          change := Some(level);
        }
        leaders := next;
      }
    }
  }

  lemma LevelExists(v: Votes, d: L.Dag, bestLevel: nat, l: nat)
    requires Electable(v, d, bestLevel) && l <= bestLevel
    ensures l in v.tree
  {
  }

  function Min(a: nat, b: nat): nat {
    if a < b then a else b
  }

  // ---- stage 3: ledger ----

  lemma LeadersAgree(leaders0: map<nat, Hash>, leaders: map<nat, Hash>, n: nat)
    requires forall l: nat :: l < n ==> LeaderAt(leaders, l) == LeaderAt(leaders0, l)
    ensures forall l: nat :: l < n ==> (l in leaders <==> l in leaders0) && (l in leaders ==> leaders[l] == leaders0[l])
  {
    forall l: nat | l < n
      ensures (l in leaders <==> l in leaders0) && (l in leaders ==> leaders[l] == leaders0[l])
    {
      assert LeaderAt(leaders, l) == LeaderAt(leaders0, l);
    }
  }

  /** Deconfirm the levels from `change` to the old tip, lowest first. */
  method Deconfirm(order0: map<nat, seq<Hash>>, unconfirmed0: set<Hash>, ghost ledger: seq<seq<Hash>>, change: nat,
                   tip: nat)
    returns (order: map<nat, seq<Hash>>, unconfirmed: set<Hash>, removed: seq<Hash>)
    requires Stored(order0, ledger) && change <= |ledger| == tip + 1
    ensures Stored(order, ledger[..change])
    ensures removed == Flatten(ledger[change..])
    ensures unconfirmed == unconfirmed0 + Elems(removed)
  {
    order, unconfirmed, removed := order0, unconfirmed0, [];
    var level := change;
    while level <= tip
      invariant change <= level <= |ledger|
      invariant forall l: nat :: l in order <==> l < change || level <= l < |ledger|
      invariant forall l: nat :: l in order ==> order[l] == ledger[l]
      invariant removed == Flatten(ledger[change..level])
      invariant unconfirmed == unconfirmed0 + Elems(removed)
    {
      var list := order[level];
      order := order - {level};
      assert ledger[change..level + 1] == ledger[change..level] + [list];
      FlattenSnoc(ledger[change..level], list);
      unconfirmed := unconfirmed + Elems(list);
      removed := removed + list;
      level := level + 1;
    }
    assert ledger[change..level] == ledger[change..];
  }

  lemma FlattenSnoc(a: seq<seq<Hash>>, s: seq<Hash>)
    ensures Flatten(a + [s]) == Flatten(a) + s
  {
    assert (a + [s])[..|a|] == a;
  }

  ghost function Above(leaders: map<nat, Hash>, n: nat): set<nat> {
    set l | l in leaders && l >= n
  }

  /** Rebuild level by level until the first level without a leader, which ends the ledger. */
  method Rebuild(d: L.Dag, leaders: map<nat, Hash>, order0: map<nat, seq<Hash>>, unconfirmed0: set<Hash>, change: nat)
    returns (order: map<nat, seq<Hash>>, unconfirmed: set<Hash>, tip: nat, added: seq<Hash>)
    requires L.Valid(d) && RunOk(d, leaders, order0, change, unconfirmed0) && change >= 1
    ensures LedgerOk(d, leaders, order, tip, unconfirmed) && tip + 1 >= change
    ensures Flatten(Scratch(d, leaders, tip + 1)) == Flatten(Scratch(d, leaders, change)) + added
  {
    hide L.Valid, L.Visit, Scratch, Stored;
    order, unconfirmed, added := order0, unconfirmed0, [];
    var level := change;
    while level in leaders
      invariant level >= change
      invariant RunOk(d, leaders, order, level, unconfirmed)
      invariant Flatten(Scratch(d, leaders, level)) == Flatten(Scratch(d, leaders, change)) + added
      decreases Above(leaders, level)
    {
      RunCloses(d, leaders, order, level, unconfirmed);
      assert leaders[level] in d.refs;
      var list, rest := L.OrderLevel(d, leaders[level], unconfirmed);
      RunStep(d, leaders, order, level, unconfirmed, list);
      order, unconfirmed := order[level := list], rest;
      added := added + list;
      assert level in Above(leaders, level) && level !in Above(leaders, level + 1);
      level := level + 1;
    }
    tip := level - 1;
  }

  /** Stage 3: if the first changed level touches the ledger, cut it there and rebuild. */
  method RebuildLedger(d: L.Dag, ghost leaders0: map<nat, Hash>, leaders: map<nat, Hash>, order0: map<nat, seq<Hash>>,
                       tip0: nat, unconfirmed0: set<Hash>, change: nat)
    returns (order: map<nat, seq<Hash>>, unconfirmed: set<Hash>, tip: nat, added: seq<Hash>, removed: seq<Hash>)
    requires L.Valid(d) && LedgerOk(d, leaders0, order0, tip0, unconfirmed0) && LeadersOk(d, leaders)
    requires FirstChange(leaders0, leaders, Some(change)) && change >= 1
    ensures LedgerOk(d, leaders, order, tip, unconfirmed)
    ensures exists kept ::
              && Flatten(Scratch(d, leaders0, tip0 + 1)) == kept + removed
              && Flatten(Scratch(d, leaders, tip + 1)) == kept + added
  {
    hide L.Valid, Scratch, LeadersOk, Stored;
    order, unconfirmed, tip, added, removed := order0, unconfirmed0, tip0, [], [];
    LeadersAgree(leaders0, leaders, change);
    hide LeaderAt;
    if change <= tip0 + 1 {
      ghost var ledger := Scratch(d, leaders0, tip0 + 1);
      RunCut(d, leaders0, order0, tip0 + 1, unconfirmed0, change);
      order, unconfirmed, removed := Deconfirm(order0, unconfirmed0, ledger, change, tip0);
      ScratchFrame(d, leaders0, leaders, change);
      order, unconfirmed, tip, added := Rebuild(d, leaders, order, unconfirmed, change);
    } else {
      ScratchFrame(d, leaders0, leaders, tip0 + 1);
      assert Flatten(Scratch(d, leaders, tip + 1)) + [] == Flatten(Scratch(d, leaders, tip + 1));
    }
  }
}
