/** The main-chain votes stored with each proposer block, and the merge operator that edits them. */
module VoteIndex {
  import opened Common
  import opened VoterTrees

  /** A stored vote: chain number and level of the voter block. */
  type Entry = (nat, nat)

  datatype VoteOp = VoteOp(add: bool, chain: nat, level: nat)

  function Entries(index: map<Hash, seq<Entry>>, p: Hash): seq<Entry> {
    if p in index then index[p] else []
  }

  /** `existing.iter().position(|x| x.0 == chain)`, or the length when there is none. */
  function Position(s: seq<Entry>, chain: nat): (k: nat)
    ensures k <= |s|
    ensures k < |s| ==> s[k].0 == chain
    ensures forall i :: 0 <= i < k ==> s[i].0 != chain
  {
    if s == [] then 0 else if s[0].0 == chain then 0 else 1 + Position(s[1..], chain)
  }

  function SwapRemove(s: seq<Entry>, k: nat): seq<Entry>
    requires k < |s|
  {
    s[k := s[|s| - 1]][..|s| - 1]
  }

  /** One operand: an addition skips an entry already there, a removal drops the first entry of the chain
      whatever its level. */
  function MergeOne(s: seq<Entry>, op: VoteOp): seq<Entry> {
    if op.add then
      if (op.chain, op.level) in s then s else s + [(op.chain, op.level)]
    else
      var k := Position(s, op.chain);
      if k < |s| then SwapRemove(s, k) else s
  }

  function MergeAll(s: seq<Entry>, ops: seq<VoteOp>): seq<Entry> {
    if ops == [] then s else MergeOne(MergeAll(s, ops[..|ops| - 1]), ops[|ops| - 1])
  }

  /** The merge operator: fold the operands, oldest first, into the stored value. */
  method VoteVecMerge(existing: Option<seq<Entry>>, operands: seq<VoteOp>) returns (r: seq<Entry>)
    ensures r == MergeAll(if existing.Some? then existing.value else [], operands)
  {
    r := if existing.Some? then existing.value else [];
    ghost var s := r;
    for i := 0 to |operands|
      invariant r == MergeAll(s, operands[..i])
    {
      var op := operands[i];
      assert operands[..i + 1][..i] == operands[..i];
      if op.add {
        if (op.chain, op.level) !in r {
          r := r + [(op.chain, op.level)];
        }
      } else {
        var k := Position(r, op.chain);
        if k < |r| {
          r := SwapRemove(r, k);
        }
      }
    }
    assert operands[..|operands|] == operands;
  }

  /** The operands a write batch holds for a key. */
  function Queued(batch: map<Hash, seq<VoteOp>>, p: Hash): seq<VoteOp> {
    if p in batch then batch[p] else []
  }

  function Queue(batch: map<Hash, seq<VoteOp>>, p: Hash, op: VoteOp): map<Hash, seq<VoteOp>> {
    batch[p := Queued(batch, p) + [op]]
  }

  /** The value of a key once its queued operands are merged in. */
  function Merged(index: map<Hash, seq<Entry>>, batch: map<Hash, seq<VoteOp>>, p: Hash): seq<Entry> {
    MergeAll(Entries(index, p), Queued(batch, p))
  }

  lemma QueueIsMerge(index: map<Hash, seq<Entry>>, batch: map<Hash, seq<VoteOp>>, p: Hash, op: VoteOp, q: Hash)
    ensures Merged(index, Queue(batch, p, op), q) ==
            if q == p then MergeOne(Merged(index, batch, p), op) else Merged(index, batch, q)
  {
    var ops := Queued(batch, p);
    assert (ops + [op])[..|ops|] == ops;
  }

  // ---- what the index means ----

  /** `s` holds, without repetition, exactly the pairs of `f`. */
  ghost predicate Exact(s: seq<Entry>, f: map<nat, nat>) {
    && NoDup(s)
    && forall e :: e in s <==> e.0 in f && f[e.0] == e.1
  }

  /** The chains that vote for `p`, with the level of their vote. */
  ghost function Column(w: seq<map<Hash, nat>>, p: Hash): map<nat, nat> {
    map c | 0 <= c < |w| && p in w[c] :: w[c][p]
  }

  /** The index stores exactly the main-chain votes `w` of all chains. */
  ghost predicate Indexed(index: map<Hash, seq<Entry>>, w: seq<map<Hash, nat>>) {
    forall p :: Exact(Entries(index, p), Column(w, p))
  }

  /** The same once `batch` is committed. */
  ghost predicate WillIndex(index: map<Hash, seq<Entry>>, batch: map<Hash, seq<VoteOp>>, w: seq<map<Hash, nat>>) {
    forall p :: Exact(Merged(index, batch, p), Column(w, p))
  }

  lemma ExactAdd(s: seq<Entry>, f: map<nat, nat>, chain: nat, level: nat)
    requires Exact(s, f) && chain !in f
    ensures Exact(MergeOne(s, VoteOp(true, chain, level)), f[chain := level])
  {
  }

  lemma ExactRemove(s: seq<Entry>, f: map<nat, nat>, chain: nat, level: nat)
    requires Exact(s, f) && chain in f
    ensures Exact(MergeOne(s, VoteOp(false, chain, level)), f - {chain})
  {
    var k := Position(s, chain);
    assert (chain, f[chain]) in s;
    var r := SwapRemove(s, k);
    var last := |s| - 1;
    forall i | 0 <= i < last
      ensures r[i] == if i == k then s[last] else s[i]
    {
    }
    forall e | e in s && e.0 != chain
      ensures e in r
    {
      var i :| 0 <= i < |s| && s[i] == e;
      if i == last { assert r[k] == e; } else { assert r[i] == e; }
    }
  }

  function Put(m: map<Hash, nat>, p: Hash, level: nat): map<Hash, nat> {
    m[p := level]
  }

  lemma ColumnAdd(w: seq<map<Hash, nat>>, c: nat, p: Hash, level: nat, q: Hash)
    requires c < |w|
    ensures Column(w[c := Put(w[c], p, level)], q) == if q == p then Column(w, p)[c := level] else Column(w, q)
  {
  }

  lemma ColumnRemove(w: seq<map<Hash, nat>>, c: nat, p: Hash, q: Hash)
    requires c < |w|
    ensures Column(w[c := w[c] - {p}], q) == if q == p then Column(w, p) - {c} else Column(w, q)
  {
  }

  lemma QueueAdd(index: map<Hash, seq<Entry>>, batch: map<Hash, seq<VoteOp>>, w: seq<map<Hash, nat>>, c: nat, p: Hash,
                 level: nat)
    requires WillIndex(index, batch, w) && c < |w| && p !in w[c]
    ensures WillIndex(index, Queue(batch, p, VoteOp(true, c, level)), w[c := Put(w[c], p, level)])
  {
    var op := VoteOp(true, c, level);
    var w' := w[c := Put(w[c], p, level)];
    forall q
      ensures Exact(Merged(index, Queue(batch, p, op), q), Column(w', q))
    {
      QueueIsMerge(index, batch, p, op, q);
      assert Exact(Merged(index, batch, q), Column(w, q));
      if q == p {
        ExactAdd(Merged(index, batch, p), Column(w, p), c, level);
      }
      ColumnAdd(w, c, p, level, q);
    }
  }

  lemma QueueRemove(index: map<Hash, seq<Entry>>, batch: map<Hash, seq<VoteOp>>, w: seq<map<Hash, nat>>, c: nat,
                    p: Hash, level: nat)
    requires WillIndex(index, batch, w) && c < |w| && p in w[c]
    ensures WillIndex(index, Queue(batch, p, VoteOp(false, c, level)), w[c := w[c] - {p}])
  {
    var op := VoteOp(false, c, level);
    var w' := w[c := w[c] - {p}];
    forall q
      ensures Exact(Merged(index, Queue(batch, p, op), q), Column(w', q))
    {
      QueueIsMerge(index, batch, p, op, q);
      assert Exact(Merged(index, batch, q), Column(w, q));
      if q == p {
        ExactRemove(Merged(index, batch, p), Column(w, p), c, level);
      }
      ColumnRemove(w, c, p, q);
    }
  }

  // ---- applying a vote diff ----

  /** The batch after queueing one operand per vote, in list order. */
  ghost function QueueAll(batch: map<Hash, seq<VoteOp>>, add: bool, c: nat,
                          votes: seq<(Hash, nat)>): map<Hash, seq<VoteOp>> {
    if votes == [] then batch else
      var k := |votes| - 1;
      Queue(QueueAll(batch, add, c, votes[..k]), votes[k].0, VoteOp(add, c, votes[k].1))
  }

  lemma {:induction false} QueueRemovals(index: map<Hash, seq<Entry>>, batch: map<Hash, seq<VoteOp>>,
                                         w: seq<map<Hash, nat>>,
                                         c: nat, votes: seq<(Hash, nat)>)
    requires WillIndex(index, batch, w) && c < |w|
    requires DistinctProposers(votes) && forall i :: 0 <= i < |votes| ==> votes[i].0 in w[c]
    ensures WillIndex(index, QueueAll(batch, false, c, votes), w[c := w[c] - AsMap(votes).Keys])
  {
    hide WillIndex, Queue;
    if votes == [] {
      assert w[c] - AsMap(votes).Keys == w[c];
      assert w[c := w[c] - AsMap(votes).Keys] == w;
    } else {
      var k := |votes| - 1;
      var before := votes[..k];
      QueueRemovals(index, batch, w, c, before);
      var b', w' := QueueAll(batch, false, c, before), w[c := w[c] - AsMap(before).Keys];
      var p, l := votes[k].0, votes[k].1;
      AsMapKeys(before, p);
      QueueRemove(index, b', w', c, p, l);
      assert w'[c] - {p} == w[c] - AsMap(votes).Keys;
      assert w'[c := w'[c] - {p}] == w[c := w'[c] - {p}];
    }
  }

  lemma {:induction false} QueueAdditions(index: map<Hash, seq<Entry>>, batch: map<Hash, seq<VoteOp>>,
                                          w: seq<map<Hash, nat>>,
                                          c: nat, votes: seq<(Hash, nat)>)
    requires WillIndex(index, batch, w) && c < |w|
    requires DistinctProposers(votes) && forall i :: 0 <= i < |votes| ==> votes[i].0 !in w[c]
    ensures WillIndex(index, QueueAll(batch, true, c, votes), w[c := w[c] + AsMap(votes)])
  {
    hide WillIndex, Queue;
    if votes == [] {
      assert w[c] + AsMap(votes) == w[c];
      assert w[c := w[c] + AsMap(votes)] == w;
    } else {
      var k := |votes| - 1;
      var before := votes[..k];
      QueueAdditions(index, batch, w, c, before);
      var b', w' := QueueAll(batch, true, c, before), w[c := w[c] + AsMap(before)];
      var p, l := votes[k].0, votes[k].1;
      AsMapKeys(before, p);
      QueueAdd(index, b', w', c, p, l);
      assert Put(w'[c], p, l) == w[c] + AsMap(votes);
      assert w'[c := Put(w'[c], p, l)] == w[c := Put(w'[c], p, l)];
    }
  }

  /** Queueing the removals and then the additions of a vote diff turns the index of `from` into that of
      `to`, also when both forks vote for the same proposer block. */
  lemma VoteDiffMovesIndex(t: VoterTree, pl: map<Hash, nat>, genesis: seq<Hash>, from: Hash, to: Hash, lca: Hash,
                           index: map<Hash, seq<Entry>>, batch: map<Hash, seq<VoteOp>>, w: seq<map<Hash, nat>>, c: nat)
    requires Valid(t, pl, genesis) && from in t.level && to in t.level
    requires IsLowestCommonAncestor(t, pl, genesis, lca, from, to)
    requires WillIndex(index, batch, w) && c < |w| && w[c] == MainVotes(t, pl, genesis, from)
    ensures
      var removed, added := Segment(t, pl, genesis, from, lca), Segment(t, pl, genesis, to, lca);
      WillIndex(index, QueueAll(QueueAll(batch, false, c, removed), true, c, added),
                w[c := MainVotes(t, pl, genesis, to)])
  {
    var removed, added := Segment(t, pl, genesis, from, lca), Segment(t, pl, genesis, to, lca);
    SegmentSpread(t, pl, genesis, from, lca);
    SegmentSpread(t, pl, genesis, to, lca);
    SegmentSplits(t, pl, genesis, from, lca);
    SegmentSplits(t, pl, genesis, to, lca);
    MainVotesOnePerLevel(t, pl, genesis, lca);
    var base := MainVotes(t, pl, genesis, lca);
    BothSides(base, removed, added, pl, t.voted[lca], t.voted[from], t.voted[to]);
    QueueRemovals(index, batch, w, c, removed);
    assert w[c] - AsMap(removed).Keys == base;
    QueueAdditions(index, QueueAll(batch, false, c, removed), w[c := base], c, added);
    assert w[c := base][c := base + AsMap(added)] == w[c := MainVotes(t, pl, genesis, to)];
  }

  lemma BothSides(base: map<Hash, nat>, removed: seq<(Hash, nat)>, added: seq<(Hash, nat)>, pl: map<Hash, nat>,
                  lo: nat, hi: nat, hi': nat)
    requires Spread(removed, pl, lo, hi) && Spread(added, pl, lo, hi')
    requires forall p :: p in base ==> p in pl && pl[p] <= lo
    ensures forall i :: 0 <= i < |removed| ==> removed[i].0 in base + AsMap(removed)
    ensures base + AsMap(removed) - AsMap(removed).Keys == base
    ensures forall i :: 0 <= i < |added| ==> added[i].0 !in base
  {
    forall i | 0 <= i < |removed|
      ensures removed[i].0 in AsMap(removed)
    {
      AsMapKeys(removed, removed[i].0);
    }
    forall p | p in base
      ensures p !in AsMap(removed)
    {
      AsMapKeys(removed, p);
    }
  }

  // ---- counting the votes of a level ----

  lemma {:induction false} ExactSize(s: seq<Entry>, f: map<nat, nat>)
    requires Exact(s, f)
    ensures |s| == |f.Keys|
  {
    if s == [] {
      assert forall c :: c in f ==> (c, f[c]) in s;
    } else {
      var k := |s| - 1;
      var e := s[k];
      assert e in s;
      var f' := f - {e.0};
      forall x
        ensures x in s[..k] <==> x.0 in f' && f'[x.0] == x.1
      {
        assert s == s[..k] + [e];
        if x in s[..k] {
          assert x != e;
          assert x in s;
        }
      }
      ExactSize(s[..k], f');
      assert f.Keys == f'.Keys + {e.0};
    }
  }

  function TotalVotes(index: map<Hash, seq<Entry>>, blocks: seq<Hash>): nat {
    if blocks == [] then 0 else TotalVotes(index, blocks[..|blocks| - 1]) + |Entries(index, blocks[|blocks| - 1])|
  }

  /** The chains that vote for one of `blocks`. */
  ghost function Voters(w: seq<map<Hash, nat>>, blocks: seq<Hash>): set<nat> {
    set c | 0 <= c < |w| && exists p :: p in blocks && p in w[c]
  }

  /** No chain votes for two of `blocks`. */
  ghost predicate Exclusive(w: seq<map<Hash, nat>>, blocks: seq<Hash>) {
    forall c, p, q :: 0 <= c < |w| && p in blocks && q in blocks && p in w[c] && q in w[c] ==> p == q
  }

  lemma VotersSplit(w: seq<map<Hash, nat>>, before: seq<Hash>, p: Hash)
    requires Exclusive(w, before + [p]) && p !in before
    ensures Exclusive(w, before)
    ensures Voters(w, before + [p]) == Voters(w, before) + Column(w, p).Keys
    ensures Voters(w, before) !! Column(w, p).Keys
  {
    assert forall q :: q in before ==> q in before + [p];
    assert p in before + [p];
  }

  lemma {:induction false} TotalIsVoters(index: map<Hash, seq<Entry>>, w: seq<map<Hash, nat>>, blocks: seq<Hash>)
    requires Indexed(index, w) && NoDup(blocks) && Exclusive(w, blocks)
    ensures TotalVotes(index, blocks) == |Voters(w, blocks)|
  {
    hide Exclusive, Voters, Column;
    if blocks == [] {
      NoVoters(w);
    } else {
      var k := |blocks| - 1;
      var before, p := blocks[..k], blocks[k];
      assert blocks == before + [p];
      VotersSplit(w, before, p);
      TotalIsVoters(index, w, before);
      assert Exact(Entries(index, p), Column(w, p));
      ExactSize(Entries(index, p), Column(w, p));
    }
  }

  lemma NoVoters(w: seq<map<Hash, nat>>)
    ensures Voters(w, []) == {}
  {
  }

  /** On every level, the stored votes number exactly the chains that have voted that level: never more
      than the chains there are, so the sanity check of the election cannot fire. */
  lemma LevelVotesBounded(index: map<Hash, seq<Entry>>, w: seq<map<Hash, nat>>, pl: map<Hash, nat>, voted: seq<nat>,
                          blocks: seq<Hash>, l: nat)
    requires Indexed(index, w) && NoDup(blocks) && |voted| == |w|
    requires forall c :: 0 <= c < |w| ==> OnePerLevel(w[c], pl, voted[c])
    requires forall p :: p in blocks <==> p in pl && pl[p] == l
    ensures TotalVotes(index, blocks) == |set c | 0 <= c < |w| && l <= voted[c]| <= |w|
  {
    TotalIsVoters(index, w, blocks);
    var reached := set c | 0 <= c < |w| && l <= voted[c];
    forall c | 0 <= c < |w|
      ensures c in Voters(w, blocks) <==> l <= voted[c]
    {
      if l <= voted[c] {
        assert VotesOn(w[c], pl, l);
        var p :| p in w[c] && p in pl && pl[p] == l;
        assert p in blocks;
      }
    }
    assert Voters(w, blocks) == reached;
    SubsetSize(reached, |w|);
  }

  lemma {:induction false} SubsetSize(s: set<nat>, n: nat)
    requires forall c :: c in s ==> c < n
    ensures |s| <= n
  {
    if n == 0 {
      assert s == {};
    } else {
      SubsetSize(s - {n - 1}, n - 1);
      assert |s| <= |s - {n - 1}| + 1;
    }
  }
}
