/** The election stage of a proposer level, over exact numbers.

    Each block of the level has a lower bound on its final votes. A block is elected exactly when it wins
    in every way the outstanding votes can still fall. */
module Election {
  import opened Common

  function Sum(blocks: seq<Hash>, f: map<Hash, real>): real
    requires forall p :: p in blocks ==> p in f
  {
    if blocks == [] then 0.0 else Sum(blocks[..|blocks| - 1], f) + f[blocks[|blocks| - 1]]
  }

  /** Final votes of the known blocks and of a block nobody has seen yet: every known block keeps at least
      its lower bound, and there is one vote per chain. */
  ghost predicate Completion(blocks: seq<Hash>, lcb: map<Hash, real>, chains: real, votes: map<Hash, real>,
                             unseen: real) {
    && (forall p :: p in blocks ==> p in lcb && p in votes && lcb[p] <= votes[p])
    && 0.0 <= unseen
    && Sum(blocks, votes) + unseen <= chains
  }

  /** `b` has the most votes, the lowest hash among equals, and strictly more than an unseen block. */
  ghost predicate Wins(blocks: seq<Hash>, votes: map<Hash, real>, unseen: real, b: Hash)
    requires forall p :: p in blocks ==> p in votes
  {
    && b in blocks
    && unseen < votes[b]
    && forall p :: p in blocks && p != b ==> votes[p] < votes[b] || (votes[p] == votes[b] && b < p)
  }

  ghost predicate Robust(blocks: seq<Hash>, lcb: map<Hash, real>, chains: real, b: Hash) {
    && b in blocks
    && forall votes, unseen :: Completion(blocks, lcb, chains, votes, unseen) ==> Wins(blocks, votes, unseen, b)
  }

  ghost predicate Bounds(blocks: seq<Hash>, lcb: map<Hash, real>) {
    && NoDup(blocks)
    && forall p :: p in blocks ==> p in lcb && 0.0 <= lcb[p]
  }

  // ---- sums ----

  lemma {:induction false} SumRaise(blocks: seq<Hash>, f: map<Hash, real>, p: Hash, extra: real)
    requires NoDup(blocks) && forall q :: q in blocks ==> q in f
    requires p in f
    ensures Sum(blocks, f[p := f[p] + extra]) == Sum(blocks, f) + if p in blocks then extra else 0.0
  {
    if blocks != [] {
      var k := |blocks| - 1;
      assert blocks == blocks[..k] + [blocks[k]];
      SumRaise(blocks[..k], f, p, extra);
    }
  }

  /** What one block can gain over its bound is at most what all can gain together. */
  lemma {:induction false} SumGain(blocks: seq<Hash>, f: map<Hash, real>, g: map<Hash, real>)
    requires forall q :: q in blocks ==> q in f && q in g && f[q] <= g[q]
    ensures Sum(blocks, f) <= Sum(blocks, g)
    ensures forall p :: p in blocks ==> g[p] - f[p] <= Sum(blocks, g) - Sum(blocks, f)
  {
    if blocks != [] {
      var k := |blocks| - 1;
      assert blocks == blocks[..k] + [blocks[k]];
      SumGain(blocks[..k], f, g);
    }
  }

  lemma {:induction false} SumRemove(blocks: seq<Hash>, f: map<Hash, real>, i: nat)
    requires i < |blocks| && forall q :: q in blocks ==> q in f
    ensures forall q :: q in blocks[..i] + blocks[i + 1..] ==> q in f
    ensures Sum(blocks, f) == Sum(blocks[..i] + blocks[i + 1..], f) + f[blocks[i]]
  {
    var k := |blocks| - 1;
    var rest := blocks[..i] + blocks[i + 1..];
    if i == k {
      assert rest == blocks[..k];
    } else {
      SumRemove(blocks[..k], f, i);
      assert blocks[..k][..i] + blocks[..k][i + 1..] == rest[..|rest| - 1];
    }
  }

  lemma {:induction false} SumPermutation(a: seq<Hash>, b: seq<Hash>, f: map<Hash, real>)
    requires NoDup(a) && NoDup(b) && Elems(a) == Elems(b)
    requires forall q :: q in a ==> q in f
    ensures forall q :: q in b ==> q in f
    ensures Sum(a, f) == Sum(b, f)
  {
    assert forall q :: q in b ==> q in Elems(b);
    if a == [] {
      ElemsNonempty(b);
    } else {
      var k := |a| - 1;
      assert a[k] in Elems(a);
      var i :| 0 <= i < |b| && b[i] == a[k];
      var rest := b[..i] + b[i + 1..];
      SumRemove(b, f, i);
      assert NoDup(rest);
      forall q
        ensures q in a[..k] <==> q in rest
      {
        assert a == a[..k] + [a[k]];
        assert b == b[..i] + [b[i]] + b[i + 1..];
        assert q in a <==> q in Elems(a);
        assert q in b <==> q in Elems(b);
      }
      assert Elems(a[..k]) == Elems(rest);
      SumPermutation(a[..k], rest, f);
    }
  }

  // ---- the two passes of the source ----

  /** `b` carries the largest bound, the lowest hash among equals. */
  ghost predicate Leads(blocks: seq<Hash>, lcb: map<Hash, real>, b: Hash)
    requires forall p :: p in blocks ==> p in lcb
  {
    b in blocks && 0.0 < lcb[b] && forall p :: p in blocks && p != b ==> lcb[p] < lcb[b] || (lcb[p] == lcb[b] && b < p)
  }

  /** No block can catch up with `b` even if it gets all votes that are still open. */
  ghost predicate Uncatchable(blocks: seq<Hash>, lcb: map<Hash, real>, remaining: real, b: Hash)
    requires forall p :: p in blocks ==> p in lcb
  {
    && b in blocks
    && remaining < lcb[b]
    && forall p :: p in blocks && p != b ==> lcb[p] + remaining < lcb[b] || (lcb[p] + remaining == lcb[b] && b < p)
  }

  /** First pass: the candidate with the largest bound, ties to the lower hash. */
  method Candidate(blocks: seq<Hash>, lcb: map<Hash, real>) returns (leader: Option<Hash>, max: real, total: real)
    requires Bounds(blocks, lcb)
    ensures total == Sum(blocks, lcb)
    ensures leader.Some? ==> Leads(blocks, lcb, leader.value) && max == lcb[leader.value]
    ensures leader.None? ==> max == 0.0 && forall p :: p in blocks ==> lcb[p] == 0.0
  {
    leader, max, total := None, 0.0, 0.0;
    for i := 0 to |blocks|
      invariant total == Sum(blocks[..i], lcb)
      invariant leader.Some? ==> Leads(blocks[..i], lcb, leader.value) && max == lcb[leader.value]
      invariant leader.None? ==> max == 0.0 && forall p :: p in blocks[..i] ==> lcb[p] == 0.0
    {
      var block := blocks[i];
      assert blocks[..i + 1] == blocks[..i] + [block];
      total := total + lcb[block];
      if max < lcb[block] {
        max := lcb[block];
        leader := Some(block);
      }
      if max == lcb[block] && leader.Some? {
        if block < leader.value {
          leader := Some(block);
        }
      }
    }
    assert blocks[..|blocks|] == blocks;
  }

  /** The election stage: the candidate, unless an unseen block or another block could still overtake it. */
  method Elect(blocks: seq<Hash>, lcb: map<Hash, real>, chains: nat) returns (leader: Option<Hash>)
    requires Bounds(blocks, lcb)
    ensures leader.Some? ==> leader.value in blocks
    ensures Sum(blocks, lcb) <= chains as real ==>
              forall b: Hash :: leader == Some(b) <==> Robust(blocks, lcb, chains as real, b)
  {
    var candidate, max, total := Candidate(blocks, lcb);
    leader := candidate;
    var remaining := chains as real - total;
    if max <= remaining || leader.None? {
      leader := None;
    } else {
      var i := 0;
      while i < |blocks|
        invariant 0 <= i <= |blocks|
        invariant leader == candidate
        invariant forall p :: p in blocks[..i] && p != leader.value ==>
                    lcb[p] + remaining < max || (lcb[p] + remaining == max && leader.value < p)
      {
        var p := blocks[i];
        assert blocks[..i + 1] == blocks[..i] + [p];
        if max < lcb[p] + remaining && p != leader.value {
          leader := None;
          break;
        }
        if max == lcb[p] + remaining && p < leader.value {
          leader := None;
          break;
        }
        i := i + 1;
      }
      assert leader.Some? ==> blocks[..i] == blocks;
    }
    if Sum(blocks, lcb) <= chains as real {
      forall b: Hash
        ensures leader == Some(b) <==> Robust(blocks, lcb, chains as real, b)
      {
        RobustIsUncatchable(blocks, lcb, chains as real, b);
      }
    }
  }

  /** Winning every completion is the same as not being catchable on the bounds. */
  lemma RobustIsUncatchable(blocks: seq<Hash>, lcb: map<Hash, real>, chains: real, b: Hash)
    requires Bounds(blocks, lcb) && Sum(blocks, lcb) <= chains
    ensures Robust(blocks, lcb, chains, b) <==> Uncatchable(blocks, lcb, chains - Sum(blocks, lcb), b)
  {
    var remaining := chains - Sum(blocks, lcb);
    if Uncatchable(blocks, lcb, remaining, b) {
      forall votes, unseen | Completion(blocks, lcb, chains, votes, unseen)
        ensures Wins(blocks, votes, unseen, b)
      {
        SumGain(blocks, lcb, votes);
      }
    }
    if Robust(blocks, lcb, chains, b) {
      assert Completion(blocks, lcb, chains, lcb, remaining);
      forall p | p in blocks && p != b
        ensures lcb[p] + remaining < lcb[b] || (lcb[p] + remaining == lcb[b] && b < p)
      {
        SumRaise(blocks, lcb, p, remaining);
        var votes := lcb[p := lcb[p] + remaining];
        assert Completion(blocks, lcb, chains, votes, 0.0);
        assert Wins(blocks, votes, 0.0, b);
      }
    }
  }

  /** Higher bounds leave fewer completions, so a winner stays one. */
  lemma RobustGrows(blocks: seq<Hash>, low: map<Hash, real>, high: map<Hash, real>, chains: real, b: Hash)
    requires Robust(blocks, low, chains, b) && forall p :: p in blocks ==> p in low && p in high && low[p] <= high[p]
    ensures Robust(blocks, high, chains, b)
  {
    forall votes, unseen | Completion(blocks, high, chains, votes, unseen)
      ensures Wins(blocks, votes, unseen, b)
    {
      assert Completion(blocks, low, chains, votes, unseen);
    }
  }

  /** The outcome does not depend on the order in which the level's blocks are listed. */
  lemma OrderIrrelevant(a: seq<Hash>, b: seq<Hash>, lcb: map<Hash, real>, chains: real, x: Hash)
    requires Bounds(a, lcb) && Bounds(b, lcb) && Elems(a) == Elems(b)
    ensures Robust(a, lcb, chains, x) <==> Robust(b, lcb, chains, x)
  {
    OrderIrrelevantOneWay(a, b, lcb, chains, x);
    OrderIrrelevantOneWay(b, a, lcb, chains, x);
  }

  lemma OrderIrrelevantOneWay(a: seq<Hash>, b: seq<Hash>, lcb: map<Hash, real>, chains: real, x: Hash)
    requires Bounds(a, lcb) && Bounds(b, lcb) && Elems(a) == Elems(b)
    ensures Robust(a, lcb, chains, x) ==> Robust(b, lcb, chains, x)
  {
    forall p ensures p in a <==> p in b {
      assert p in a <==> p in Elems(a);
      assert p in b <==> p in Elems(b);
    }
    if Robust(a, lcb, chains, x) {
      forall votes, unseen | Completion(b, lcb, chains, votes, unseen)
        ensures Wins(b, votes, unseen, x)
      {
        SumPermutation(a, b, votes);
        assert Completion(a, lcb, chains, votes, unseen);
        assert Wins(a, votes, unseen, x);
      }
    }
  }
}
