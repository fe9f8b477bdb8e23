/** From the stored votes of a level to its leader: vote depths, the quorum, the bounds and the election.
    The probabilistic bound itself is a parameter; everything around it is the code's. */
module Leader {
  import opened Common
  import E = Election
  import V = VoterTrees
  import opened VoteIndex
  import opened ChainInvariants

  /** Lower confidence bound of a block: from the depths of its votes, the voter blocks mined since all
      votes of the level were cast, the number of those votes, and whether the confirming quantile is used. */
  type VoteBound = (seq<nat>, nat, nat, bool) -> real

  /** How deep a vote is buried under the best block of its chain. */
  function Depth(best: seq<(Hash, nat)>, e: Entry): nat {
    if e.0 < |best| && e.1 <= best[e.0].1 then best[e.0].1 - e.1 + 1 else 0
  }

  function Depths(best: seq<(Hash, nat)>, entries: seq<Entry>): (r: seq<nat>)
    ensures |r| == |entries|
  {
    if entries == [] then [] else
      Depths(best, entries[..|entries| - 1]) + [Depth(best, entries[|entries| - 1])]
  }

  function CountRange(counts: map<(nat, nat), nat>, chain: nat, from: nat, until: nat): nat
    requires from <= until
    decreases until
  {
    if from == until then 0 else CountRange(counts, chain, from, until - 1) + CountAt(counts, chain, until - 1)
  }

  /** Voter blocks of the vote's chain from the level of the vote to the best level. */
  function MinedSince(counts: map<(nat, nat), nat>, best: seq<(Hash, nat)>, e: Entry): nat {
    if e.0 < |best| && e.1 <= best[e.0].1 then CountRange(counts, e.0, e.1, best[e.0].1 + 1) else 0
  }

  function MinedSinceAll(counts: map<(nat, nat), nat>, best: seq<(Hash, nat)>, entries: seq<Entry>): nat {
    if entries == [] then 0 else
      MinedSinceAll(counts, best, entries[..|entries| - 1]) + MinedSince(counts, best, entries[|entries| - 1])
  }

  function MinedOnLevel(counts: map<(nat, nat), nat>, best: seq<(Hash, nat)>, index: map<Hash, seq<Entry>>,
                        blocks: seq<Hash>): nat {
    if blocks == [] then 0 else
      MinedOnLevel(counts, best, index, blocks[..|blocks| - 1])
      + MinedSinceAll(counts, best, Entries(index, blocks[|blocks| - 1]))
  }

  /** `voter_chains * 3 / 5` in 16-bit arithmetic. */
  function Quorum(chains: nat): nat {
    chains * 3 % 0x1_0000 / 5
  }

  /** The quorum is three fifths of the chains exactly up to 21845 chains; beyond, the product wraps. */
  lemma QuorumWraps(chains: nat)
    requires chains < 0x1_0000
    ensures Quorum(chains) == chains * 3 / 5 <==> chains <= 21845
    ensures Quorum(21846) == 0
  {
    if chains > 21845 {
      assert chains * 3 % 0x1_0000 <= chains * 3 - 0x1_0000;
    }
  }

  function Clamp(x: real): real {
    if x > 0.0 then x else 0.0
  }

  /** The bound of every block of the level. */
  function Bounds(bound: VoteBound, blocks: seq<Hash>, index: map<Hash, seq<Entry>>, counts: map<(nat, nat), nat>,
                  best: seq<(Hash, nat)>, confirm: bool): map<Hash, real> {
    map p | p in blocks ::
      Clamp(bound(Depths(best, Entries(index, p)), MinedOnLevel(counts, best, index, blocks), TotalVotes(index, blocks),
                  confirm))
  }

  /** `r` is the leader: the block, if any, that wins every completion once a quorum has voted. */
  ghost predicate Elected(bound: VoteBound, chains: nat, blocks: seq<Hash>, index: map<Hash, seq<Entry>>,
                          counts: map<(nat, nat), nat>, best: seq<(Hash, nat)>, confirm: bool, r: Option<Hash>) {
    && (r.Some? ==> r.value in blocks)
    && forall b: Hash :: r == Some(b) <==>
         && TotalVotes(index, blocks) > Quorum(chains)
         && E.Robust(blocks, Bounds(bound, blocks, index, counts, best, confirm), chains as real, b)
  }

  /** A bound never exceeds the number of votes it is about. */
  ghost predicate Sound(bound: VoteBound) {
    forall depths, mined, total, confirm :: bound(depths, mined, total, confirm) <= |depths| as real
  }

  /** Every stored vote lies within its chain, and the chain's levels are all counted. */
  ghost predicate Reachable(index: map<Hash, seq<Entry>>, counts: map<(nat, nat), nat>, best: seq<(Hash, nat)>) {
    && (forall p: Hash, e: Entry :: e in Entries(index, p) ==> e.0 < |best| && e.1 <= best[e.0].1)
    && (forall c: nat, l: nat :: 0 <= c < |best| && l <= best[c].1 ==> (c, l) in counts)
  }

  lemma {:induction false} BoundsSum(bound: VoteBound, blocks: seq<Hash>, index: map<Hash, seq<Entry>>,
                                     counts: map<(nat, nat), nat>,
                                     best: seq<(Hash, nat)>, confirm: bool, k: nat)
    requires Sound(bound) && k <= |blocks|
    ensures forall p :: p in blocks[..k] ==> p in Bounds(bound, blocks, index, counts, best, confirm)
    ensures E.Sum(blocks[..k], Bounds(bound, blocks, index, counts, best, confirm))
            <= TotalVotes(index, blocks[..k]) as real
  {
    var f := Bounds(bound, blocks, index, counts, best, confirm);
    if k > 0 {
      BoundsSum(bound, blocks, index, counts, best, confirm, k - 1);
      assert blocks[..k][..k - 1] == blocks[..k - 1];
      var p := blocks[k - 1];
      assert p in blocks;
      assert f[p] <= |Entries(index, p)| as real;
    }
  }

  /** The number of voter blocks of a chain between two levels, both included. */
  method NumVoterBlocks(counts: map<(nat, nat), nat>, chain: nat, start: nat, end: nat) returns (total: nat)
    requires start <= end && forall l: nat :: start <= l <= end ==> (chain, l) in counts
    ensures total == CountRange(counts, chain, start, end + 1)
  {
    total := 0;
    for l := start to end + 1
      invariant total == CountRange(counts, chain, start, l)
    {
      total := total + counts[(chain, l)];
    }
  }

  /** First pass over the votes of one block. Neither lookup nor subtraction can fail. */
  method GatherBlock(counts: map<(nat, nat), nat>, best: seq<(Hash, nat)>, entries: seq<Entry>)
    returns (depths: seq<nat>, mined: nat)
    requires forall e :: e in entries ==> e.0 < |best| && e.1 <= best[e.0].1
    requires forall c: nat, l: nat :: 0 <= c < |best| && l <= best[c].1 ==> (c, l) in counts
    ensures depths == Depths(best, entries) && mined == MinedSinceAll(counts, best, entries)
    ensures forall i :: 0 <= i < |entries| ==> depths[i] == best[entries[i].0].1 + 1 - entries[i].1
  {
    depths, mined := [], 0;
    for i := 0 to |entries|
      invariant depths == Depths(best, entries[..i]) && mined == MinedSinceAll(counts, best, entries[..i])
      invariant forall k :: 0 <= k < i ==> depths[k] == best[entries[k].0].1 + 1 - entries[k].1
    {
      var e := entries[i];
      assert e in entries && entries[..i + 1][..i] == entries[..i];
      var bestLevel := best[e.0].1;
      var n := NumVoterBlocks(counts, e.0, e.1, bestLevel);
      mined := mined + n;
      depths := depths + [bestLevel - e.1 + 1];
    }
    assert entries[..|entries|] == entries;
  }

  method Gather(index: map<Hash, seq<Entry>>, counts: map<(nat, nat), nat>, best: seq<(Hash, nat)>, blocks: seq<Hash>)
    returns (depths: map<Hash, seq<nat>>, mined: nat, total: nat)
    requires Reachable(index, counts, best)
    ensures mined == MinedOnLevel(counts, best, index, blocks) && total == TotalVotes(index, blocks)
    ensures forall p :: p in blocks ==> p in depths && depths[p] == Depths(best, Entries(index, p))
  {
    hide Depths, MinedSinceAll, MinedSince, Entries;
    depths, mined, total := map[], 0, 0;
    for i := 0 to |blocks|
      invariant mined == MinedOnLevel(counts, best, index, blocks[..i]) && total == TotalVotes(index, blocks[..i])
      invariant forall p :: p in blocks[..i] ==> p in depths && depths[p] == Depths(best, Entries(index, p))
    {
      var block := blocks[i];
      assert blocks[..i + 1] == blocks[..i] + [block];
      var votes := Entries(index, block);
      var d, m := GatherBlock(counts, best, votes);
      mined := mined + m;
      total := total + |votes|;
      depths := depths[block := d];
    }
    assert blocks[..|blocks|] == blocks;
  }

  /** The leader of a level. The check that there are not more votes than chains cannot fail. */
  method ProposerLeader(bound: VoteBound, chains: nat, blocks: seq<Hash>, index: map<Hash, seq<Entry>>,
                        counts: map<(nat, nat), nat>, best: seq<(Hash, nat)>, confirm: bool)
    returns (leader: Option<Hash>)
    requires Sound(bound) && Reachable(index, counts, best) && NoDup(blocks)
    requires TotalVotes(index, blocks) <= chains
    ensures Elected(bound, chains, blocks, index, counts, best, confirm, leader)
  {
    hide E.Robust, E.Sum, Depths, MinedOnLevel, TotalVotes, Reachable, Sound, Quorum;
    var depths, mined, total := Gather(index, counts, best, blocks);
    assert total <= chains;
    leader := None;
    if total > Quorum(chains) {
      var lcb := map p | p in blocks :: Clamp(bound(depths[p], mined, total, confirm));
      assert lcb == Bounds(bound, blocks, index, counts, best, confirm);
      BoundsSum(bound, blocks, index, counts, best, confirm, |blocks|);
      assert blocks[..|blocks|] == blocks;
      leader := E.Elect(blocks, lcb, chains);
    }
  }
}
