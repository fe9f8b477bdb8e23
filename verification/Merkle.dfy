/** The flat Merkle tree: root first, leaves last, every layer but the root padded to even size by repeating
    its last node. */
module Merkle {
  import opened Common

  /** SHA-256 of two concatenated hashes. */
  type PairHash = (Hash, Hash) -> Hash

  // ---- specification: layers, the node array, siblings ----

  function PaddedSize(n: nat): nat {
    if n <= 1 then n else n + n % 2
  }

  function Padded(s: seq<Hash>): (p: seq<Hash>)
    ensures |p| == PaddedSize(|s|) && s <= p
  {
    if |s| <= 1 || |s| % 2 == 0 then s else s + [s[|s| - 1]]
  }

  function Parents(pair: PairHash, p: seq<Hash>): (r: seq<Hash>) {
    seq(|p| / 2, i requires 0 <= i < |p| / 2 => pair(p[2 * i], p[2 * i + 1]))
  }

  /** The layer above. */
  function Up(pair: PairHash, s: seq<Hash>): (r: seq<Hash>)
    requires |s| > 1
    ensures |r| == (|s| + 1) / 2 < |s|
  {
    Parents(pair, Padded(s))
  }

  /** All nodes, root first. */
  function Tree(pair: PairHash, s: seq<Hash>): seq<Hash>
    decreases |s|
  {
    if |s| <= 1 then s else Tree(pair, Up(pair, s)) + Padded(s)
  }

  function Root(pair: PairHash, s: seq<Hash>): Hash
    requires s != []
    decreases |s|
  {
    if |s| == 1 then s[0] else Root(pair, Up(pair, s))
  }

  /** Left before right, and the odd one out paired with itself. */
  lemma SmallRoots(pair: PairHash, a: Hash, b: Hash, c: Hash)
    ensures Root(pair, [a]) == a && Root(pair, [a, b]) == pair(a, b)
    ensures Root(pair, [a, b, c]) == pair(pair(a, b), pair(c, c))
  {
    assert Padded([a, b]) == [a, b] && Up(pair, [a, b]) == [pair(a, b)];
    var x, y := pair(a, b), pair(c, c);
    assert Padded([a, b, c]) == [a, b, c, c] && Up(pair, [a, b, c]) == [x, y];
    assert Padded([x, y]) == [x, y] && Up(pair, [x, y]) == [pair(x, y)];
    assert Root(pair, [x, y]) == Root(pair, [pair(x, y)]) == pair(x, y);
  }

  function Buddy(i: nat): nat {
    if i % 2 == 0 then i + 1 else i - 1
  }

  /** The siblings along the path from leaf `i` to the root. */
  function Siblings(pair: PairHash, s: seq<Hash>, i: nat): seq<Hash>
    requires i < |s|
    decreases |s|
  {
    if |s| == 1 then [] else [Padded(s)[Buddy(i)]] + Siblings(pair, Up(pair, s), i / 2)
  }

  /** Layer sizes before padding, leaves first. */
  function Sizes(n: nat): seq<nat>
    requires n > 0
  {
    if n == 1 then [1] else [n] + Sizes((n + 1) / 2)
  }

  function PaddedSizes(n: nat): seq<nat>
    requires n > 0
  {
    if n == 1 then [1] else [PaddedSize(n)] + PaddedSizes((n + 1) / 2)
  }

  function Sum(s: seq<nat>): nat {
    if s == [] then 0 else s[0] + Sum(s[1..])
  }

  // ---- layout ----

  /** The size of the tree depends on the number of leaves alone, and is odd: so every layer but the root's
      starts at an odd index, and the parity of a node's index tells which child it is. */
  lemma {:induction false} TreeSize(pair: PairHash, s: seq<Hash>)
    requires s != []
    ensures |Tree(pair, s)| == Sum(PaddedSizes(|s|)) && |Tree(pair, s)| % 2 == 1
    decreases |s|
  {
    hide Sum, Padded, PaddedSize, Up;
    if |s| > 1 {
      var n := |Tree(pair, Up(pair, s))|;
      TreeSize(pair, Up(pair, s));
      PaddedEven(|s|);
      SumHead(PaddedSize(|s|), PaddedSizes((|s| + 1) / 2));
      OddPlusEven(n, (|s| + 1) / 2);
    } else {
      SumOne(1);
    }
  }

  lemma PaddedEven(n: nat)
    requires n > 1
    ensures PaddedSize(n) % 2 == 0 && PaddedSize(n) == 2 * ((n + 1) / 2)
  {
  }

  lemma OddPlusEven(n: nat, k: nat)
    requires n % 2 == 1
    ensures (n + 2 * k) % 2 == 1
  {
  }

  lemma SumOne(x: nat)
    ensures Sum([x]) == x
  {
  }

  lemma SumHead(x: nat, s: seq<nat>)
    ensures Sum([x] + s) == x + Sum(s)
  {
    assert ([x] + s)[1..] == s;
  }

  lemma {:induction false} TreeRoot(pair: PairHash, s: seq<Hash>)
    requires s != []
    ensures Tree(pair, s) != [] && Tree(pair, s)[0] == Root(pair, s)
    decreases |s|
  {
    if |s| > 1 { TreeRoot(pair, Up(pair, s)); }
  }

  lemma {:induction false} SizesMatch(n: nat)
    requires n > 0
    ensures |Sizes(n)| == |PaddedSizes(n)| > 0
    ensures forall k :: 0 <= k < |Sizes(n)| ==> Sizes(n)[k] > 0 && PaddedSizes(n)[k] == PaddedSize(Sizes(n)[k])
    ensures Sizes(n)[|Sizes(n)| - 1] == 1 && forall k :: 0 <= k < |Sizes(n)| - 1 ==> Sizes(n)[k] > 1
  {
    if n > 1 { SizesMatch((n + 1) / 2); }
  }

  // ---- proofs of membership ----

  function Combine(pair: PairHash, acc: Hash, sibling: Hash, i: nat): Hash {
    if i % 2 == 0 then pair(acc, sibling) else pair(sibling, acc)
  }

  /** Hash upwards from a leaf along a list of siblings. */
  function Climb(pair: PairHash, acc: Hash, proof: seq<Hash>, i: nat): Hash
    decreases |proof|
  {
    if proof == [] then acc else Climb(pair, Combine(pair, acc, proof[0], i), proof[1..], i / 2)
  }

  /** What `verify` decides. */
  predicate Accepts(pair: PairHash, root: Hash, data: Hash, proof: seq<Hash>, i: nat, n: nat) {
    i < n && |proof| + 1 == |Sizes(n)| && Climb(pair, data, proof, i) == root
  }

  /** Every leaf is accepted with its siblings. */
  lemma {:induction false} ProofIsAccepted(pair: PairHash, s: seq<Hash>, i: nat)
    requires i < |s|
    ensures Accepts(pair, Root(pair, s), s[i], Siblings(pair, s, i), i, |s|)
    decreases |s|
  {
    if |s| > 1 {
      var p := Padded(s);
      assert p[i] == s[i];
      assert Up(pair, s)[i / 2] == Combine(pair, s[i], p[Buddy(i)], i);
      ProofIsAccepted(pair, Up(pair, s), i / 2);
      var proof := Siblings(pair, s, i);
      assert proof[1..] == Siblings(pair, Up(pair, s), i / 2);
    }
  }

  function Pow2(k: nat): nat {
    if k == 0 then 1 else 2 * Pow2(k - 1)
  }

  /** The length of an acceptable proof is the least `k` with `2^k` at least the number of leaves. */
  lemma {:induction false} ProofLength(n: nat)
    requires n > 0
    ensures
      var k := |Sizes(n)| - 1;
      k >= 0 && n <= Pow2(k) && forall j: nat :: j < k ==> Pow2(j) < n
  {
    if n > 1 {
      ProofLength((n + 1) / 2);
      var k := |Sizes((n + 1) / 2)| - 1;
      forall j: nat | j < k + 1
        ensures Pow2(j) < n
      {
        if j > 0 { assert Pow2(j - 1) < (n + 1) / 2; }
      }
    }
  }

  /** The inputs `verify` hashes, leaf upwards. */
  function HashedPairs(pair: PairHash, acc: Hash, proof: seq<Hash>, i: nat): (r: seq<(Hash, Hash)>)
    ensures |r| == |proof|
    decreases |proof|
  {
    if proof == [] then [] else
      [if i % 2 == 0 then (acc, proof[0]) else (proof[0], acc)]
      + HashedPairs(pair, Combine(pair, acc, proof[0], i), proof[1..], i / 2)
  }

  ghost predicate Collide(pair: PairHash, a: (Hash, Hash), b: (Hash, Hash)) {
    a != b && pair(a.0, a.1) == pair(b.0, b.1)
  }

  lemma {:induction false} CollisionInClimb(pair: PairHash, d: Hash, p: seq<Hash>, e: Hash, q: seq<Hash>, i: nat)
    returns (k: nat)
    requires |p| == |q| && (d != e || p != q) && Climb(pair, d, p, i) == Climb(pair, e, q, i)
    ensures k < |p| && Collide(pair, HashedPairs(pair, d, p, i)[k], HashedPairs(pair, e, q, i)[k])
    decreases |p|
  {
    if Collide(pair, HashedPairs(pair, d, p, i)[0], HashedPairs(pair, e, q, i)[0]) {
      k := 0;
    } else {
      var d', e' := Combine(pair, d, p[0], i), Combine(pair, e, q[0], i);
      assert p == [p[0]] + p[1..] && q == [q[0]] + q[1..];
      var j := CollisionInClimb(pair, d', p[1..], e', q[1..], i / 2);
      k := j + 1;
    }
  }

  /** Two different accepted pairs of leaf and proof exhibit, at one height of the two verifications, two
      different inputs with the same hash. */
  lemma TwoProofsCollide(pair: PairHash, root: Hash, d: Hash, p: seq<Hash>, e: Hash, q: seq<Hash>, i: nat, n: nat)
    returns (k: nat)
    requires Accepts(pair, root, d, p, i, n) && Accepts(pair, root, e, q, i, n) && (d, p) != (e, q)
    ensures k < |p| == |q| && Collide(pair, HashedPairs(pair, d, p, i)[k], HashedPairs(pair, e, q, i)[k])
  {
    k := CollisionInClimb(pair, d, p, e, q, i);
  }

  /** Without collisions, a root accepts at each index its own leaf and proof and nothing else. */
  lemma OnlyTheLeafIsAccepted(pair: PairHash, s: seq<Hash>, d: Hash, p: seq<Hash>, i: nat)
    requires forall a, b, x, y :: pair(a, b) == pair(x, y) ==> a == x && b == y
    requires s != []
    ensures Accepts(pair, Root(pair, s), d, p, i, |s|) <==> i < |s| && d == s[i] && p == Siblings(pair, s, i)
  {
    if i < |s| {
      ProofIsAccepted(pair, s, i);
      if Accepts(pair, Root(pair, s), d, p, i, |s|) && (d, p) != (s[i], Siblings(pair, s, i)) {
        var k := TwoProofsCollide(pair, Root(pair, s), d, p, s[i], Siblings(pair, s, i), i, |s|);
      }
    }
  }
}
