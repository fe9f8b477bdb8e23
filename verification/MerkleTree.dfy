/** The Merkle tree as the node keeps it: one array, filled layer by layer and updated in place. */
module MerkleTrees {
  import opened Common
  import opened Merkle

  // ---- one layer of the array ----

  /** Where a layer starts: right after the tree above it, at an odd index. */
  lemma LayerStart(pair: PairHash, cur: seq<Hash>)
    requires |cur| > 1
    ensures |Tree(pair, cur)| - |Padded(cur)| == |Tree(pair, Up(pair, cur))|
    ensures |Tree(pair, Up(pair, cur))| % 2 == 1
  {
    TreeSize(pair, Up(pair, cur));
  }

  /** The nodes of one layer in the whole array. */
  lemma LayerNodes(pair: PairHash, cur: seq<Hash>, below: seq<Hash>)
    requires |cur| > 1
    ensures
      var above := Tree(pair, Up(pair, cur));
      Tree(pair, cur) + below == above + (Padded(cur) + below)
  {
  }

  lemma SizesStep(n: nat)
    requires n > 0
    ensures n == 1 ==> Sizes(n) == [1] && PaddedSizes(n) == [1]
    ensures n > 1 ==>
              var m := n + n % 2;
              m / 2 == (n + 1) / 2 && Sizes(n) == [n] + Sizes(m / 2) && PaddedSizes(n) == [m] + PaddedSizes(m / 2)
  {
    if n > 1 { PaddedEven(n); }
  }

  /** Both size lists, leaves first. */
  method LayerSizes(n: nat) returns (layerSize: seq<nat>, dataSize: seq<nat>)
    requires n > 0
    ensures layerSize == PaddedSizes(n) && dataSize == Sizes(n)
  {
    hide PaddedSize, Sizes, PaddedSizes;
    layerSize, dataSize := [], [];
    var size := n;
    while true
      invariant size > 0 && dataSize + Sizes(size) == Sizes(n) && layerSize + PaddedSizes(size) == PaddedSizes(n)
      decreases size
    {
      SizesStep(size);
      dataSize := dataSize + [size];
      if size == 1 {
        layerSize := layerSize + [size];
        return;
      }
      if size % 2 == 1 {
        size := size + 1;
      }
      layerSize := layerSize + [size];
      size := size / 2;
    }
  }

  /** Hash the layer at `last` pairwise into `d` nodes at `start`. */
  method HashLayer(pair: PairHash, nodes: array<Hash>, start: nat, last: nat, d: nat)
    requires start + d <= last && last + 2 * d <= nodes.Length
    modifies nodes
    ensures nodes[start..start + d] == Parents(pair, old(nodes[last..last + 2 * d]))
    ensures nodes[last..] == old(nodes[last..])
  {
    hide Parents;
    ghost var row := nodes[last..last + 2 * d];
    ParentsAt(pair, row);
    for i := 0 to d
      invariant forall j :: 0 <= j < i ==> nodes[start + j] == Parents(pair, row)[j]
      invariant forall j :: last <= j < nodes.Length ==> nodes[j] == old(nodes[j])
    {
      assert row[2 * i] == nodes[last + 2 * i] && row[2 * i + 1] == nodes[last + 2 * i + 1];
      nodes[start + i] := pair(nodes[last + 2 * i], nodes[last + 2 * i + 1]);
    }
  }

  lemma ParentsAt(pair: PairHash, p: seq<Hash>)
    ensures |Parents(pair, p)| == |p| / 2
    ensures forall i :: 0 <= i < |p| / 2 ==> Parents(pair, p)[i] == pair(p[2 * i], p[2 * i + 1])
  {
  }

  /** Write a layer of `d` nodes at `start`, hashed from the layer at `last`, and pad it to `l`. */
  method FillLayer(pair: PairHash, nodes: array<Hash>, start: nat, last: nat, d: nat, l: nat)
    requires 0 < d && l == PaddedSize(d) && last == start + l && last + 2 * d <= nodes.Length
    modifies nodes
    ensures nodes[start..] == Padded(Parents(pair, old(nodes[last..last + 2 * d]))) + old(nodes[last..])
  {
    hide Parents;
    ghost var row, rest := Parents(pair, nodes[last..last + 2 * d]), nodes[last..];
    HashLayer(pair, nodes, start, last, d);
    ghost var before := nodes[..];
    if l != d {
      nodes[start + l - 1] := nodes[start + d - 1];
    }
    PadRow(before, start, row, rest, nodes[..]);
  }

  /** Repeating the last node of an odd row pads it. */
  lemma PadRow(before: seq<Hash>, start: nat, row: seq<Hash>, rest: seq<Hash>, after: seq<Hash>)
    requires row != [] && |before| == |after| == start + PaddedSize(|row|) + |rest|
    requires before[start..start + |row|] == row && before[start + PaddedSize(|row|)..] == rest
    requires |row| == PaddedSize(|row|) ==> after == before
    requires |row| != PaddedSize(|row|) ==> after == before[start + PaddedSize(|row|) - 1 := before[start + |row| - 1]]
    ensures after[start..] == Padded(row) + rest
  {
    hide PaddedSize;
    PaddedFacts(row);
    var l := PaddedSize(|row|);
    assert after[start..] == after[start..start + l] + after[start + l..];
    assert after[start + l..] == rest;
    assert after[start..start + |row|] == row;
    if |row| != l { assert after[start..start + l] == row + [after[start + |row|]]; }
  }

  lemma PaddedFacts(row: seq<Hash>)
    requires row != []
    ensures |row| == PaddedSize(|row|) ==> Padded(row) == row
    ensures |row| != PaddedSize(|row|) ==> PaddedSize(|row|) == |row| + 1 && Padded(row) == row + [row[|row| - 1]]
  {
  }

  method FillBottom(nodes: array<Hash>, start: nat, s: seq<Hash>)
    requires s != [] && nodes.Length == start + PaddedSize(|s|)
    modifies nodes
    ensures nodes[start..] == Padded(s)
  {
    forall i | 0 <= i < |s| { nodes[start + i] := s[i]; }
    if PaddedSize(|s|) != |s| {
      nodes[start + PaddedSize(|s|) - 1] := nodes[start + |s| - 1];
    }
  }

  method Build(pair: PairHash, s: seq<Hash>) returns (nodes: array<Hash>, dataSize: seq<nat>)
    ensures fresh(nodes) && nodes[..] == Tree(pair, s)
    ensures dataSize == if s == [] then [0] else Sizes(|s|)
  {
    if s == [] {
      nodes := new Hash[0];
      dataSize := [0];
      return;
    }
    hide Tree, Padded, Up, Sizes, PaddedSizes, PaddedSize, Sum, Parents;
    var layerSize;
    layerSize, dataSize := LayerSizes(|s|);
    TreeSize(pair, s);
    SizesMatch(|s|);
    PaddedFits(pair, s);
    var size := Sum(layerSize);
    nodes := new Hash[size](_ => 0);
    FillBottom(nodes, size - layerSize[0], s);
    FillAbove(pair, nodes, layerSize, dataSize, s);
  }

  /** All layers above the leaves, bottom up. */
  method FillAbove(pair: PairHash, nodes: array<Hash>, layerSize: seq<nat>, dataSize: seq<nat>, ghost s: seq<Hash>)
    requires s != [] && layerSize == PaddedSizes(|s|) && dataSize == Sizes(|s|) && nodes.Length == |Tree(pair, s)|
    requires 0 < |layerSize| == |dataSize| && layerSize[0] == |Padded(s)| <= nodes.Length
    requires nodes[nodes.Length - layerSize[0]..] == Padded(s)
    modifies nodes
    ensures nodes[..] == Tree(pair, s)
  {
    hide Tree, Padded, Up, Sizes, PaddedSizes, PaddedSize, Parents;
    var start := nodes.Length - layerSize[0];
    ghost var cur: seq<Hash>, below: seq<Hash> := s, [];
    assert Padded(s) + below == Padded(s) && Tree(pair, s) + below == Tree(pair, s);
    var k := 1;
    assert layerSize[0..] == layerSize && dataSize[0..] == dataSize;
    while k < |layerSize|
      invariant 1 <= k <= |layerSize| && cur != []
      invariant layerSize[k - 1..] == PaddedSizes(|cur|) && dataSize[k - 1..] == Sizes(|cur|)
      invariant Tree(pair, s) == Tree(pair, cur) + below
      invariant start + |Padded(cur)| == |Tree(pair, cur)| && 0 <= start <= nodes.Length
      invariant nodes[start..] == Padded(cur) + below
    {
      var last := start;
      LayerDown(pair, cur, below, layerSize[k - 1..], dataSize[k - 1..]);
      start := start - layerSize[k];
      RowAt(nodes[..], last, Padded(cur), below);
      FillLayer(pair, nodes, start, last, dataSize[k], layerSize[k]);
      below, cur := Padded(cur) + below, Up(pair, cur);
      k := k + 1;
    }
    TopLayer(pair, cur);
  }

  lemma RowAt(nodes: seq<Hash>, at: nat, row: seq<Hash>, below: seq<Hash>)
    requires at <= |nodes| && nodes[at..] == row + below
    ensures at + |row| <= |nodes| && nodes[at..at + |row|] == row
  {
    assert nodes[at..at + |row|] == nodes[at..][..|row|];
  }

  lemma TopLayer(pair: PairHash, cur: seq<Hash>)
    requires cur != [] && |PaddedSizes(|cur|)| == 1
    ensures Tree(pair, cur) == Padded(cur)
  {
    SizesMatch(|cur|);
  }

  lemma PaddedFits(pair: PairHash, s: seq<Hash>)
    requires s != []
    ensures |Padded(s)| <= |Tree(pair, s)| && PaddedSizes(|s|)[0] == |Padded(s)|
  {
  }

  /** What the step from a layer to the one above relies on. */
  lemma LayerDown(pair: PairHash, cur: seq<Hash>, below: seq<Hash>, layerSize: seq<nat>, dataSize: seq<nat>)
    requires cur != [] && layerSize == PaddedSizes(|cur|) && dataSize == Sizes(|cur|) && |layerSize| > 1
    ensures |cur| > 1 && |dataSize| > 1
    ensures layerSize[1..] == PaddedSizes(|Up(pair, cur)|) && dataSize[1..] == Sizes(|Up(pair, cur)|)
    ensures dataSize[1] == |Up(pair, cur)| > 0 && layerSize[1] == |Padded(Up(pair, cur))|
    ensures Tree(pair, cur) + below == Tree(pair, Up(pair, cur)) + (Padded(cur) + below)
    ensures |Padded(Up(pair, cur))| <= |Tree(pair, Up(pair, cur))|
    ensures |Padded(cur)| == 2 * dataSize[1] && Up(pair, cur) == Parents(pair, Padded(cur))
  {
    SizesMatch(|cur|);
    LayerNodes(pair, cur, below);
    PaddedFits(pair, Up(pair, cur));
    PaddedEven(|cur|);
  }

  // ---- the tree object ----

  class MerkleTree {
    const pair: PairHash
    var dataSize: seq<nat>
    var nodes: array<Hash>
    ghost var leaves: seq<Hash>

    ghost predicate Valid()
      reads this, nodes
    {
      nodes[..] == Tree(pair, leaves) && dataSize == if leaves == [] then [0] else Sizes(|leaves|)
    }

    constructor <T> (pair: PairHash, hashOf: T -> Hash, data: seq<T>)
      ensures Valid() && fresh(nodes) && this.pair == pair
      ensures leaves == Hashed(hashOf, data)
    {
      this.pair := pair;
      leaves := Hashed(hashOf, data);
      var built, sizes := Build(pair, Hashed(hashOf, data));
      nodes, dataSize := built, sizes;
    }

    method GetRoot() returns (root: Hash)
      requires Valid()
      ensures root == if leaves == [] then 0 else Root(pair, leaves)
    {
      if leaves != [] { TreeRoot(pair, leaves); }
      root := if nodes.Length == 0 then 0 else nodes[0];
    }

    /** The siblings of a leaf; nothing for a single leaf or an index out of range. */
    method Proof(index: nat) returns (results: seq<Hash>)
      requires Valid()
      ensures results == if index < |leaves| then Siblings(pair, leaves, index) else []
    {
      hide Tree, Padded, Up, Sizes, PaddedSize, Siblings, Beside, Buddy, LayerBefore;
      FirstSize(leaves, dataSize);
      if |dataSize| == 1 || index >= dataSize[0] {
        if index < |leaves| { NoSiblings(pair, leaves, index); }
        return [];
      }
      results := [];
      var start := LayerBefore(nodes.Length, dataSize[0]);
      var layer, i := 0, index;
      ghost var cur: seq<Hash>, below: seq<Hash> := leaves, [];
      assert Tree(pair, leaves) + below == Tree(pair, leaves);
      LayerBeforeIs(nodes.Length, |cur|);
      LayerStart(pair, cur);
      while true
        invariant layer < |dataSize| - 1 && |cur| > 1 && 0 <= i < |cur| && dataSize[layer..] == Sizes(|cur|)
        invariant nodes[..] == Tree(pair, cur) + below && start == |Tree(pair, Up(pair, cur))|
        invariant results + Siblings(pair, cur, i) == Siblings(pair, leaves, index)
        decreases |cur|
      {
        SiblingAt(pair, cur, below, start, i);
        SiblingsStep(pair, cur, i);
        var sibling := Beside(start + i);
        results := results + [nodes[sibling]];
        layer := layer + 1;
        SizesUp(pair, cur);
        assert dataSize[layer - 1..][1..] == dataSize[layer..];
        if layer == |dataSize| - 1 {
          NoSiblings(pair, Up(pair, cur), i / 2);
          return;
        }
        LayerNodes(pair, cur, below);
        below, cur := Padded(cur) + below, Up(pair, cur);
        LayerStart(pair, cur);
        LayerBeforeIs(start, |cur|);
        start := LayerBefore(start, dataSize[layer]);
        i := i / 2;
      }
    }

    /** Replace one leaf and rehash its path in place: the array becomes that of a tree built afresh. */
    method Update<T>(hashOf: T -> Hash, index: nat, data: T)
      requires Valid()
      modifies this`leaves, nodes
      ensures Valid()
      ensures leaves == if index < |old(leaves)| then old(leaves)[index := hashOf(data)] else old(leaves)
    {
      hide Tree, Padded, Up, Sizes, PaddedSize;
      FirstSize(leaves, dataSize);
      if index >= dataSize[0] {
        return;
      }
      ghost var was := leaves;
      leaves := leaves[index := hashOf(data)];
      if dataSize[0] == 1 {
        SingleTree(pair, was);
        SingleTree(pair, leaves);
        nodes[0] := hashOf(data);
        return;
      }
      RehashPath(pair, nodes, dataSize, index, hashOf(data), was);
    }
  }

  function Hashed<T>(hashOf: T -> Hash, data: seq<T>): seq<Hash> {
    seq(|data|, i requires 0 <= i < |data| => hashOf(data[i]))
  }

  lemma FirstSize(leaves: seq<Hash>, dataSize: seq<nat>)
    requires dataSize == if leaves == [] then [0] else Sizes(|leaves|)
    ensures |dataSize| > 0 && dataSize[0] == |leaves|
    ensures |dataSize| > 1 <==> |leaves| > 1
  {
    if leaves != [] { SizesMatch(|leaves|); }
  }

  lemma NoSiblings(pair: PairHash, s: seq<Hash>, i: nat)
    requires i < |s| == 1
    ensures Siblings(pair, s, i) == []
  {
  }

  /** Where a layer of `size` nodes that ends at `end` starts, padding included. */
  function LayerBefore(end: int, size: nat): int {
    if size % 2 == 1 then end - size - 1 else end - size
  }

  lemma LayerBeforeIs(end: int, n: nat)
    requires n > 1
    ensures LayerBefore(end, n) == end - PaddedSize(n)
  {
  }

  lemma PaddedIs(n: nat)
    requires n > 1
    ensures PaddedSize(n) == if n % 2 == 1 then n + 1 else n
  {
  }

  lemma SizesUp(pair: PairHash, cur: seq<Hash>)
    requires |cur| > 1
    ensures Sizes(|cur|)[1..] == Sizes(|Up(pair, cur)|)
    ensures Sizes(|Up(pair, cur)|) != [] && Sizes(|Up(pair, cur)|)[0] == |Up(pair, cur)|
    ensures |Sizes(|Up(pair, cur)|)| == 1 <==> |Up(pair, cur)| == 1
  {
    SizesMatch(|Up(pair, cur)|);
  }

  /** The index arithmetic of `proof`: since the layer starts at an odd index, the node next to it is the
      other child of the same parent. */
  lemma SiblingAt(pair: PairHash, cur: seq<Hash>, below: seq<Hash>, start: nat, i: nat)
    requires |cur| > 1 && i < |cur| && start == |Tree(pair, Up(pair, cur))|
    ensures Beside(start + i) == start + Buddy(i) && Buddy(i) < |Padded(cur)|
              && start + |Padded(cur)| == |Tree(pair, cur)|
    ensures (Tree(pair, cur) + below)[start + Buddy(i)] == Padded(cur)[Buddy(i)]
  {
    LayerStart(pair, cur);
    LayerNodes(pair, cur, below);
    BuddyInside(|cur|, i);
    OddOffset(start, i);
    hide Up, Padded, PaddedSize, Tree;
    var above := Tree(pair, Up(pair, cur));
    assert (above + (Padded(cur) + below))[start + Buddy(i)] == Padded(cur)[Buddy(i)];
  }

  lemma BuddyInside(n: nat, i: nat)
    requires n > 1 && i < n
    ensures Buddy(i) < PaddedSize(n) && i / 2 < (n + 1) / 2
  {
    PaddedEven(n);
  }

  function Beside(at: nat): int {
    if at % 2 == 1 then at + 1 else at - 1
  }

  lemma SiblingsStep(pair: PairHash, cur: seq<Hash>, i: nat)
    requires |cur| > 1 && i < |cur|
    ensures Buddy(i) < |Padded(cur)| && i / 2 < |Up(pair, cur)|
    ensures Siblings(pair, cur, i) == [Padded(cur)[Buddy(i)]] + Siblings(pair, Up(pair, cur), i / 2)
  {
    BuddyInside(|cur|, i);
  }

  lemma OddOffset(start: nat, i: nat)
    requires start % 2 == 1
    ensures (start + i) % 2 == 1 <==> i % 2 == 0
  {
  }

  lemma SingleTree(pair: PairHash, s: seq<Hash>)
    requires |s| == 1
    ensures Tree(pair, s) == s == Padded(s)
  {
  }

  /** The nodes before a layer. */
  ghost function Above(pair: PairHash, cur: seq<Hash>): seq<Hash> {
    if |cur| > 1 then Tree(pair, Up(pair, cur)) else []
  }

  lemma SizesHere(pair: PairHash, cur: seq<Hash>, sizes: seq<nat>)
    requires cur != [] && sizes == Sizes(|cur|)
    ensures sizes != [] && sizes[0] == |cur| && (|sizes| == 1 <==> |cur| == 1)
    ensures Tree(pair, cur) == Above(pair, cur) + Padded(cur)
    ensures if |cur| > 1 then |Above(pair, cur)| % 2 == 1
              else Above(pair, cur) == [] && Tree(pair, cur) == Padded(cur) == cur
  {
    SizesMatch(|cur|);
    if |cur| > 1 { TreeSize(pair, Up(pair, cur)); }
  }

  /** Rewrite the nodes from a leaf up to the root. */
  method RehashPath(pair: PairHash, nodes: array<Hash>, dataSize: seq<nat>, index: nat, leaf: Hash,
                    ghost was: seq<Hash>)
    requires index < |was| && |was| > 1 && dataSize == Sizes(|was|) && nodes[..] == Tree(pair, was)
    modifies nodes
    ensures nodes[..] == Tree(pair, was[index := leaf])
  {
    hide Tree, Padded, Up, Sizes, PaddedSize, Above, NewParent, LayerBefore;
    ghost var target := Tree(pair, was[index := leaf]);
    LayerBeforeIs(nodes.Length, |was|);
    SizesHere(pair, was, dataSize);
    var lastStart := LayerBefore(nodes.Length, dataSize[0]);
    var start: nat, layer: nat, i: nat := lastStart, 0, index;
    ghost var cur: seq<Hash>, below: seq<Hash>, v: Hash := was, [], leaf;
    assert Tree(pair, was) + below == Tree(pair, was) && target + below == target;
    while true
      invariant layer < |dataSize| && i < |cur| && dataSize[layer..] == Sizes(|cur|)
      invariant nodes[..] == Tree(pair, cur) + below && target == Tree(pair, cur[i := v]) + below
      invariant start == |Above(pair, cur)| && start + |Padded(cur)| == |Tree(pair, cur)|
      invariant if layer == 0 then v == leaf && start == lastStart
                else |Tree(pair, cur)| <= lastStart && 2 * i + 1 < |below| && v == pair(below[2 * i], below[2 * i + 1])
      decreases |cur|
    {
      SizesHere(pair, cur, dataSize[layer..]);
      var value := NodeHash(pair, nodes, start, i, dataSize[layer], lastStart, leaf, cur, below, v);
      WriteNode(nodes, start, i, dataSize[layer], value, Above(pair, cur), cur, below);
      layer := layer + 1;
      if layer == |dataSize| {
        SingleTree(pair, cur[i := v]);
        return;
      }
      PathUp(pair, cur, i, v, below);
      below, v, i, cur := Padded(cur[i := v]) + below, NewParent(pair, cur, i, v), i / 2, Up(pair, cur);
      assert dataSize[layer - 1..][1..] == dataSize[layer..];
      SizesHere(pair, cur, dataSize[layer..]);
      if layer == |dataSize| - 1 {
        start := 0;
      } else {
        LayerBeforeIs(start, |cur|);
        start := LayerBefore(start, dataSize[layer]);
      }
    }
  }

  /** The new hash of the node on the path: the data's in the bottom layer, its children's above. */
  method NodeHash(pair: PairHash, nodes: array<Hash>, start: nat, i: nat, size: nat, lastStart: nat, bottom: Hash,
                  ghost cur: seq<Hash>, ghost below: seq<Hash>, ghost v: Hash) returns (value: Hash)
    requires i < |cur| == size && nodes[..] == Tree(pair, cur) + below && start + |Padded(cur)| == |Tree(pair, cur)|
    requires |cur| == 1 ==> |Tree(pair, cur)| == 1
    requires start == lastStart ==> v == bottom
    requires start != lastStart ==>
               && |Tree(pair, cur)| <= lastStart
               && 2 * i + 1 < |below| && v == pair(below[2 * i], below[2 * i + 1])
    requires |cur| > 1 ==> start > 0
    ensures value == v
  {
    hide Tree, Padded, PaddedSize;
    var at := start + i;
    ghost var children := |Tree(pair, cur)| + 2 * i;
    if start != lastStart {
      assert nodes[..][children] == below[2 * i] && nodes[..][children + 1] == below[2 * i + 1];
    }
    if at >= lastStart {
      value := bottom;
    } else if at > 0 {
      PaddedIs(|cur|);
      var left := if size % 2 == 1 then start + 2 * i + size + 1 else start + 2 * i + size;
      value := pair(nodes[left], nodes[left + 1]);
    } else {
      value := pair(nodes[1], nodes[2]);
    }
  }

  /** Write one node of a layer, and its duplicate when it is the last node of an odd layer. */
  method WriteNode(nodes: array<Hash>, start: nat, i: nat, size: nat, value: Hash, ghost above: seq<Hash>,
                   ghost cur: seq<Hash>, ghost below: seq<Hash>)
    requires i < |cur| == size && nodes[..] == above + Padded(cur) + below && start == |above|
    requires if size > 1 then start % 2 == 1 else start == 0
    modifies nodes
    ensures nodes[..] == above + Padded(cur[i := value]) + below
  {
    hide Padded, PaddedSize;
    var at := start + i;
    Duplicate(cur, i, value);
    OddOffset2(start, i);
    ghost var row := Padded(cur);
    assert nodes[..] == above + row + below;
    nodes[at] := value;
    assert nodes[..] == above + row[i := value] + below;
    if at == start + size - 1 && at % 2 == 1 {
      nodes[at + 1] := nodes[at];
      assert nodes[..] == above + row[i := value][i + 1 := value] + below;
    }
  }

  lemma OddOffset2(start: nat, i: nat)
    ensures start % 2 == 1 ==> ((start + i) % 2 == 1 <==> i % 2 == 0)
    ensures start == 0 && i == 0 ==> (start + i) % 2 == 0
  {
  }

  /** How a change of one entry shows in the padded layer. */
  lemma Duplicate(cur: seq<Hash>, i: nat, value: Hash)
    requires i < |cur|
    ensures i < |Padded(cur)|
    ensures if |cur| > 1 && i == |cur| - 1 && i % 2 == 0
            then i + 1 < |Padded(cur)| && Padded(cur[i := value]) == Padded(cur)[i := value][i + 1 := value]
            else Padded(cur[i := value]) == Padded(cur)[i := value]
  {
  }

  /** The hash the parent of a changed node gets. */
  function NewParent(pair: PairHash, cur: seq<Hash>, i: nat, v: Hash): Hash
    requires |cur| > 1 && i < |cur|
  {
    var p := Padded(cur[i := v]);
    BuddyInside(|cur|, i);
    PaddedEven(|cur|);
    pair(p[2 * (i / 2)], p[2 * (i / 2) + 1])
  }

  /** A changed node changes one node of the layer above. */
  lemma PathUp(pair: PairHash, cur: seq<Hash>, i: nat, v: Hash, below: seq<Hash>)
    requires |cur| > 1 && i < |cur|
    ensures i / 2 < |Up(pair, cur)| && 2 * (i / 2) + 1 < |Padded(cur[i := v])|
    ensures
      var row := Padded(cur[i := v]) + below;
      && NewParent(pair, cur, i, v) == pair(row[2 * (i / 2)], row[2 * (i / 2) + 1])
      && Above(pair, cur) + Padded(cur[i := v]) + below == Tree(pair, Up(pair, cur)) + row
    ensures Up(pair, cur[i := v]) == Up(pair, cur)[i / 2 := NewParent(pair, cur, i, v)]
    ensures Tree(pair, cur[i := v]) + below ==
            Tree(pair, Up(pair, cur)[i / 2 := NewParent(pair, cur, i, v)]) + (Padded(cur[i := v]) + below)
    ensures Sizes(|cur|)[1..] == Sizes(|Up(pair, cur)|)
  {
    BuddyInside(|cur|, i);
    PaddedEven(|cur|);
    UpChanges(pair, cur, i, v);
    LayerNodes(pair, cur[i := v], below);
    SizesUp(pair, cur);
  }

  lemma UpChanges(pair: PairHash, cur: seq<Hash>, i: nat, v: Hash)
    requires |cur| > 1 && i < |cur|
    ensures i / 2 < |Up(pair, cur)|
    ensures Up(pair, cur[i := v]) == Up(pair, cur)[i / 2 := NewParent(pair, cur, i, v)]
  {
    hide Padded, PaddedSize;
    BuddyInside(|cur|, i);
    PaddedEven(|cur|);
    Duplicate(cur, i, v);
    var p, q := Padded(cur), Padded(cur[i := v]);
    forall k | 0 <= k < |p| / 2 && k != i / 2
      ensures pair(p[2 * k], p[2 * k + 1]) == pair(q[2 * k], q[2 * k + 1])
    {
      assert 2 * k != i && 2 * k + 1 != i;
    }
  }

  // ---- verification ----

  /** Recompute the root from a leaf hash and its proof; the parity of the node's index in the array decides
      the order of the two halves. The index is never 0 on the way, since every layer passed starts at an odd
      index. */
  method Verify(pair: PairHash, root: Hash, data: Hash, proof: seq<Hash>, index: nat, n: nat) returns (ok: bool)
    ensures ok <==> Accepts(pair, root, data, proof, index, n)
  {
    hide Climb, Sizes, PaddedSizes, Sum;
    if index >= n {
      return false;
    }
    var layerSize, dataSize := LayerSizes(n);
    SizesMatch(n);
    if |layerSize| != |proof| + 1 {
      return false;
    }
    var start: nat := Sum(layerSize[1..]);
    var i: nat, acc: Hash := index, data;
    ghost var m: nat := n;
    assert layerSize[0..] == layerSize && proof[0..] == proof;
    for k := 0 to |proof|
      invariant 0 <= i < m && layerSize[k..] == PaddedSizes(m)
      invariant start == Sum(layerSize[k + 1..])
      invariant Climb(pair, acc, proof[k..], i) == Climb(pair, data, proof, index)
    {
      SizesAbove(m, layerSize[k..]);
      assert layerSize[k..][1..] == layerSize[k + 1..];
      var at: nat := start + i;
      assert at > 0;
      ClimbStep(pair, acc, proof[k..], i);
      OddOffset(start, i);
      acc := if at % 2 == 1 then pair(acc, proof[k]) else pair(proof[k], acc);
      assert proof[k..][1..] == proof[k + 1..];
      SumTail(layerSize[k + 1..]);
      assert layerSize[k + 1..][1..] == layerSize[k + 2..];
      start := start - layerSize[k + 1];
      i, m := i / 2, (m + 1) / 2;
    }
    ClimbEnd(pair, acc, i);
    ok := acc == root;
  }

  lemma SumTail(s: seq<nat>)
    requires s != []
    ensures Sum(s) == s[0] + Sum(s[1..])
  {
  }

  lemma ClimbStep(pair: PairHash, acc: Hash, proof: seq<Hash>, i: nat)
    requires proof != []
    ensures Climb(pair, acc, proof, i) == Climb(pair, Combine(pair, acc, proof[0], i), proof[1..], i / 2)
  {
  }

  lemma ClimbEnd(pair: PairHash, acc: Hash, i: nat)
    ensures Climb(pair, acc, [], i) == acc
  {
  }

  lemma SizesAbove(m: nat, layerSize: seq<nat>)
    requires m > 0 && layerSize == PaddedSizes(m) && |layerSize| > 1
    ensures m > 1 && layerSize[1..] == PaddedSizes((m + 1) / 2)
    ensures Sum(layerSize[1..]) % 2 == 1
  {
    TreeSize((a, b) => 0, seq((m + 1) / 2, _ => 0));
  }
}
