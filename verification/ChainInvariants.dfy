/** What the block chain store keeps at every call boundary, stated over the values it stores. */
module ChainInvariants {
  import opened Common
  import L = Linearization
  import V = VoterTrees
  import opened VoteIndex

  // ---- proposer side ----

  /** Every proposer block but genesis sits one level above its parent, its first reference. */
  ghost predicate ProposersOk(d: L.Dag, genesis: Hash) {
    && L.Valid(d)
    && genesis in d.refs && d.refs[genesis] == [] && d.level[genesis] == 0
    && forall b {:trigger AboveParent(d, b)} :: b in d.refs && b != genesis ==> AboveParent(d, b)
  }

  ghost predicate AboveParent(d: L.Dag, b: Hash) {
    b in d.refs && b in d.level && d.refs[b] != [] && d.refs[b][0] in d.level && d.level[b] == d.level[d.refs[b][0]] + 1
  }

  /** The per-level lists hold every proposer block once, on every level up to the best. */
  ghost predicate TreeOk(tree: map<nat, seq<Hash>>, level: map<Hash, nat>, best: nat) {
    && (forall l: nat :: l in tree <==> l <= best)
    && (forall l :: l in tree ==> NoDup(tree[l]))
    && (forall l, p :: l in tree && p in tree[l] ==> p in level && level[p] == l)
    && (forall p :: p in level ==> level[p] in tree && p in tree[level[p]])
  }

  ghost function Added(d: L.Dag, b: Hash, refs: seq<Hash>, level: nat): L.Dag {
    L.Dag(d.refs[b := refs], d.level[b := level])
  }

  /** All references exist and lie below level `n`. */
  ghost predicate RefsBelow(d: L.Dag, refs: seq<Hash>, n: nat) {
    forall r {:trigger r in refs} :: r in refs ==> r in d.refs && r in d.level && d.level[r] < n
  }

  lemma AddedIsValid(d: L.Dag, b: Hash, refs: seq<Hash>, level: nat)
    requires L.Valid(d) && b !in d.refs
    requires RefsBelow(d, refs, level)
    ensures L.Valid(Added(d, b, refs, level)) && L.Agree(d, Added(d, b, refs, level))
  {
    var e := Added(d, b, refs, level);
    assert e.refs.Keys == d.refs.Keys + {b} && e.level.Keys == d.level.Keys + {b};
    forall x, r | x in e.refs && r in e.refs[x]
      ensures r in e.refs && e.level[r] < e.level[x]
    {
      if x != b { assert r in d.refs[x]; }
    }
  }

  lemma AboveParentFrame(d: L.Dag, b: Hash, refs: seq<Hash>, level: nat, x: Hash)
    requires AboveParent(d, x) && b !in d.refs && b !in d.level
    ensures AboveParent(Added(d, b, refs, level), x)
  {
  }

  /** A proposer block that passed the reference check keeps the DAG valid. */
  lemma AddProposer(d: L.Dag, genesis: Hash, b: Hash, refs: seq<Hash>)
    requires ProposersOk(d, genesis) && b !in d.refs
    requires refs != [] && refs[0] in d.refs
    requires RefsBelow(d, refs, d.level[refs[0]] + 1)
    ensures ProposersOk(Added(d, b, refs, d.level[refs[0]] + 1), genesis)
  {
    var l := d.level[refs[0]] + 1;
    AddedIsValid(d, b, refs, l);
    forall x | x in d.refs && x != genesis
      ensures AboveParent(Added(d, b, refs, l), x)
    {
      assert AboveParent(d, x);
      AboveParentFrame(d, b, refs, l, x);
    }
    assert AboveParent(Added(d, b, refs, l), b);
  }

  lemma AddToTree(tree: map<nat, seq<Hash>>, level: map<Hash, nat>, best: nat, b: Hash, l: nat)
    requires TreeOk(tree, level, best) && b !in level && l <= best + 1
    ensures TreeOk(tree[l := (if l in tree then tree[l] else []) + [b]], level[b := l], if l > best then l else best)
  {
    var list := (if l in tree then tree[l] else []) + [b];
    var tree' := tree[l := list];
    assert NoDup(list);
  }

  // ---- voter side ----

  /** `best[c]` is a block of chain `c` of maximal level, with that level. */
  ghost predicate BestOk(best: seq<(Hash, nat)>, t: V.VoterTree) {
    && (forall c :: 0 <= c < |best| ==> OnChain(t, best[c].0, c) && t.level[best[c].0] == best[c].1)
    && forall v :: v in t.level && v in t.chain ==> t.chain[v] < |best| && t.level[v] <= best[t.chain[v]].1
  }

  ghost predicate OnChain(t: V.VoterTree, v: Hash, c: nat) {
    v in t.level && v in t.chain && t.chain[v] == c
  }

  ghost predicate TipsOk(tips: seq<Hash>, t: V.VoterTree) {
    forall c :: 0 <= c < |tips| ==> OnChain(t, tips[c], c)
  }

  /** Blocks of a chain at a level, and blocks that vote for a proposer block. */
  ghost function BlocksAt(t: V.VoterTree, c: nat, l: nat): set<Hash> {
    set v | v in t.level && v in t.chain && t.chain[v] == c && t.level[v] == l
  }

  ghost function VotersOf(t: V.VoterTree, p: Hash): set<Hash> {
    set v | v in t.votes && p in t.votes[v]
  }

  function CountAt(counts: map<(nat, nat), nat>, c: nat, l: nat): nat {
    if (c, l) in counts then counts[(c, l)] else 0
  }

  function VotesFor(counts: map<Hash, nat>, p: Hash): nat {
    if p in counts then counts[p] else 0
  }

  ghost predicate CountsOk(levelCount: map<(nat, nat), nat>, voteCount: map<Hash, nat>, best: seq<(Hash, nat)>,
                           t: V.VoterTree) {
    && LevelCountsOk(levelCount, best, t)
    && (forall p: Hash :: VotesFor(voteCount, p) == |VotersOf(t, p)|)
  }

  ghost predicate LevelCountsOk(levelCount: map<(nat, nat), nat>, best: seq<(Hash, nat)>, t: V.VoterTree) {
    && (forall c: nat, l: nat :: CountAt(levelCount, c, l) == |BlocksAt(t, c, l)|)
    && (forall c: nat, l: nat :: 0 <= c < |best| && l <= best[c].1 ==> (c, l) in levelCount)
  }

  /** The main-chain votes of every chain at its ledger tip. */
  ghost function TipVotes(t: V.VoterTree, pl: map<Hash, nat>, genesis: seq<Hash>,
                          tips: seq<Hash>): (r: seq<map<Hash, nat>>)
    requires V.Valid(t, pl, genesis) && TipsOk(tips, t)
    ensures |r| == |tips|
  {
    seq(|tips|, c requires 0 <= c < |tips| => assert OnChain(t, tips[c], c); V.MainVotes(t, pl, genesis, tips[c]))
  }

  /** `u` holds everything `t` holds. */
  ghost predicate Extends(t: V.VoterTree, u: V.VoterTree) {
    && t.level.Keys <= u.level.Keys && t.votes.Keys <= u.votes.Keys && t.level.Keys <= t.votes.Keys
    && (forall v :: v in t.level ==> u.level[v] == t.level[v])
    && (forall v :: v in t.votes ==> u.votes[v] == t.votes[v])
    && (forall v :: v in t.level ==> (v in t.parent <==> v in u.parent))
    && (forall v :: v in t.parent && v in u.parent ==> u.parent[v] == t.parent[v])
  }

  lemma {:induction false} MainVotesFrame(t: V.VoterTree, pl: map<Hash, nat>, u: V.VoterTree, ql: map<Hash, nat>,
                                          genesis: seq<Hash>, v: Hash)
    requires V.Valid(t, pl, genesis) && V.Valid(u, ql, genesis) && Extends(t, u) && v in t.level
    ensures V.MainVotes(t, pl, genesis, v) == V.MainVotes(u, ql, genesis, v)
    decreases t.level[v]
  {
    if v in t.parent {
      assert V.ChildOk(t, pl, v);
      MainVotesFrame(t, pl, u, ql, genesis, t.parent[v]);
    }
  }

  lemma TipVotesFrame(t: V.VoterTree, pl: map<Hash, nat>, u: V.VoterTree, ql: map<Hash, nat>, genesis: seq<Hash>,
                      tips: seq<Hash>)
    requires V.Valid(t, pl, genesis) && V.Valid(u, ql, genesis) && Extends(t, u)
    requires TipsOk(tips, t) && TipsOk(tips, u)
    ensures TipVotes(t, pl, genesis, tips) == TipVotes(u, ql, genesis, tips)
  {
    forall c | 0 <= c < |tips|
      ensures TipVotes(t, pl, genesis, tips)[c] == TipVotes(u, ql, genesis, tips)[c]
    {
      assert OnChain(t, tips[c], c);
      MainVotesFrame(t, pl, u, ql, genesis, tips[c]);
    }
  }

  lemma VotesLevelsFrame(votes: seq<Hash>, pl: map<Hash, nat>, ql: map<Hash, nat>, from: nat, to: nat)
    requires V.VotesLevels(votes, pl, from, to) && forall p :: p in pl ==> p in ql && ql[p] == pl[p]
    ensures V.VotesLevels(votes, ql, from, to)
  {
  }

  /** A new proposer block leaves the voter trees valid. */
  lemma VotersKeepOnProposer(t: V.VoterTree, pl: map<Hash, nat>, ql: map<Hash, nat>, genesis: seq<Hash>)
    requires V.Valid(t, pl, genesis) && forall p :: p in pl ==> p in ql && ql[p] == pl[p]
    ensures V.Valid(t, ql, genesis)
  {
    forall c | 0 <= c < |genesis|
      ensures V.GenesisOk(t, ql, genesis[c], c)
    {
      assert V.GenesisOk(t, pl, genesis[c], c);
      VotesLevelsFrame(t.votes[genesis[c]], pl, ql, 0, 1);
    }
    forall v | v in t.parent
      ensures V.ChildOk(t, ql, v)
    {
      assert V.ChildOk(t, pl, v);
      var u := t.parent[v];
      VotesLevelsFrame(t.votes[v], pl, ql, t.voted[u] + 1, t.voted[v] + 1);
    }
  }

  ghost function Grown(t: V.VoterTree, v: Hash, parent: Hash, votes: seq<Hash>, voted: nat): V.VoterTree
    requires parent in t.level && parent in t.chain
  {
    V.VoterTree(t.level[v := t.level[parent] + 1], t.chain[v := t.chain[parent]], t.parent[v := parent],
                t.votes[v := votes], t.voted[v := voted])
  }

  lemma ChildFrame(t: V.VoterTree, pl: map<Hash, nat>, v: Hash, parent: Hash, votes: seq<Hash>, voted: nat, w: Hash)
    requires t.level.Keys == t.chain.Keys == t.votes.Keys == t.voted.Keys && parent in t.level && v !in t.level
    requires w in t.parent && w in t.level && V.ChildOk(t, pl, w)
    ensures
      var u := Grown(t, v, parent, votes, voted);
      && u.level.Keys == u.chain.Keys == u.votes.Keys == u.voted.Keys
      && w in u.parent && w in u.level && V.ChildOk(u, pl, w)
  {
    hide V.VotesLevels;
    GrownKeys(t, v, parent, votes, voted);
  }

  lemma GrownKeys(t: V.VoterTree, v: Hash, parent: Hash, votes: seq<Hash>, voted: nat)
    requires t.level.Keys == t.chain.Keys == t.votes.Keys == t.voted.Keys && parent in t.level
    ensures
      var u := Grown(t, v, parent, votes, voted);
      && u.level.Keys == u.chain.Keys == u.votes.Keys == u.voted.Keys == t.level.Keys + {v}
      && u.parent.Keys == t.parent.Keys + {v}
  {
  }

  lemma GrownChildren(t: V.VoterTree, pl: map<Hash, nat>, genesis: seq<Hash>, v: Hash, parent: Hash, votes: seq<Hash>,
                      voted: nat)
    requires V.Valid(t, pl, genesis) && v !in t.level && parent in t.level
    requires t.voted[parent] <= voted && V.VotesLevels(votes, pl, t.voted[parent] + 1, voted + 1)
    ensures
      var u := Grown(t, v, parent, votes, voted);
      && u.level.Keys == u.chain.Keys == u.votes.Keys == u.voted.Keys && u.parent.Keys <= u.level.Keys
      && forall w {:trigger V.ChildOk(u, pl, w)} :: w in u.parent ==> V.ChildOk(u, pl, w)
  {
    hide V.VotesLevels, V.GenesisOk;
    var u := Grown(t, v, parent, votes, voted);
    GrownKeys(t, v, parent, votes, voted);
    forall w | w in t.parent
      ensures w in u.parent && w in u.level && V.ChildOk(u, pl, w)
    {
      assert V.ChildOk(t, pl, w);
      ChildFrame(t, pl, v, parent, votes, voted, w);
    }
    assert V.ChildOk(u, pl, v);
  }

  /** A validated voter block keeps the voter trees valid. */
  lemma AddVoter(t: V.VoterTree, pl: map<Hash, nat>, genesis: seq<Hash>, v: Hash, parent: Hash, votes: seq<Hash>,
                 voted: nat)
    requires V.Valid(t, pl, genesis) && v !in t.level && parent in t.level
    requires t.voted[parent] <= voted && V.VotesLevels(votes, pl, t.voted[parent] + 1, voted + 1)
    ensures V.Valid(Grown(t, v, parent, votes, voted), pl, genesis)
    ensures Extends(t, Grown(t, v, parent, votes, voted))
  {
    GrownChildren(t, pl, genesis, v, parent, votes, voted);
    GrownExtends(t, v, parent, votes, voted);
    var u := Grown(t, v, parent, votes, voted);
    forall c | 0 <= c < |genesis|
      ensures V.GenesisOk(u, pl, genesis[c], c)
    {
      assert V.GenesisOk(t, pl, genesis[c], c);
    }
    forall w | w in u.level && w !in u.parent
      ensures u.chain[w] < |genesis| && w == genesis[u.chain[w]]
    {
      assert t.chain[w] == u.chain[w];
    }
  }

  lemma GrownExtends(t: V.VoterTree, v: Hash, parent: Hash, votes: seq<Hash>, voted: nat)
    requires t.level.Keys == t.chain.Keys == t.votes.Keys && t.parent.Keys <= t.level.Keys
    requires v !in t.level && parent in t.level
    ensures Extends(t, Grown(t, v, parent, votes, voted))
  {
  }

  lemma CountsGrow(t: V.VoterTree, v: Hash, parent: Hash, votes: seq<Hash>, voted: nat, c: nat, l: nat)
    requires v !in t.level && parent in t.level && parent in t.chain
    ensures |BlocksAt(Grown(t, v, parent, votes, voted), c, l)| ==
            |BlocksAt(t, c, l)| + if c == t.chain[parent] && l == t.level[parent] + 1 then 1 else 0
  {
    var u := Grown(t, v, parent, votes, voted);
    forall w
      ensures w in BlocksAt(u, c, l) <==>
                w in BlocksAt(t, c, l) || (w == v && c == t.chain[parent] && l == t.level[parent] + 1)
    {
    }
    if c == t.chain[parent] && l == t.level[parent] + 1 {
      assert BlocksAt(u, c, l) == BlocksAt(t, c, l) + {v};
    } else {
      assert BlocksAt(u, c, l) == BlocksAt(t, c, l);
    }
  }

  lemma VotersGrow(t: V.VoterTree, v: Hash, parent: Hash, votes: seq<Hash>, voted: nat, p: Hash)
    requires v !in t.votes && parent in t.level && parent in t.chain
    ensures |VotersOf(Grown(t, v, parent, votes, voted), p)| == |VotersOf(t, p)| + if p in votes then 1 else 0
  {
    var u := Grown(t, v, parent, votes, voted);
    forall w
      ensures w in VotersOf(u, p) <==> w in VotersOf(t, p) || (w == v && p in votes)
    {
    }
    if p in votes {
      assert VotersOf(u, p) == VotersOf(t, p) + {v};
    } else {
      assert VotersOf(u, p) == VotersOf(t, p);
    }
  }

  // ---- ledger side ----

  ghost predicate LeadersOk(d: L.Dag, leaders: map<nat, Hash>) {
    forall l :: l in leaders ==> leaders[l] in d.refs && leaders[l] in d.level && d.level[leaders[l]] == l
  }

  ghost predicate HasRun(leaders: map<nat, Hash>, n: nat) {
    forall l :: 0 <= l < n ==> l in leaders
  }

  ghost function Prefix(leaders: map<nat, Hash>, n: nat): (s: seq<Hash>)
    requires HasRun(leaders, n)
    ensures |s| == n && forall l :: 0 <= l < n ==> s[l] == leaders[l]
  {
    seq(n, l requires 0 <= l < n => leaders[l])
  }

  lemma PrefixIn(d: L.Dag, leaders: map<nat, Hash>, n: nat)
    requires LeadersOk(d, leaders) && HasRun(leaders, n)
    ensures L.LeadersOnLevel(d, Prefix(leaders, n)) && L.AllIn(d, Prefix(leaders, n))
  {
  }

  /** The from-scratch ledger of the first `n` leaders. */
  ghost function Scratch(d: L.Dag, leaders: map<nat, Hash>, n: nat): (r: seq<seq<Hash>>)
    requires L.Valid(d) && LeadersOk(d, leaders) && HasRun(leaders, n)
    ensures |r| == n
  {
    PrefixIn(d, leaders, n);
    L.Ledger(d, Prefix(leaders, n))
  }

  /** The stored per-level lists are exactly those of `ledger`. */
  ghost predicate Stored(order: map<nat, seq<Hash>>, ledger: seq<seq<Hash>>) {
    && (forall l: nat :: l in order <==> l < |ledger|)
    && (forall l :: 0 <= l < |ledger| ==> order[l] == ledger[l])
  }

  /** Stored order and unconfirmed set are those of the first `n` leaders, from scratch. */
  ghost predicate RunOk(d: L.Dag, leaders: map<nat, Hash>, order: map<nat, seq<Hash>>, n: nat, unconfirmed: set<Hash>)
    requires L.Valid(d)
  {
    && LeadersOk(d, leaders) && HasRun(leaders, n)
    && Stored(order, Scratch(d, leaders, n))
    && unconfirmed == d.refs.Keys - Elems(Flatten(Scratch(d, leaders, n)))
  }

  /** The whole from-scratch ledger repeats no block, keeps references first and stays in the DAG. */
  lemma ScratchIsTopological(d: L.Dag, leaders: map<nat, Hash>, n: nat)
    requires L.Valid(d) && LeadersOk(d, leaders) && HasRun(leaders, n)
    ensures L.Adds(d, {}, Flatten(Scratch(d, leaders, n)), n)
    ensures Elems(Flatten(Scratch(d, leaders, n))) <= d.refs.Keys
    ensures L.Closed(d, Elems(Flatten(Scratch(d, leaders, n))))
  {
    PrefixIn(d, leaders, n);
    L.LedgerIsTopological(d, Prefix(leaders, n));
    var flat := Flatten(Scratch(d, leaders, n));
    L.TopologicalCloses(d, {}, flat);
    assert {} + Elems(flat) == Elems(flat);
  }

  /** The confirmed set is closed under references, so the next level can be ordered against it. */
  lemma RunCloses(d: L.Dag, leaders: map<nat, Hash>, order: map<nat, seq<Hash>>, n: nat, unconfirmed: set<Hash>)
    requires L.Valid(d) && RunOk(d, leaders, order, n, unconfirmed)
    ensures d.refs.Keys - unconfirmed == Elems(Flatten(Scratch(d, leaders, n)))
    ensures L.Closed(d, d.refs.Keys - unconfirmed)
  {
    ScratchIsTopological(d, leaders, n);
    assert d.refs.Keys - unconfirmed == Elems(Flatten(Scratch(d, leaders, n)));
  }

  lemma ScratchStep(d: L.Dag, leaders: map<nat, Hash>, n: nat)
    requires L.Valid(d) && LeadersOk(d, leaders) && HasRun(leaders, n + 1)
    ensures HasRun(leaders, n) && leaders[n] in d.refs
    ensures Scratch(d, leaders, n + 1) ==
            Scratch(d, leaders, n) + [L.Visit(d, leaders[n], Elems(Flatten(Scratch(d, leaders, n))))]
  {
    assert HasRun(leaders, n);
    PrefixIn(d, leaders, n + 1);
    assert Prefix(leaders, n + 1)[..n] == Prefix(leaders, n);
  }

  lemma StoredStep(order: map<nat, seq<Hash>>, ledger: seq<seq<Hash>>, list: seq<Hash>, keys: set<Hash>,
                   unconfirmed: set<Hash>)
    requires Stored(order, ledger) && unconfirmed == keys - Elems(Flatten(ledger))
    ensures Stored(order[|ledger| := list], ledger + [list])
    ensures Flatten(ledger + [list]) == Flatten(ledger) + list
    ensures unconfirmed - Elems(list) == keys - Elems(Flatten(ledger + [list]))
  {
    StoredMore(order, ledger, list);
    hide Stored;
    assert (ledger + [list])[..|ledger|] == ledger;
    ElemsConcat(Flatten(ledger), list);
  }

  lemma StoredMore(order: map<nat, seq<Hash>>, ledger: seq<seq<Hash>>, list: seq<Hash>)
    requires Stored(order, ledger)
    ensures Stored(order[|ledger| := list], ledger + [list])
  {
  }

  lemma ElemsConcat(a: seq<Hash>, b: seq<Hash>)
    ensures Elems(a + b) == Elems(a) + Elems(b)
  {
  }

  lemma RunStep(d: L.Dag, leaders: map<nat, Hash>, order: map<nat, seq<Hash>>, n: nat, unconfirmed: set<Hash>,
                list: seq<Hash>)
    requires L.Valid(d) && RunOk(d, leaders, order, n, unconfirmed) && n in leaders && leaders[n] in d.refs
    requires list == L.Visit(d, leaders[n], d.refs.Keys - unconfirmed)
    ensures RunOk(d, leaders, order[n := list], n + 1, unconfirmed - Elems(list))
    ensures Flatten(Scratch(d, leaders, n + 1)) == Flatten(Scratch(d, leaders, n)) + list
  {
    RunCloses(d, leaders, order, n, unconfirmed);
    assert HasRun(leaders, n + 1);
    ScratchStep(d, leaders, n);
    StoredStep(order, Scratch(d, leaders, n), list, d.refs.Keys, unconfirmed);
  }

  lemma ScratchPrefix(d: L.Dag, leaders: map<nat, Hash>, n: nat, k: nat)
    requires L.Valid(d) && LeadersOk(d, leaders) && HasRun(leaders, n) && k <= n
    ensures HasRun(leaders, k) && Scratch(d, leaders, k) == Scratch(d, leaders, n)[..k]
  {
    assert HasRun(leaders, k);
    PrefixIn(d, leaders, n);
    L.LedgerPrefix(d, Prefix(leaders, n), k);
    assert Prefix(leaders, n)[..k] == Prefix(leaders, k);
  }

  /** The first levels do not depend on leaders above them. */
  lemma ScratchFrame(d: L.Dag, leaders: map<nat, Hash>, leaders': map<nat, Hash>, n: nat)
    requires L.Valid(d) && LeadersOk(d, leaders) && LeadersOk(d, leaders') && HasRun(leaders, n)
    requires forall l :: 0 <= l < n ==> l in leaders' && leaders'[l] == leaders[l]
    ensures HasRun(leaders', n) && Scratch(d, leaders, n) == Scratch(d, leaders', n)
  {
    assert HasRun(leaders', n);
    assert Prefix(leaders, n) == Prefix(leaders', n);
  }

  lemma CutSets(keys: set<Hash>, a: seq<Hash>, b: seq<Hash>)
    requires NoDup(a + b) && Elems(a + b) <= keys
    ensures keys - Elems(a + b) + Elems(b) == keys - Elems(a)
  {
    var flat := a + b;
    forall i, j | 0 <= i < |a| && 0 <= j < |b|
      ensures a[i] != b[j]
    {
      assert flat[i] != flat[|a| + j];
    }
    forall x | x in b
      ensures x in keys && x !in a
    {
      assert x in Elems(flat);
    }
    forall x ensures x in Elems(flat) <==> x in a || x in b {
    }
  }

  /** Deconfirming the levels from `k` leaves the run of the first `k` leaders. */
  lemma RunCut(d: L.Dag, leaders: map<nat, Hash>, order: map<nat, seq<Hash>>, n: nat, unconfirmed: set<Hash>, k: nat)
    requires L.Valid(d) && RunOk(d, leaders, order, n, unconfirmed) && k <= n
    ensures HasRun(leaders, k)
    ensures
      var all, kept := Scratch(d, leaders, n), Scratch(d, leaders, k);
      && kept == all[..k]
      && Flatten(all) == Flatten(kept) + Flatten(all[k..])
      && unconfirmed + Elems(Flatten(all[k..])) == d.refs.Keys - Elems(Flatten(kept))
  {
    ScratchPrefix(d, leaders, n, k);
    var all, kept := Scratch(d, leaders, n), Scratch(d, leaders, k);
    assert all == kept + all[k..];
    FlattenConcat(kept, all[k..]);
    ScratchIsTopological(d, leaders, n);
    CutSets(d.refs.Keys, Flatten(kept), Flatten(all[k..]));
  }

  /** Everything about the ledger: it is the from-scratch linearization of the longest leader run. */
  ghost predicate LedgerOk(d: L.Dag, leaders: map<nat, Hash>, order: map<nat, seq<Hash>>, tip: nat,
                           unconfirmed: set<Hash>)
    requires L.Valid(d)
  {
    && RunOk(d, leaders, order, tip + 1, unconfirmed)
    && tip + 1 !in leaders
  }

  ghost predicate KeepsLevels(d: L.Dag, e: L.Dag) {
    forall x :: x in d.level ==> x in e.level && e.level[x] == d.level[x]
  }

  /** A new proposer block changes nothing that is confirmed. */
  lemma LedgerKeepsOnProposer(d: L.Dag, e: L.Dag, leaders: map<nat, Hash>, order: map<nat, seq<Hash>>, tip: nat,
                              unconfirmed: set<Hash>, b: Hash)
    requires L.Valid(d) && L.Valid(e) && L.Agree(d, e) && LedgerOk(d, leaders, order, tip, unconfirmed)
    requires e.refs.Keys == d.refs.Keys + {b} && b !in d.refs
    requires KeepsLevels(d, e)
    ensures LedgerOk(e, leaders, order, tip, unconfirmed + {b})
    ensures Scratch(d, leaders, tip + 1) == Scratch(e, leaders, tip + 1)
  {
    hide L.Valid, L.Agree, L.Ledger, Stored;
    PrefixIn(d, leaders, tip + 1);
    PrefixIn(e, leaders, tip + 1);
    L.LedgerFrame(d, e, Prefix(leaders, tip + 1));
    ScratchIsTopological(d, leaders, tip + 1);
    var flat := Flatten(Scratch(d, leaders, tip + 1));
    assert b !in Elems(flat);
    assert unconfirmed + {b} == e.refs.Keys - Elems(flat);
  }

  // ---- transactions of the ledger ----

  function TransactionsOf(refs: map<Hash, seq<Hash>>, blocks: seq<Hash>): seq<Hash>
    requires forall b :: b in blocks ==> b in refs
  {
    if blocks == [] then [] else TransactionsOf(refs, blocks[..|blocks| - 1]) + refs[blocks[|blocks| - 1]]
  }

  /** The list of one block is exactly its stored references, in their order. */
  lemma TransactionsOne(refs: map<Hash, seq<Hash>>, b: Hash)
    requires b in refs
    ensures TransactionsOf(refs, [b]) == refs[b]
  {
    assert [b][..0] == [];
    assert TransactionsOf(refs, []) + refs[b] == refs[b];
  }

  lemma {:induction false} TransactionsConcat(refs: map<Hash, seq<Hash>>, a: seq<Hash>, b: seq<Hash>)
    requires forall x :: x in a + b ==> x in refs
    ensures forall x :: x in a ==> x in refs
    ensures forall x :: x in b ==> x in refs
    ensures TransactionsOf(refs, a + b) == TransactionsOf(refs, a) + TransactionsOf(refs, b)
  {
    forall x | x in a || x in b ensures x in refs { assert x in a + b; }
    if b == [] {
      assert a + b == a;
    } else {
      var k := |b| - 1;
      assert (a + b)[..|a + b| - 1] == a + b[..k];
      TransactionsConcat(refs, a, b[..k]);
    }
  }
}
