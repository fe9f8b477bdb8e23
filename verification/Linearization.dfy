/** The proposer DAG and the order in which a leader sequence confirms it.

    `Visit` is the reference definition: a depth-first post-order with a visited set. The node does not
    run it; it walks with an explicit stack that marks nothing as visited, reverses what it collected and
    keeps the first copy of every block. `OrderLevel` is that code, proved to return exactly `Visit`. */
module Linearization {
  import opened Common

  /** `refs` lists the proposer blocks a block refers to, parent first (empty for genesis). */
  datatype Dag = Dag(refs: map<Hash, seq<Hash>>, level: map<Hash, nat>)

  ghost predicate Valid(d: Dag) {
    && d.refs.Keys == d.level.Keys
    && (forall b, r {:trigger r in d.refs[b]} :: b in d.refs && r in d.refs[b] ==>
        r in d.refs && d.level[r] < d.level[b])
  }

  ghost predicate AllIn(d: Dag, s: seq<Hash>) {
    forall x :: x in s ==> x in d.refs
  }

  ghost predicate Below(d: Dag, s: seq<Hash>, n: nat) {
    forall x :: x in s ==> x in d.level && d.level[x] < n
  }

  // ---- reference definition ----

  /** The blocks first confirmed through `b` when `done` is confirmed already. */
  ghost function Visit(d: Dag, b: Hash, done: set<Hash>): seq<Hash>
    requires Valid(d) && b in d.refs
    decreases d.level[b], 1, 0
  {
    if b in done then [] else VisitAll(d, d.refs[b], d.level[b], done) + [b]
  }

  ghost function VisitAll(d: Dag, s: seq<Hash>, n: nat, done: set<Hash>): seq<Hash>
    requires Valid(d) && AllIn(d, s) && Below(d, s, n)
    decreases n, 0, |s|
  {
    if s == [] then [] else
      var first := Visit(d, s[0], done);
      first + VisitAll(d, s[1..], n, done + Elems(first))
  }

  /** Siblings are confirmed in the order in which a leader refers to them. */
  lemma SiblingsInOrder(d: Dag, g: Hash, a: Hash, b: Hash, leader: Hash)
    requires Valid(d) && g in d.refs && a in d.refs && b in d.refs && leader in d.refs
    requires g != a && g != b && a != b && leader != g
    requires d.refs[leader] == [g, a, b] && d.refs[a] == [g] && d.refs[b] == [g]
    ensures Visit(d, leader, {g}) == [a, b, leader]
  {
    hide Visit, VisitAll, Valid, AllIn, Below;
    assert g in d.refs[leader] && a in d.refs[leader] && b in d.refs[leader];
    ReferredBelow(d, leader, g);
    ReferredBelow(d, leader, a);
    ReferredBelow(d, leader, b);
    var n := d.level[leader];
    PairInOrder(d, g, a, b, n);
    VisitBase(d, g, leader, n, {g});
    VisitHead(d, g, [a, b], n, {g});
    assert {g} + Elems<Hash>([]) == {g} && [g] + [a, b] == [g, a, b];
  }

  lemma ReferredBelow(d: Dag, x: Hash, r: Hash)
    requires Valid(d) && x in d.refs && r in d.refs[x]
    ensures r in d.refs && r in d.level && x in d.level && d.level[r] < d.level[x]
  {
  }

  lemma PairInOrder(d: Dag, g: Hash, a: Hash, b: Hash, n: nat)
    requires Valid(d) && g in d.refs && a in d.refs && b in d.refs && g != a && g != b && a != b
    requires d.refs[a] == [g] && d.refs[b] == [g] && d.level[a] < n && d.level[b] < n
    ensures AllIn(d, [a, b]) && Below(d, [a, b], n) && VisitAll(d, [a, b], n, {g}) == [a, b]
  {
    NothingBelow(d, n);
    VisitOver(d, a, g, {g});
    VisitOver(d, b, g, {g, a});
    VisitBase(d, g, a, n, {g, a} + Elems([b]));
    hide Visit, VisitAll, Valid, AllIn, Below;
    VisitHead(d, b, [], n, {g, a});
    assert [b] + [] == [b];
    VisitHead(d, a, [b], n, {g});
    assert {g} + Elems([a]) == {g, a} && [a] + [b] == [a, b];
  }

  lemma NothingBelow(d: Dag, n: nat)
    ensures AllIn(d, []) && Below(d, [], n)
  {
  }

  lemma VisitBase(d: Dag, g: Hash, x: Hash, n: nat, done: set<Hash>)
    requires Valid(d) && g in d.refs && g in done && x in d.refs
    ensures Visit(d, g, done) == [] && VisitAll(d, [], n, done) == []
    ensures AllIn(d, d.refs[x]) && Below(d, d.refs[x], d.level[x])
    ensures x !in done ==> Visit(d, x, done) == VisitAll(d, d.refs[x], d.level[x], done) + [x]
  {
  }

  lemma VisitHead(d: Dag, x: Hash, rest: seq<Hash>, n: nat, done: set<Hash>)
    requires Valid(d) && x in d.refs && d.level[x] < n && AllIn(d, rest) && Below(d, rest, n)
    ensures AllIn(d, [x] + rest) && Below(d, [x] + rest, n)
    ensures VisitAll(d, [x] + rest, n, done) ==
            Visit(d, x, done) + VisitAll(d, rest, n, done + Elems(Visit(d, x, done)))
  {
    assert ([x] + rest)[1..] == rest;
  }

  lemma VisitOver(d: Dag, x: Hash, g: Hash, done: set<Hash>)
    requires Valid(d) && x in d.refs && g in d.refs && d.refs[x] == [g] && g in done && x !in done
    ensures Visit(d, x, done) == [x]
  {
    assert Visit(d, g, done) == [] && [g][1..] == [];
    assert VisitAll(d, [g], d.level[x], done) == [];
  }

  /** Every block of `s` comes after all blocks it refers to, counting `done` as earlier. */
  ghost predicate Topological(d: Dag, done: set<Hash>, s: seq<Hash>) {
    forall i :: 0 <= i < |s| ==> s[i] in d.refs && forall r :: r in d.refs[s[i]] ==> r in done || r in s[..i]
  }

  ghost predicate Closed(d: Dag, done: set<Hash>) {
    && done <= d.refs.Keys
    && forall b, r {:trigger r in d.refs[b]} :: b in done && r in d.refs[b] ==> r in done
  }

  lemma TopologicalConcat(d: Dag, done: set<Hash>, a: seq<Hash>, b: seq<Hash>)
    requires Topological(d, done, a) && Topological(d, done + Elems(a), b)
    ensures Topological(d, done, a + b)
  {
    var s := a + b;
    forall i | 0 <= i < |s|
      ensures s[i] in d.refs && forall r :: r in d.refs[s[i]] ==> r in done || r in s[..i]
    {
      if i < |a| {
        assert s[..i] == a[..i];
      } else {
        assert s[i] == b[i - |a|];
        assert s[..i] == a + b[..i - |a|];
      }
    }
  }

  lemma TopologicalCloses(d: Dag, done: set<Hash>, s: seq<Hash>)
    requires Closed(d, done) && Topological(d, done, s)
    ensures Closed(d, done + Elems(s))
  {
    forall b, r | b in done + Elems(s) && r in d.refs[b]
      ensures r in done + Elems(s)
    {
      if b !in done {
        var i :| 0 <= i < |s| && s[i] == b;
        assert r in done || r in s[..i];
      }
    }
  }

  /** What one visit adds: distinct new blocks in topological order, none above `b`, ending with `b`. */
  ghost predicate Adds(d: Dag, done: set<Hash>, s: seq<Hash>, n: nat) {
    && NoDup(s)
    && (forall x :: x in s ==> x !in done)
    && Topological(d, done, s)
    && Below(d, s, n)
  }

  lemma {:induction false} VisitAdds(d: Dag, b: Hash, done: set<Hash>)
    requires Valid(d) && b in d.refs && Closed(d, done)
    ensures Adds(d, done, Visit(d, b, done), d.level[b] + 1)
    ensures b !in done ==> var v := Visit(d, b, done); v != [] && v[|v| - 1] == b
    decreases d.level[b], 1, 0
  {
    if b !in done {
      var v := VisitAll(d, d.refs[b], d.level[b], done);
      VisitAllAdds(d, d.refs[b], d.level[b], done);
      assert b !in v;
      NoDupConcat(v, [b]);
      assert Topological(d, done + Elems(v), [b]) by {
        assert [b][..0] == [];
      }
      TopologicalConcat(d, done, v, [b]);
    }
  }

  lemma {:induction false} VisitAllAdds(d: Dag, s: seq<Hash>, n: nat, done: set<Hash>)
    requires Valid(d) && AllIn(d, s) && Below(d, s, n) && Closed(d, done)
    ensures Adds(d, done, VisitAll(d, s, n, done), n)
    ensures forall x :: x in s ==> x in done || x in VisitAll(d, s, n, done)
    decreases n, 0, |s|
  {
    if s != [] {
      var first := Visit(d, s[0], done);
      VisitAdds(d, s[0], done);
      TopologicalCloses(d, done, first);
      var done' := done + Elems(first);
      var rest := VisitAll(d, s[1..], n, done');
      VisitAllAdds(d, s[1..], n, done');
      NoDupConcat(first, rest);
      TopologicalConcat(d, done, first, rest);
      forall x | x in s
        ensures x in done || x in first + rest
      {
        if x != s[0] { assert x in s[1..]; }
      }
    }
  }

  /** The per-level ledger of a leader sequence, from scratch. */
  ghost function Ledger(d: Dag, leaders: seq<Hash>): (r: seq<seq<Hash>>)
    requires Valid(d) && AllIn(d, leaders)
    ensures |r| == |leaders|
  {
    if leaders == [] then [] else
      var before := Ledger(d, leaders[..|leaders| - 1]);
      before + [Visit(d, leaders[|leaders| - 1], Elems(Flatten(before)))]
  }

  /** `leaders[l]` is a block of level `l`, as an election on the blocks of level `l` guarantees. */
  ghost predicate LeadersOnLevel(d: Dag, leaders: seq<Hash>) {
    forall l :: 0 <= l < |leaders| ==> leaders[l] in d.refs && leaders[l] in d.level && d.level[leaders[l]] == l
  }

  lemma {:induction false} LedgerPrefix(d: Dag, leaders: seq<Hash>, k: nat)
    requires Valid(d) && AllIn(d, leaders) && k <= |leaders|
    ensures Ledger(d, leaders[..k]) == Ledger(d, leaders)[..k]
    decreases |leaders| - k
  {
    if k == |leaders| {
      assert leaders[..k] == leaders;
    } else {
      LedgerPrefix(d, leaders, k + 1);
      assert leaders[..k + 1][..k] == leaders[..k];
      assert Ledger(d, leaders)[..k + 1][..k] == Ledger(d, leaders)[..k];
    }
  }

  /** The whole ledger of any leader sequence: no block twice, every block after its parent and
      references, nothing above the last level, and each level's list ends with that level's leader. */
  lemma {:induction false} LedgerIsTopological(d: Dag, leaders: seq<Hash>)
    requires Valid(d) && LeadersOnLevel(d, leaders)
    ensures AllIn(d, leaders)
    ensures Adds(d, {}, Flatten(Ledger(d, leaders)), |leaders|)
    ensures forall l :: 0 <= l < |leaders| ==>
              var list := Ledger(d, leaders)[l];
              list != [] && list[|list| - 1] == leaders[l]
  {
    hide Closed, VisitAll, Visit;
    if leaders != [] {
      var n := |leaders| - 1;
      LedgerIsTopological(d, leaders[..n]);
      var before := Ledger(d, leaders[..n]);
      var flat := Flatten(before);
      TopologicalCloses(d, {}, flat);
      assert {} + Elems(flat) == Elems(flat);
      VisitAdds(d, leaders[n], Elems(flat));
      var last := Visit(d, leaders[n], Elems(flat));
      assert Ledger(d, leaders) == before + [last];
      assert (before + [last])[..n] == before;
      assert Flatten(before + [last]) == flat + last;
      NoDupConcat(flat, last);
      TopologicalConcat(d, {}, flat, last);
      forall l | 0 <= l < |leaders|
        ensures var list := Ledger(d, leaders)[l]; list != [] && list[|list| - 1] == leaders[l]
      {
        if l < n { assert leaders[..n][l] == leaders[l]; }
      }
    }
  }

  // ---- frame: blocks that arrive later, or at another node, do not matter ----

  /** The two DAGs store the same references for every block they both hold. */
  ghost predicate Agree(d: Dag, e: Dag) {
    forall b :: b in d.refs && b in e.refs ==> d.refs[b] == e.refs[b]
  }

  lemma {:induction false} VisitFrame(d: Dag, e: Dag, b: Hash, done: set<Hash>)
    requires Valid(d) && Valid(e) && Agree(d, e) && b in d.refs && b in e.refs
    ensures Visit(d, b, done) == Visit(e, b, done)
    decreases d.level[b], 1, 0
  {
    if b !in done {
      VisitAllFrame(d, e, d.refs[b], d.level[b], e.level[b], done);
    }
  }

  lemma {:induction false} VisitAllFrame(d: Dag, e: Dag, s: seq<Hash>, n: nat, m: nat, done: set<Hash>)
    requires Valid(d) && Valid(e) && Agree(d, e)
    requires AllIn(d, s) && Below(d, s, n) && AllIn(e, s) && Below(e, s, m)
    ensures VisitAll(d, s, n, done) == VisitAll(e, s, m, done)
    decreases n, 0, |s|
  {
    if s != [] {
      VisitFrame(d, e, s[0], done);
      VisitAllFrame(d, e, s[1..], n, m, done + Elems(Visit(d, s[0], done)));
    }
  }

  /** Two nodes whose leaders agree up to a level hold identical ledgers up to that level, whatever
      else each of them has received. */
  lemma {:induction false} LedgerFrame(d: Dag, e: Dag, leaders: seq<Hash>)
    requires Valid(d) && Valid(e) && Agree(d, e) && AllIn(d, leaders) && AllIn(e, leaders)
    ensures Ledger(d, leaders) == Ledger(e, leaders)
  {
    if leaders != [] {
      var n := |leaders| - 1;
      LedgerFrame(d, e, leaders[..n]);
      VisitFrame(d, e, leaders[n], Elems(Flatten(Ledger(d, leaders[..n]))));
    }
  }

  // ---- the stack walk of the node ----

  /** What the walk appends to `order` while it empties `stack` (top of the stack last). */
  ghost function Walk(d: Dag, stack: seq<Hash>, n: nat, unconfirmed: set<Hash>): seq<Hash>
    requires Valid(d) && AllIn(d, stack) && Below(d, stack, n)
    decreases n, |stack|
  {
    if stack == [] then [] else
      var top := stack[|stack| - 1];
      var rest := Walk(d, stack[..|stack| - 1], n, unconfirmed);
      if top !in unconfirmed then rest
      else [top] + Walk(d, d.refs[top], d.level[top], unconfirmed) + rest
  }

  lemma {:induction false} WalkBound(d: Dag, stack: seq<Hash>, n: nat, m: nat, unconfirmed: set<Hash>)
    requires Valid(d) && AllIn(d, stack) && Below(d, stack, n) && Below(d, stack, m)
    ensures Walk(d, stack, n, unconfirmed) == Walk(d, stack, m, unconfirmed)
    decreases |stack|
  {
    if stack != [] {
      WalkBound(d, stack[..|stack| - 1], n, m, unconfirmed);
    }
  }

  lemma {:induction false} WalkConcat(d: Dag, a: seq<Hash>, b: seq<Hash>, n: nat, unconfirmed: set<Hash>)
    requires Valid(d) && AllIn(d, a) && AllIn(d, b) && Below(d, a, n) && Below(d, b, n)
    ensures AllIn(d, a + b) && Below(d, a + b, n)
    ensures Walk(d, a + b, n, unconfirmed) == Walk(d, b, n, unconfirmed) + Walk(d, a, n, unconfirmed)
    decreases |b|
  {
    if b == [] {
      assert a + b == a;
    } else {
      var k := |b| - 1;
      WalkConcat(d, a, b[..k], n, unconfirmed);
      assert (a + b)[..|a + b| - 1] == a + b[..k];
      assert (a + b)[|a + b| - 1] == b[k];
    }
  }

  /** How many pops a walk from `b` takes at most: one plus those of its references. */
  ghost function Weight(d: Dag, b: Hash): (w: nat)
    requires Valid(d) && b in d.refs
    ensures w > 0
    decreases d.level[b], 1, 0
  {
    1 + WeightAll(d, d.refs[b], d.level[b])
  }

  ghost function WeightAll(d: Dag, s: seq<Hash>, n: nat): nat
    requires Valid(d) && AllIn(d, s) && Below(d, s, n)
    decreases n, 0, |s|
  {
    if s == [] then 0 else Weight(d, s[|s| - 1]) + WeightAll(d, s[..|s| - 1], n)
  }

  lemma {:induction false} WeightConcat(d: Dag, a: seq<Hash>, b: seq<Hash>, n: nat, m: nat)
    requires Valid(d) && AllIn(d, a) && AllIn(d, b) && Below(d, a, n) && Below(d, b, n) && Below(d, b, m)
    ensures AllIn(d, a + b) && Below(d, a + b, n)
    ensures WeightAll(d, a + b, n) == WeightAll(d, a, n) + WeightAll(d, b, m)
    decreases |b|
  {
    if b == [] {
      assert a + b == a;
    } else {
      var k := |b| - 1;
      WeightConcat(d, a, b[..k], n, m);
      assert (a + b)[..|a + b| - 1] == a + b[..k];
      assert (a + b)[|a + b| - 1] == b[k];
    }
  }

  /** `order.into_iter().filter(|h| unconfirmed.remove(h))`: keep the first copy of what is in `u`. */
  function KeepFirst(s: seq<Hash>, u: set<Hash>): seq<Hash> {
    if s == [] then []
    else if s[0] in u then [s[0]] + KeepFirst(s[1..], u - {s[0]})
    else KeepFirst(s[1..], u)
  }

  lemma {:induction false} KeepFirstConcat(a: seq<Hash>, b: seq<Hash>, u: set<Hash>)
    ensures KeepFirst(a + b, u) == KeepFirst(a, u) + KeepFirst(b, u - Elems(KeepFirst(a, u)))
  {
    if a == [] {
      assert a + b == b;
      assert u - Elems([]) == u;
    } else {
      assert (a + b)[1..] == a[1..] + b;
      if a[0] in u {
        KeepFirstConcat(a[1..], b, u - {a[0]});
        var k := KeepFirst(a[1..], u - {a[0]});
        assert u - {a[0]} - Elems(k) == u - Elems([a[0]] + k);
      } else {
        KeepFirstConcat(a[1..], b, u);
      }
    }
  }

  lemma {:induction false} KeepFirstNone(s: seq<Hash>, u: set<Hash>)
    requires forall x :: x in s ==> x !in u
    ensures KeepFirst(s, u) == []
  {
    if s != [] { KeepFirstNone(s[1..], u); }
  }

  /** A walk from confirmed or already collected blocks never meets a block outside a closed set. */
  lemma {:induction false} WalkStaysIn(d: Dag, stack: seq<Hash>, n: nat, unconfirmed: set<Hash>, done: set<Hash>)
    requires Valid(d) && AllIn(d, stack) && Below(d, stack, n) && Closed(d, done)
    requires forall x :: x in stack ==> x in done
    ensures forall x :: x in Walk(d, stack, n, unconfirmed) ==> x in done
    decreases n, |stack|
  {
    if stack != [] {
      var top := stack[|stack| - 1];
      WalkStaysIn(d, stack[..|stack| - 1], n, unconfirmed, done);
      WalkStaysIn(d, d.refs[top], d.level[top], unconfirmed, done);
    }
  }

  /** Reversing the duplicate-producing walk and keeping first copies is the memoised post-order.
      `u` is what is still unconfirmed when this part of the list is filtered. */
  lemma {:induction false} FilteredWalkIsVisitAll(d: Dag, s: seq<Hash>, n: nat, unconfirmed: set<Hash>, u: set<Hash>)
    requires Valid(d) && AllIn(d, s) && Below(d, s, n)
    requires u <= unconfirmed <= d.refs.Keys && Closed(d, d.refs.Keys - u)
    ensures KeepFirst(Reverse(Walk(d, s, n, unconfirmed)), u) == VisitAll(d, s, n, d.refs.Keys - u)
    decreases n, 0, |s|
  {
    if s != [] {
      var b := s[0];
      var rest := s[1..];
      assert s == [b] + rest;
      WalkConcat(d, [b], rest, n, unconfirmed);
      var wb, wr := Walk(d, [b], n, unconfirmed), Walk(d, rest, n, unconfirmed);
      ReverseConcat(wr, wb);
      KeepFirstConcat(Reverse(wb), Reverse(wr), u);
      FilteredWalkIsVisit(d, b, n, unconfirmed, u);
      var first := Visit(d, b, d.refs.Keys - u);
      var done := d.refs.Keys - u;
      VisitAdds(d, b, done);
      TopologicalCloses(d, done, first);
      var u' := u - Elems(first);
      assert Elems(first) <= d.refs.Keys;
      assert d.refs.Keys - u' == done + Elems(first);
      FilteredWalkIsVisitAll(d, rest, n, unconfirmed, u');
    }
  }

  lemma {:induction false} FilteredWalkIsVisit(d: Dag, b: Hash, n: nat, unconfirmed: set<Hash>, u: set<Hash>)
    requires Valid(d) && b in d.refs && d.level[b] < n
    requires u <= unconfirmed <= d.refs.Keys && Closed(d, d.refs.Keys - u)
    ensures KeepFirst(Reverse(Walk(d, [b], n, unconfirmed)), u) == Visit(d, b, d.refs.Keys - u)
    decreases d.level[b], 1, 0
  {
    var done := d.refs.Keys - u;
    assert [b][..0] == [];
    var w := Walk(d, [b], n, unconfirmed);
    if b in done {
      WalkStaysIn(d, [b], n, unconfirmed, done);
      KeepFirstNone(Reverse(w), u);
    } else {
      var below := Walk(d, d.refs[b], d.level[b], unconfirmed);
      assert b in unconfirmed && Walk(d, [b][..0], n, unconfirmed) == [];
      assert w == [b] + below;
      assert Reverse(w) == Reverse(below) + [b];
      KeepFirstConcat(Reverse(below), [b], u);
      FilteredWalkIsVisitAll(d, d.refs[b], d.level[b], unconfirmed, u);
      VisitAllAdds(d, d.refs[b], d.level[b], done);
    }
  }

  /** One iteration of the walk that collects `top` and pushes its references. */
  lemma WalkStep(d: Dag, order: seq<Hash>, stack: seq<Hash>, top: Hash, n: nat, unconfirmed: set<Hash>)
    requires Valid(d) && AllIn(d, stack + [top]) && Below(d, stack + [top], n) && top in unconfirmed
    ensures AllIn(d, stack + d.refs[top]) && Below(d, stack + d.refs[top], n)
    ensures order + [top] + Walk(d, stack + d.refs[top], n, unconfirmed)
              == order + Walk(d, stack + [top], n, unconfirmed)
    ensures WeightAll(d, stack + d.refs[top], n) < WeightAll(d, stack + [top], n)
  {
    var refs := d.refs[top];
    var full := stack + [top];
    assert top in full && forall x :: x in stack ==> x in full;
    assert full[..|full| - 1] == stack;
    WalkConcat(d, stack, refs, n, unconfirmed);
    WalkBound(d, refs, n, d.level[top], unconfirmed);
    WeightConcat(d, stack, refs, n, d.level[top]);
    var a, b := Walk(d, refs, n, unconfirmed), Walk(d, stack, n, unconfirmed);
    assert order + [top] + (a + b) == order + ([top] + a + b);
  }

  /** The walk of one level: pop, skip what is confirmed, collect, push the references. Nothing is marked,
      so a block can be collected many times; the loop ends because every pop lowers the total path weight
      of the stack. */
  method CollectOrder(d: Dag, leader: Hash, unconfirmed: set<Hash>) returns (order: seq<Hash>)
    requires Valid(d) && leader in d.refs
    ensures order == Walk(d, [leader], d.level[leader] + 1, unconfirmed)
  {
    ghost var n := d.level[leader] + 1;
    order := [];
    var stack := [leader];
    while stack != []
      invariant AllIn(d, stack) && Below(d, stack, n)
      invariant order + Walk(d, stack, n, unconfirmed) == Walk(d, [leader], n, unconfirmed)
      decreases WeightAll(d, stack, n)
    {
      ghost var before := stack;
      var top := stack[|stack| - 1];
      stack := stack[..|stack| - 1];
      assert before == stack + [top];
      if top in unconfirmed {
        WalkStep(d, order, stack, top, n, unconfirmed);
        order := order + [top];
        stack := stack + d.refs[top];
      }
    }
  }

  /** The filter of one level: keep a block the first time it is removed from the unconfirmed set. */
  method RemoveConfirmed(all: seq<Hash>, unconfirmed: set<Hash>) returns (kept: seq<Hash>, unconfirmed': set<Hash>)
    ensures kept == KeepFirst(all, unconfirmed)
    ensures unconfirmed' == unconfirmed - Elems(kept)
  {
    var i := 0;
    kept := [];
    unconfirmed' := unconfirmed;
    while i < |all|
      invariant 0 <= i <= |all|
      invariant kept + KeepFirst(all[i..], unconfirmed') == KeepFirst(all, unconfirmed)
      invariant unconfirmed' == unconfirmed - Elems(kept)
    {
      assert all[i..][1..] == all[i + 1..];
      if all[i] in unconfirmed' {
        unconfirmed' := unconfirmed' - {all[i]};
        kept := kept + [all[i]];
      }
      i := i + 1;
    }
  }

  /** One level of the ledger, as the node computes it: walk, reverse, keep first copies. */
  method OrderLevel(d: Dag, leader: Hash, unconfirmed: set<Hash>) returns (order: seq<Hash>, unconfirmed': set<Hash>)
    requires Valid(d) && leader in d.refs
    requires unconfirmed <= d.refs.Keys && Closed(d, d.refs.Keys - unconfirmed)
    ensures order == Visit(d, leader, d.refs.Keys - unconfirmed)
    ensures unconfirmed' == unconfirmed - Elems(order)
  {
    order := CollectOrder(d, leader, unconfirmed);
    FilteredWalkIsVisit(d, leader, d.level[leader] + 1, unconfirmed, unconfirmed);
    order, unconfirmed' := RemoveConfirmed(Reverse(order), unconfirmed);
  }
}
