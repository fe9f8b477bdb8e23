/** Blocks that wait for missing parents or references. */
module BlockBuffers {
  import opened Common

  datatype Kind = Proposer | Voter | Transaction

  /** A block that must be in the chain first, and the kind of block it is looked up as. */
  datatype Need = Need(kind: Kind, hash: Hash)

  /** `needs` lists the parent first, then the references of the content in the order they are checked. */
  datatype Block = Block(hash: Hash, kind: Kind, needs: seq<Need>)

  // ---- what the buffer means: each waiting block with the hashes it waits for ----

  datatype Entry = Entry(block: Block, missing: set<Hash>)

  type Waiting = map<Hash, Entry>

  function Put(w: Waiting, block: Block, missing: set<Hash>): Waiting {
    w[block.hash := Entry(block, missing)]
  }

  /** The blocks whose last missing dependency this is. */
  function Woken(w: Waiting, h: Hash): set<Block> {
    set x | x in w && w[x].missing == {h} :: w[x].block
  }

  function Wake(w: Waiting, h: Hash): Waiting {
    map x | x in w && w[x].missing != {h} :: Entry(w[x].block, w[x].missing - {h})
  }

  ghost predicate Proper(w: Waiting) {
    forall x :: x in w ==> w[x].block.hash == x
  }

  /** `dependent` is the same relation read the other way. */
  ghost predicate Inverse(w: Waiting, dependent: map<Hash, set<Hash>>) {
    && (forall a, x :: a in dependent && x in dependent[a] ==> x in w && a in w[x].missing)
    && (forall x, a :: x in w && a in w[x].missing ==> a in dependent && x in dependent[a])
  }

  /** After the entries in `done` have been struck. */
  ghost function Strike(w: Waiting, h: Hash, done: set<Hash>): Waiting {
    map x | x in w && !(x in done && w[x].missing == {h}) ::
      if x in done then Entry(w[x].block, w[x].missing - {h}) else w[x]
  }

  ghost function Released(w: Waiting, h: Hash, done: set<Hash>): set<Block> {
    set x | x in w && x in done && w[x].missing == {h} :: w[x].block
  }

  lemma StrikeStart(w: Waiting, h: Hash)
    ensures Strike(w, h, {}) == w && Released(w, h, {}) == {}
  {
  }

  lemma StrikeStep(w: Waiting, h: Hash, done: set<Hash>, x: Hash)
    requires Proper(w) && x in w && x !in done && h in w[x].missing
    ensures x in Strike(w, h, done) && Strike(w, h, done)[x] == w[x] && w[x].block !in Released(w, h, done)
    ensures w[x].missing == {h} <==> w[x].missing - {h} == {}
    ensures Strike(w, h, done + {x}) ==
            if w[x].missing == {h} then Strike(w, h, done) - {x}
            else Strike(w, h, done)[x := Entry(w[x].block, w[x].missing - {h})]
    ensures Released(w, h, done + {x}) == Released(w, h, done) + if w[x].missing == {h} then {w[x].block} else {}
  {
    assert w[x].missing == (w[x].missing - {h}) + {h};
  }

  /** Striking exactly the dependents wakes whoever can be woken. */
  lemma StrikeAll(w: Waiting, dependent: map<Hash, set<Hash>>, h: Hash)
    requires Proper(w) && Inverse(w, dependent)
    ensures
      var done := if h in dependent then dependent[h] else {};
      Strike(w, h, done) == Wake(w, h) && Released(w, h, done) == Woken(w, h)
    ensures Proper(Wake(w, h)) && Inverse(Wake(w, h), dependent - {h})
  {
    var done := if h in dependent then dependent[h] else {};
    forall x | x in w
      ensures x !in done ==> h !in w[x].missing && w[x].missing - {h} == w[x].missing
      ensures x in done ==> h in w[x].missing
    {
    }
    assert forall b :: b in Released(w, h, done) <==> b in Woken(w, h);
  }

  lemma AddPair(w: Waiting, dependent: map<Hash, set<Hash>>, block: Block, missing: set<Hash>, dep: Hash)
    requires Inverse(Put(w, block, missing), dependent)
    ensures
      var was := if dep in dependent then dependent[dep] else {};
      Inverse(Put(w, block, missing + {dep}), dependent[dep := was + {block.hash}])
  {
    var was := if dep in dependent then dependent[dep] else {};
    var v, v', after := Put(w, block, missing), Put(w, block, missing + {dep}), dependent[dep := was + {block.hash}];
    forall a, x | a in after && x in after[a]
      ensures x in v' && a in v'[x].missing
    {
      if x != block.hash || a != dep {
        assert a in dependent && x in dependent[a];
        assert x in v && a in v[x].missing;
      }
    }
    forall x, a | x in v' && a in v'[x].missing
      ensures a in after && x in after[a]
    {
      if x != block.hash || a != dep { assert x in v && a in v[x].missing; }
    }
  }

  ghost function Of(blocks: map<Hash, Block>, dependency: map<Hash, set<Hash>>): Waiting
    requires blocks.Keys == dependency.Keys
  {
    map x | x in blocks :: Entry(blocks[x], dependency[x])
  }

  lemma OfPut(blocks: map<Hash, Block>, dependency: map<Hash, set<Hash>>, x: Hash, block: Block, missing: set<Hash>)
    requires blocks.Keys == dependency.Keys
    ensures Of(blocks[x := block], dependency[x := missing]) == Of(blocks, dependency)[x := Entry(block, missing)]
  {
  }

  lemma OfDrop(blocks: map<Hash, Block>, dependency: map<Hash, set<Hash>>, x: Hash, missing: set<Hash>)
    requires blocks.Keys == dependency.Keys
    ensures (blocks - {x}).Keys == (dependency[x := missing] - {x}).Keys
    ensures Of(blocks - {x}, dependency[x := missing] - {x}) == Of(blocks, dependency) - {x}
  {
  }

  lemma OfSet(blocks: map<Hash, Block>, dependency: map<Hash, set<Hash>>, x: Hash, missing: set<Hash>)
    requires blocks.Keys == dependency.Keys && x in blocks
    ensures blocks.Keys == dependency[x := missing].Keys
    ensures Of(blocks, dependency[x := missing]) == Of(blocks, dependency)[x := Entry(blocks[x], missing)]
  {
  }

  lemma OfAt(blocks: map<Hash, Block>, dependency: map<Hash, set<Hash>>, x: Hash)
    requires blocks.Keys == dependency.Keys
    ensures x in Of(blocks, dependency) <==> x in blocks
    ensures x in blocks ==> Of(blocks, dependency)[x] == Entry(blocks[x], dependency[x])
  {
  }

  lemma PutNothing(w: Waiting, dependent: map<Hash, set<Hash>>, block: Block)
    requires Inverse(w, dependent) && block.hash !in w
    ensures Inverse(Put(w, block, {}), dependent)
  {
  }

  class BlockBuffer {
    var blocks: map<Hash, Block>
    var dependency: map<Hash, set<Hash>>
    var dependent: map<Hash, set<Hash>>

    /** The two directions describe the same relation, without empty entries. */
    ghost predicate Valid()
      reads this
    {
      && blocks.Keys == dependency.Keys
      && Proper(Contents())
      && Inverse(Contents(), dependent)
    }

    ghost function Contents(): Waiting
      reads this
      requires blocks.Keys == dependency.Keys
    {
      Of(blocks, dependency)
    }

    constructor ()
      ensures Valid() && Contents() == map[]
    {
      blocks, dependency, dependent := map[], map[], map[];
    }

    /** Buffer a block that is not buffered yet. */
    method Insert(block: Block, dependencies: seq<Hash>)
      requires Valid() && block.hash !in blocks
      modifies this
      ensures Valid()
      ensures Contents() == Put(old(Contents()), block, Elems(dependencies))
    {
      hide Of, Inverse;
      var hash := block.hash;
      ghost var w0 := Contents();
      OfAt(blocks, dependency, hash);
      PutNothing(w0, dependent, block);
      OfPut(blocks, dependency, hash, block, Elems(dependencies));
      blocks := blocks[hash := block];
      var missing := {};
      for i := 0 to |dependencies|
        invariant missing == Elems(dependencies[..i])
        invariant blocks == old(blocks)[hash := block] && dependency == old(dependency)
        invariant Inverse(Put(w0, block, missing), dependent)
      {
        var dep := dependencies[i];
        assert Elems(dependencies[..i + 1]) == missing + {dep};
        AddPair(w0, dependent, block, missing, dep);
        missing := missing + {dep};
        ghost var before := dependent;
        if dep !in dependent {
          dependent := dependent[dep := {}];
        }
        dependent := dependent[dep := dependent[dep] + {hash}];
        assert dependent == before[dep := (if dep in before then before[dep] else {}) + {hash}];
      }
      assert dependencies[..|dependencies|] == dependencies;
      dependency := dependency[hash := missing];
    }

    /** A block has been processed: strike it from every waiting block, and release those that wait no longer. */
    method Satisfy(hash: Hash) returns (resolved: seq<Block>)
      requires Valid()
      modifies this
      ensures Valid()
      ensures Contents() == Wake(old(Contents()), hash)
      ensures NoDup(resolved) && Elems(resolved) == Woken(old(Contents()), hash)
    {
      hide Strike, Released, Wake, Woken, Inverse, Of, NoDup, Elems;
      NothingYet<Block>();
      ghost var w0 := Contents();
      resolved := [];
      if hash !in dependent {
        StrikeAll(w0, dependent, hash);
        StrikeStart(w0, hash);
        DropAbsent(dependent, hash);
        return;
      }
      var rest := dependent[hash];
      ghost var all := rest;
      ghost var done: set<Hash> := {};
      dependent := dependent - {hash};
      StrikeStart(w0, hash);
      while rest != {}
        invariant done + rest == all && done !! rest && dependent == old(dependent) - {hash}
        invariant blocks.Keys == dependency.Keys && Contents() == Strike(w0, hash, done)
        invariant NoDup(resolved) && Elems(resolved) == Released(w0, hash, done)
        decreases |rest|
      {
        var node :| node in rest;
        DependentWaits(w0, old(dependent), hash, node);
        StrikeStep(w0, hash, done, node);
        OfAt(blocks, dependency, node);
        OfSet(blocks, dependency, node, dependency[node] - {hash});
        OfDrop(blocks, dependency, node, dependency[node] - {hash});
        var missing := dependency[node] - {hash};
        dependency := dependency[node := missing];
        if missing == {} {
          Snoc(resolved, blocks[node]);
          dependency := dependency - {node};
          resolved := resolved + [blocks[node]];
          blocks := blocks - {node};
        }
        rest, done := rest - {node}, done + {node};
      }
      StrikeAll(w0, old(dependent), hash);
    }
  }

  lemma DependentWaits(w: Waiting, dependent: map<Hash, set<Hash>>, h: Hash, x: Hash)
    requires Inverse(w, dependent) && h in dependent && x in dependent[h]
    ensures x in w && h in w[x].missing
  {
  }

  lemma DropAbsent(dependent: map<Hash, set<Hash>>, h: Hash)
    requires h !in dependent
    ensures dependent - {h} == dependent
  {
  }

  lemma NothingYet<T>()
    ensures NoDup<T>([]) && Elems<T>([]) == {}
  {
  }

  lemma Snoc<T>(s: seq<T>, x: T)
    requires NoDup(s) && x !in Elems(s)
    ensures NoDup(s + [x]) && Elems(s + [x]) == Elems(s) + {x}
  {
  }
}
