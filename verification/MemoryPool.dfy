/** The memory pool: transactions by hash, by input and by arrival, kept consistent by every operation. */
module MemoryPools {
  import opened Common
  import opened Utxo

  datatype Entry = Entry(transaction: Transaction, storageIndex: nat)

  // ---- what the pool means: its transactions in order of arrival ----

  datatype Item = Item(index: nat, hash: Hash, tx: Transaction)

  function Keep(order: seq<Item>, gone: set<Hash>): seq<Item> {
    if order == [] then [] else
      var last := order[|order| - 1];
      Keep(order[..|order| - 1], gone) + if last.hash in gone then [] else [last]
  }

  /** The coins a transaction creates, as a spender would name them. */
  function Outs(h: Hash, output: seq<Output>): seq<Input> {
    seq(|output|, k requires 0 <= k < |output| => Input(CoinId(h, k), output[k].value, output[k].recipient))
  }

  /** Which inputs those are: the coin with the transaction's hash and an output's index, value and recipient. */
  lemma OutsNamed(h: Hash, output: seq<Output>, p: Input)
    ensures p in Outs(h, output) <==>
              && p.coin.hash == h && p.coin.index < |output|
              && p.value == output[p.coin.index].value && p.owner == output[p.coin.index].recipient
  {
    var k := p.coin.index;
    if k < |output| {
      assert Outs(h, output)[k] == Input(CoinId(h, k), output[k].value, output[k].recipient);
    }
  }

  /** `p` is the input in question, or is created by a doomed transaction. */
  ghost predicate Doomed(order: seq<Item>, prevout: Input, gone: set<Hash>, p: Input) {
    p == prevout || exists it :: it in order && it.hash in gone && p in Outs(it.hash, it.tx.output)
  }

  /** Whoever spends a doomed coin is gone. */
  ghost predicate Closed(order: seq<Item>, prevout: Input, gone: set<Hash>) {
    forall it, p :: it in order && p in it.tx.input && Doomed(order, prevout, gone, p) ==> it.hash in gone
  }

  /** The least closed set: the transactions that spend the input, directly or through others in the pool. */
  ghost predicate Spenders(order: seq<Item>, prevout: Input, gone: set<Hash>) {
    && Closed(order, prevout, gone)
    && forall t: set<Hash> :: Closed(order, prevout, t) ==> gone <= t
  }

  /** That set. */
  ghost function SpendersOf(order: seq<Item>, prevout: Input): set<Hash> {
    set it | it in order && forall t: set<Hash> :: Closed(order, prevout, t) ==> it.hash in t :: it.hash
  }

  lemma SpendersUnique(order: seq<Item>, prevout: Input, gone: set<Hash>)
    requires Spenders(order, prevout, gone)
    ensures gone == SpendersOf(order, prevout)
  {
    hide Doomed;
    var there := set it | it in order && it.hash in gone :: it.hash;
    assert Closed(order, prevout, there) by {
      forall it, p | it in order && p in it.tx.input && Doomed(order, prevout, there, p)
        ensures it.hash in there
      {
        DoomedGrows(order, prevout, there, gone, p);
      }
    }
  }

  // ---- what a confirmed block takes out of the pool ----

  ghost function AfterInputs(order: seq<Item>, inputs: seq<Input>): seq<Item> {
    if inputs == [] then order else
      var rest := AfterInputs(order, inputs[..|inputs| - 1]);
      Keep(rest, SpendersOf(rest, inputs[|inputs| - 1]))
  }

  /** The transaction itself, then whatever spends one of its inputs, with all that depends on it. */
  ghost function AfterTransaction(hashOf: Transaction -> Hash, order: seq<Item>, t: Transaction): seq<Item> {
    AfterInputs(Keep(order, {hashOf(t)}), t.input)
  }

  ghost function AfterBlock(hashOf: Transaction -> Hash, order: seq<Item>, txs: seq<Transaction>): seq<Item> {
    if txs == [] then order else
      AfterTransaction(hashOf, AfterBlock(hashOf, order, txs[..|txs| - 1]), txs[|txs| - 1])
  }

  /** Confirmed, in conflict with the block, or dependent on something gone. */
  ghost predicate HasCause(hashOf: Transaction -> Hash, order: seq<Item>, txs: seq<Transaction>, gone: set<Hash>,
                           it: Item) {
    || (exists t :: t in txs && it.hash == hashOf(t))
    || (exists t, p :: t in txs && p in t.input && p in it.tx.input)
    || (exists d, p :: d in order && d.hash in gone && p in Outs(d.hash, d.tx.output) && p in it.tx.input)
  }

  ghost predicate ClosedForBlock(hashOf: Transaction -> Hash, order: seq<Item>, txs: seq<Transaction>,
                                 gone: set<Hash>) {
    forall it :: it in order && HasCause(hashOf, order, txs, gone, it) ==> it.hash in gone
  }

  /** Everything in `order` that is not in `rest` is in `gone`, and nothing new is in `rest`. */
  ghost predicate TakenFrom(order: seq<Item>, rest: seq<Item>, gone: set<Hash>) {
    && (forall it :: it in rest ==> it in order)
    && (forall it :: it in order ==> it in rest || it.hash in gone)
  }

  lemma KeepTakes(order: seq<Item>, rest: seq<Item>, out: set<Hash>, gone: set<Hash>)
    requires TakenFrom(order, rest, gone) && forall it :: it in rest && it.hash in out ==> it.hash in gone
    ensures TakenFrom(order, Keep(rest, out), gone)
  {
    forall it ensures it in Keep(rest, out) <==> it in rest && it.hash !in out { KeepIn(rest, out, it); }
  }

  lemma {:induction false} InputsTake(hashOf: Transaction -> Hash, order: seq<Item>, rest: seq<Item>,
                                      txs: seq<Transaction>,
                                      t: Transaction, n: nat, gone: set<Hash>)
    requires TakenFrom(order, rest, gone) && ClosedForBlock(hashOf, order, txs, gone) && t in txs && n <= |t.input|
    ensures TakenFrom(order, AfterInputs(rest, t.input[..n]), gone)
    decreases n
  {
    hide TakenFrom, HasCause;
    if n > 0 {
      InputsTake(hashOf, order, rest, txs, t, n - 1, gone);
      assert t.input[..n][..n - 1] == t.input[..n - 1];
      var cur, p := AfterInputs(rest, t.input[..n - 1]), t.input[n - 1];
      CauseCloses(hashOf, order, cur, txs, t, p, gone);
      KeepTakes(order, cur, SpendersOf(cur, p), gone);
    }
  }

  lemma CauseCloses(hashOf: Transaction -> Hash, order: seq<Item>, cur: seq<Item>, txs: seq<Transaction>,
                    t: Transaction,
                    p: Input, gone: set<Hash>)
    requires TakenFrom(order, cur, gone) && ClosedForBlock(hashOf, order, txs, gone) && t in txs && p in t.input
    ensures Closed(cur, p, gone)
  {
    forall it, q | it in cur && q in it.tx.input && Doomed(cur, p, gone, q)
      ensures it.hash in gone
    {
      assert HasCause(hashOf, order, txs, gone, it);
    }
  }

  /** Nothing is taken out without a cause: every set that contains the confirmed transactions, those in conflict
      with the block and those that depend on a member contains all that is gone. */
  lemma {:induction false} RemovedForCause(hashOf: Transaction -> Hash, order: seq<Item>, txs: seq<Transaction>, n: nat,
                                           gone: set<Hash>)
    requires ClosedForBlock(hashOf, order, txs, gone) && n <= |txs|
    ensures TakenFrom(order, AfterBlock(hashOf, order, txs[..n]), gone)
    decreases n
  {
    hide TakenFrom, HasCause;
    if n == 0 {
      NothingTaken(order, gone);
    } else {
      RemovedForCause(hashOf, order, txs, n - 1, gone);
      assert txs[..n][..n - 1] == txs[..n - 1];
      var cur, t := AfterBlock(hashOf, order, txs[..n - 1]), txs[n - 1];
      ConfirmedIsCause(hashOf, order, cur, txs, t, gone);
      KeepTakes(order, cur, {hashOf(t)}, gone);
      InputsTake(hashOf, order, Keep(cur, {hashOf(t)}), txs, t, |t.input|, gone);
      assert t.input[..|t.input|] == t.input;
    }
  }

  lemma NothingTaken(order: seq<Item>, gone: set<Hash>)
    ensures TakenFrom(order, order, gone)
  {
  }

  lemma ConfirmedIsCause(hashOf: Transaction -> Hash, order: seq<Item>, cur: seq<Item>, txs: seq<Transaction>,
                         t: Transaction, gone: set<Hash>)
    requires TakenFrom(order, cur, gone) && ClosedForBlock(hashOf, order, txs, gone) && t in txs
    ensures forall it :: it in cur && it.hash in {hashOf(t)} ==> it.hash in gone
  {
    forall it | it in cur && it.hash == hashOf(t)
      ensures it.hash in gone
    {
      assert HasCause(hashOf, order, txs, gone, it);
    }
  }

  // ---- consistency ----

  ghost predicate Sorted(order: seq<Item>, counter: nat) {
    && (forall i, j :: 0 <= i < j < |order| ==> order[i].index < order[j].index)
    && (forall i :: 0 <= i < |order| ==> order[i].index < counter)
  }

  ghost predicate HashOk(order: seq<Item>, byHash: map<Hash, Entry>) {
    && (forall it :: it in order ==> it.hash in byHash && byHash[it.hash] == Entry(it.tx, it.index))
    && (forall h :: h in byHash ==> exists it :: it in order && it.hash == h)
  }

  ghost predicate InputOk(order: seq<Item>, byInput: map<Input, Hash>) {
    && (forall it, p :: it in order && p in it.tx.input ==> p in byInput && byInput[p] == it.hash)
    && (forall p :: p in byInput ==> exists it :: it in order && p in it.tx.input)
  }

  ghost predicate StorageOk(order: seq<Item>, byStorageIndex: map<nat, Hash>) {
    && (forall it :: it in order ==> it.index in byStorageIndex && byStorageIndex[it.index] == it.hash)
    && (forall n :: n in byStorageIndex ==> exists it :: it in order && it.index == n)
  }

  lemma {:induction false} KeepIn(order: seq<Item>, gone: set<Hash>, it: Item)
    ensures it in Keep(order, gone) <==> it in order && it.hash !in gone
  {
    if order != [] {
      var k := |order| - 1;
      KeepIn(order[..k], gone, it);
      assert order == order[..k] + [order[k]];
    }
  }

  lemma {:induction false} KeepSorted(order: seq<Item>, gone: set<Hash>, counter: nat)
    requires Sorted(order, counter)
    ensures Sorted(Keep(order, gone), counter)
  {
    if order != [] {
      var k := |order| - 1;
      KeepSorted(order[..k], gone, counter);
      var kept := Keep(order[..k], gone);
      forall i | 0 <= i < |kept|
        ensures kept[i].index < order[k].index
      {
        KeepIn(order[..k], gone, kept[i]);
        assert kept[i] in order[..k];
      }
    }
  }

  /** Filtering twice is filtering by both sets. */
  lemma {:induction false} KeepTwice(order: seq<Item>, a: set<Hash>, b: set<Hash>)
    ensures Keep(Keep(order, a), b) == Keep(order, a + b)
  {
    if order != [] {
      var k := |order| - 1;
      var kept, last := Keep(order[..k], a), order[k];
      KeepTwice(order[..k], a, b);
      if last.hash !in a {
        assert (kept + [last])[..|kept|] == kept;
      } else {
        assert kept + [] == kept;
      }
    }
  }

  lemma {:induction false} KeepAll(order: seq<Item>, gone: set<Hash>)
    requires forall it :: it in order ==> it.hash !in gone
    ensures Keep(order, gone) == order
  {
    if order != [] {
      var k := |order| - 1;
      KeepAll(order[..k], gone);
      assert order == order[..k] + [order[k]];
    }
  }

  ghost predicate DistinctHashes(order: seq<Item>) {
    forall i, j :: 0 <= i < j < |order| ==> order[i].hash != order[j].hash
  }

  lemma SortedDistinct(order: seq<Item>, byHash: map<Hash, Entry>, counter: nat)
    requires Sorted(order, counter) && HashOk(order, byHash)
    ensures DistinctHashes(order)
  {
    forall i, j | 0 <= i < j < |order|
      ensures order[i].hash != order[j].hash
    {
      assert order[i] in order && order[j] in order && order[i].index < order[j].index;
    }
  }

  lemma {:induction false} KeepOne(order: seq<Item>, i: nat)
    requires DistinctHashes(order) && i < |order|
    ensures |Keep(order, {order[i].hash})| == |order| - 1
  {
    var k := |order| - 1;
    if i == k {
      KeepAll(order[..k], {order[k].hash});
    } else {
      KeepOne(order[..k], i);
    }
  }

  // ---- adding and dropping one transaction ----

  lemma AddSorted(order: seq<Item>, it: Item)
    requires Sorted(order, it.index)
    ensures Sorted(order + [it], it.index + 1)
  {
  }

  lemma AddHash(order: seq<Item>, it: Item, byHash: map<Hash, Entry>)
    requires HashOk(order, byHash) && it.hash !in byHash
    ensures HashOk(order + [it], byHash[it.hash := Entry(it.tx, it.index)])
  {
    var more, after := order + [it], byHash[it.hash := Entry(it.tx, it.index)];
    assert it in more && forall x :: x in more <==> x in order || x == it;
    forall h | h in after
      ensures exists x :: x in more && x.hash == h
    {
      if h != it.hash {
        var x :| x in order && x.hash == h;
        assert x in more;
      }
    }
  }

  lemma AddIndex(order: seq<Item>, it: Item, byStorageIndex: map<nat, Hash>)
    requires Sorted(order, it.index) && StorageOk(order, byStorageIndex)
    ensures StorageOk(order + [it], byStorageIndex[it.index := it.hash])
  {
    var more, after := order + [it], byStorageIndex[it.index := it.hash];
    assert it in more && forall x :: x in more <==> x in order || x == it;
    forall x | x in order
      ensures x.index < it.index
    {
      var i :| 0 <= i < |order| && order[i] == x;
    }
    hide Sorted;
    forall n | n in after
      ensures exists x :: x in more && x.index == n
    {
      if n != it.index {
        var x :| x in order && x.index == n;
        assert x in more;
      }
    }
  }

  lemma AddInputs(order: seq<Item>, it: Item, byInput: map<Input, Hash>, after: map<Input, Hash>)
    requires InputOk(order, byInput) && forall p :: p in it.tx.input ==> p !in byInput
    requires forall p :: p in after <==> p in byInput || p in it.tx.input
    requires forall p :: p in after ==> after[p] == if p in it.tx.input then it.hash else byInput[p]
    ensures InputOk(order + [it], after)
  {
    var more := order + [it];
    assert forall x :: x in more <==> x in order || x == it;
    forall p | p in after
      ensures exists x :: x in more && p in x.tx.input
    {
      if p in it.tx.input { assert it in more; }
      else { var x :| x in order && p in x.tx.input; assert x in more; }
    }
  }

  lemma DropKeeps(order: seq<Item>, it: Item, counter: nat, byHash: map<Hash, Entry>, byInput: map<Input, Hash>,
                  byStorageIndex: map<nat, Hash>)
    requires Sorted(order, counter) && HashOk(order, byHash) && InputOk(order, byInput)
              && StorageOk(order, byStorageIndex) && it in order
    ensures
      var rest := Keep(order, {it.hash});
      && Sorted(rest, counter) && |rest| == |order| - 1
      && HashOk(rest, byHash - {it.hash})
      && InputOk(rest, byInput - Elems(it.tx.input))
      && StorageOk(rest, byStorageIndex - {it.index})
  {
    var rest := Keep(order, {it.hash});
    SameHashSame(order, byHash);
    KeepSorted(order, {it.hash}, counter);
    SortedDistinct(order, byHash, counter);
    var i :| 0 <= i < |order| && order[i] == it;
    KeepOne(order, i);
    forall x ensures x in rest <==> x in order && x != it {
      KeepIn(order, {it.hash}, x);
      assert x in order && x.hash == it.hash ==> x == it;
    }
    hide Keep, Sorted;
    DropHash(order, rest, it, byHash);
    DropInput(order, rest, it, byHash, byInput);
    DropIndex(order, rest, it, byHash, byStorageIndex);
  }

  lemma SameHashSame(order: seq<Item>, byHash: map<Hash, Entry>)
    requires HashOk(order, byHash)
    ensures forall a, b :: a in order && b in order && a.hash == b.hash ==> a == b
  {
  }

  lemma DropHash(order: seq<Item>, rest: seq<Item>, it: Item, byHash: map<Hash, Entry>)
    requires HashOk(order, byHash) && it in order && forall x :: x in rest <==> x in order && x != it
    ensures HashOk(rest, byHash - {it.hash})
  {
    SameHashSame(order, byHash);
    forall h | h in byHash - {it.hash}
      ensures exists x :: x in rest && x.hash == h
    {
      var x :| x in order && x.hash == h;
      assert x in rest;
    }
  }

  lemma DropInput(order: seq<Item>, rest: seq<Item>, it: Item, byHash: map<Hash, Entry>, byInput: map<Input, Hash>)
    requires HashOk(order, byHash) && InputOk(order, byInput) && it in order && forall x :: x in rest <==>
              x in order && x != it
    ensures InputOk(rest, byInput - Elems(it.tx.input))
  {
    SameHashSame(order, byHash);
    forall x, p | x in rest && p in x.tx.input
      ensures p !in Elems(it.tx.input)
    {
      assert p in byInput && byInput[p] == x.hash;
    }
    forall p | p in byInput - Elems(it.tx.input)
      ensures exists x :: x in rest && p in x.tx.input
    {
      var x :| x in order && p in x.tx.input;
      assert x in rest;
    }
  }

  lemma DropIndex(order: seq<Item>, rest: seq<Item>, it: Item, byHash: map<Hash, Entry>, byStorageIndex: map<nat, Hash>)
    requires HashOk(order, byHash) && StorageOk(order, byStorageIndex) && it in order && forall x :: x in rest <==>
              x in order && x != it
    ensures StorageOk(rest, byStorageIndex - {it.index})
  {
    SameHashSame(order, byHash);
    forall n | n in byStorageIndex - {it.index}
      ensures exists x :: x in rest && x.index == n
    {
      var x :| x in order && x.index == n;
      assert x in rest;
    }
    forall x | x in rest
      ensures x.index != it.index
    {
      assert byStorageIndex[x.index] == x.hash;
    }
  }

  method RecordInputs(byInput: map<Input, Hash>, inputs: seq<Input>, hash: Hash) returns (after: map<Input, Hash>)
    ensures forall p :: p in after <==> p in byInput || p in inputs
    ensures forall p :: p in after ==> after[p] == if p in inputs then hash else byInput[p]
  {
    after := byInput;
    for i := 0 to |inputs|
      invariant forall p :: p in after <==> p in byInput || p in inputs[..i]
      invariant forall p :: p in after ==> after[p] == if p in inputs[..i] then hash else byInput[p]
    {
      assert inputs[..i + 1] == inputs[..i] + [inputs[i]];
      after := after[inputs[i] := hash];
    }
    assert inputs[..|inputs|] == inputs;
  }

  method ForgetInputs(byInput: map<Input, Hash>, inputs: seq<Input>) returns (after: map<Input, Hash>)
    ensures after == byInput - Elems(inputs)
  {
    after := byInput;
    for i := 0 to |inputs|
      invariant after == byInput - Elems(inputs[..i])
    {
      assert Elems(inputs[..i + 1]) == Elems(inputs[..i]) + {inputs[i]} by {
        assert inputs[..i + 1] == inputs[..i] + [inputs[i]];
      }
      after := after - {inputs[i]};
    }
    assert inputs[..|inputs|] == inputs;
  }

  // ---- the pool ----

  /** The transaction is in the pool, or shares an input with one that is. */
  ghost predicate Clashes(hashOf: Transaction -> Hash, order: seq<Item>, tx: Transaction) {
    exists it :: it in order && (it.hash == hashOf(tx) || exists p :: p in tx.input && p in it.tx.input)
  }

  class MemoryPool {
    const hashOf: Transaction -> Hash
    const maxTransactions: nat
    var numTransactions: nat
    var counter: nat
    var byHash: map<Hash, Entry>
    var byInput: map<Input, Hash>
    var byStorageIndex: map<nat, Hash>
    ghost var order: seq<Item>

    /** The three indexes and the counters describe the same list of transactions. */
    ghost predicate Valid()
      reads this
    {
      && Sorted(order, counter) && HashOk(order, byHash) && InputOk(order, byInput) && StorageOk(order, byStorageIndex)
      && numTransactions == |order| <= maxTransactions + 1
      && forall it :: it in order ==> it.hash == hashOf(it.tx)
    }

    constructor (hashOf: Transaction -> Hash, sizeLimit: nat)
      ensures Valid() && order == [] && this.hashOf == hashOf && maxTransactions == sizeLimit
    {
      this.hashOf, maxTransactions := hashOf, sizeLimit;
      numTransactions, counter, byHash, byInput, byStorageIndex := 0, 0, map[], map[], map[];
      order := [];
    }

    /** Append a transaction, unless the pool is over its limit already. The caller has excluded duplicates
        and double spends. */
    method Insert(tx: Transaction)
      requires Valid() && hashOf(tx) !in byHash && forall p :: p in tx.input ==> p !in byInput
      modifies this
      ensures Valid()
      ensures order == if |old(order)| > maxTransactions then old(order)
                else old(order) + [Item(old(counter), hashOf(tx), tx)]
      ensures counter == old(counter) + if |old(order)| > maxTransactions then 0 else 1
    {
      hide Sorted, HashOk, InputOk, StorageOk;
      if numTransactions > maxTransactions {
        return;
      }
      var hash := hashOf(tx);
      ghost var it := Item(counter, hash, tx);
      AddSorted(order, it);
      AddHash(order, it, byHash);
      AddIndex(order, it, byStorageIndex);
      var inputs := RecordInputs(byInput, tx.input, hash);
      AddInputs(order, it, byInput, inputs);
      byInput := inputs;
      byStorageIndex := byStorageIndex[counter := hash];
      byHash := byHash[hash := Entry(tx, counter)];
      counter, numTransactions := counter + 1, numTransactions + 1;
      order := order + [it];
    }

    /** Some input is recorded already, for whatever transaction. */
    method IsDoubleSpend(inputs: seq<Input>) returns (r: bool)
      requires Valid()
      ensures r <==> exists p, it :: p in inputs && it in order && p in it.tx.input
    {
      hide Sorted, HashOk, StorageOk;
      r := exists i :: 0 <= i < |inputs| && inputs[i] in byInput;
      if r {
        var i :| 0 <= i < |inputs| && inputs[i] in byInput;
        ghost var it :| it in order && inputs[i] in it.tx.input;
        assert inputs[i] in inputs;
      }
    }

    /** What the handler of new transactions does: insert what is neither known nor a double spend. */
    method NewTransaction(tx: Transaction)
      requires Valid()
      modifies this
      ensures Valid()
      ensures order == if Clashes(hashOf, old(order), tx) || |old(order)| > maxTransactions
                       then old(order) else old(order) + [Item(old(counter), hashOf(tx), tx)]
    {
      hide Sorted, StorageOk;
      var double := IsDoubleSpend(tx.input);
      if hashOf(tx) !in byHash && !double {
        Insert(tx);
      }
    }

    /** Take one transaction out of every index. */
    method RemoveAndGet(hash: Hash) returns (entry: Option<Entry>)
      requires Valid()
      modifies this
      ensures Valid() && order == Keep(old(order), {hash}) && counter == old(counter)
      ensures entry.Some? <==> exists it :: it in old(order) && it.hash == hash
      ensures entry.Some? ==> hash in old(byHash) && entry.value == old(byHash)[hash] && |order| < |old(order)|
    {
      hide Sorted, InputOk, StorageOk, Keep;
      if hash !in byHash {
        KeepAll(order, {hash});
        return None;
      }
      var found := byHash[hash];
      ghost var it :| it in order && it.hash == hash;
      DropKeeps(order, it, counter, byHash, byInput, byStorageIndex);
      ForgetKeeps(order, {hash}, hashOf);
      byHash := byHash - {hash};
      byInput := ForgetInputs(byInput, found.transaction.input);
      byStorageIndex := byStorageIndex - {found.storageIndex};
      numTransactions := numTransactions - 1;
      order := Keep(order, {hash});
      entry := Some(found);
    }

    /** Remove every transaction that spends the input, directly or through others in the pool, and nothing
        else; the rest stays in order. */
    method RemoveByInput(prevout: Input) returns (ghost gone: set<Hash>)
      requires Valid()
      modifies this
      ensures Valid() && counter == old(counter)
      ensures Spenders(old(order), prevout, gone) && order == Keep(old(order), gone)
    {
      hide Sorted, HashOk, InputOk, StorageOk, Keep, Doomed, Closed;
      ghost var all := order;
      var queue := [prevout];
      gone := {};
      KeepAll(all, gone);
      SameHashSame(all, byHash);
      StartSearch(all, prevout);
      while queue != []
        invariant Valid() && counter == old(counter) && order == Keep(all, gone)
        invariant Searched(all, prevout, gone, queue, order)
        decreases |order|, |queue|
      {
        var p := queue[0];
        assert queue == [p] + queue[1..];
        queue := queue[1..];
        assert ([p] + queue)[1..] == queue;
        if p in byInput {
          var hash := byInput[p];
          ghost var it := SpenderOf(order, byHash, byInput, p);
          SearchHit(all, prevout, gone, [p] + queue, order, p, it, byHash, byInput);
          KeepTwice(all, gone, {hash});
          var entry := RemoveAndGet(hash);
          queue := PushOuts(queue, hash, entry.value.transaction.output);
          gone := gone + {hash};
        } else {
          NoSpender(order, byInput, p);
          SearchMiss(all, prevout, gone, [p] + queue, order, p);
        }
      }
      SearchDone(all, prevout, gone, order);
    }

    /** What the handler of a new transaction block does: take out its transactions and everything in conflict
        with them. What is left keeps its order, and shares no transaction and no input with the block. */
    method RemoveConfirmed(txs: seq<Transaction>)
      requires Valid()
      modifies this
      ensures Valid() && order == AfterBlock(hashOf, old(order), txs)
      ensures forall t, it :: t in txs && it in order ==> NoConflict(hashOf, it, t)
    {
      hide Sorted, HashOk, InputOk, StorageOk, Keep, Spenders, NoConflict, AfterTransaction;
      ghost var all := order;
      for i := 0 to |txs|
        invariant Valid() && order == AfterBlock(hashOf, all, txs[..i])
        invariant forall t, it :: t in txs[..i] && it in order ==> NoConflict(hashOf, it, t)
      {
        ghost var before := order;
        RemoveConflicts(txs[i]);
        assert txs[..i + 1][..i] == txs[..i];
        assert forall t :: t in txs[..i + 1] <==> t in txs[..i] || t == txs[i];
      }
      assert txs[..|txs|] == txs;
    }

    method RemoveConflicts(tx: Transaction)
      requires Valid()
      modifies this
      ensures Valid() && order == AfterTransaction(hashOf, old(order), tx)
      ensures forall it :: it in order ==> it in old(order) && NoConflict(hashOf, it, tx)
    {
      hide Sorted, HashOk, InputOk, StorageOk, Keep, Spenders, SpendersOf;
      ghost var all := order;
      var entry := RemoveAndGet(hashOf(tx));
      ghost var start := order;
      forall it | it in order ensures it in all && it.hash != hashOf(tx) { KeepIn(all, {hashOf(tx)}, it); }
      for j := 0 to |tx.input|
        invariant Valid() && order == AfterInputs(start, tx.input[..j])
        invariant forall it :: it in order ==> it in all && it.hash != hashOf(tx)
        invariant forall it, k :: it in order && 0 <= k < j ==> tx.input[k] !in it.tx.input
      {
        ghost var before := order;
        ghost var more := RemoveByInput(tx.input[j]);
        SpendersUnique(before, tx.input[j], more);
        assert tx.input[..j + 1][..j] == tx.input[..j];
        forall it | it in order ensures it in before && tx.input[j] !in it.tx.input {
          KeepIn(before, more, it);
          SpenderGone(before, tx.input[j], more, it);
        }
      }
      assert tx.input[..|tx.input|] == tx.input;
    }

    /** The first `n` transactions in order of arrival. */
    method GetTransactions(n: nat) returns (txs: seq<Transaction>)
      requires Valid()
      ensures |txs| == if n <= |order| then n else |order|
      ensures forall i :: 0 <= i < |txs| ==> txs[i] == order[i].tx
    {
      hide Sorted, HashOk, InputOk, StorageOk, SplitAt;
      txs := [];
      SplitStart(order);
      for index := 0 to counter
        invariant |txs| <= n && |txs| <= |order|
        invariant forall k :: 0 <= k < |txs| ==> txs[k] == order[k].tx
        invariant |txs| < n ==> SplitAt(order, |txs|, index)
      {
        if |txs| < n {
          NextItem(order, counter, byHash, byStorageIndex, index, |txs|);
          if index in byStorageIndex {
            txs := txs + [byHash[byStorageIndex[index]].transaction];
          }
        }
      }
      if |txs| < n { SplitEnd(order, counter, |txs|); }
    }
  }

  lemma ForgetKeeps(order: seq<Item>, gone: set<Hash>, hashOf: Transaction -> Hash)
    requires forall it :: it in order ==> it.hash == hashOf(it.tx)
    ensures forall it :: it in Keep(order, gone) ==> it.hash == hashOf(it.tx)
  {
    forall it | it in Keep(order, gone) ensures it in order { KeepIn(order, gone, it); }
  }

  ghost predicate NoConflict(hashOf: Transaction -> Hash, it: Item, t: Transaction) {
    it.hash != hashOf(t) && forall p :: p in t.input ==> p !in it.tx.input
  }

  lemma SpenderGone(order: seq<Item>, prevout: Input, gone: set<Hash>, it: Item)
    requires Spenders(order, prevout, gone) && it in order && it.hash !in gone
    ensures prevout !in it.tx.input
  {
    assert Doomed(order, prevout, gone, prevout);
  }

  // ---- transitive removal ----

  /** The state of the search: what is queued is doomed, what is doomed and not queued has no spender left,
      and nothing was removed without need. */
  ghost predicate Searched(all: seq<Item>, prevout: Input, gone: set<Hash>, queue: seq<Input>, order: seq<Item>) {
    && (forall p :: p in queue ==> Doomed(all, prevout, gone, p))
    && (forall p, it :: Doomed(all, prevout, gone, p) && p !in queue && it in order ==> p !in it.tx.input)
    && (forall t: set<Hash> :: Closed(all, prevout, t) ==> gone <= t)
  }

  lemma StartSearch(all: seq<Item>, prevout: Input)
    ensures Searched(all, prevout, {}, [prevout], all)
  {
  }

  lemma SpenderOf(order: seq<Item>, byHash: map<Hash, Entry>, byInput: map<Input, Hash>, p: Input) returns (it: Item)
    requires HashOk(order, byHash) && InputOk(order, byInput) && p in byInput
    ensures it in order && p in it.tx.input && it.hash == byInput[p] && it.hash in byHash
              && byHash[it.hash] == Entry(it.tx, it.index)
  {
    it :| it in order && p in it.tx.input;
  }

  lemma NoSpender(order: seq<Item>, byInput: map<Input, Hash>, p: Input)
    requires InputOk(order, byInput) && p !in byInput
    ensures forall it :: it in order ==> p !in it.tx.input
  {
  }

  lemma SearchMiss(all: seq<Item>, prevout: Input, gone: set<Hash>, queue: seq<Input>, order: seq<Item>, p: Input)
    requires queue != [] && queue[0] == p && Searched(all, prevout, gone, queue, order)
    requires forall it :: it in order ==> p !in it.tx.input
    ensures Searched(all, prevout, gone, queue[1..], order)
  {
    hide Doomed, Closed;
    assert queue == [p] + queue[1..];
  }

  lemma DoomedGrows(all: seq<Item>, prevout: Input, gone: set<Hash>, more: set<Hash>, p: Input)
    requires gone <= more && Doomed(all, prevout, gone, p)
    ensures Doomed(all, prevout, more, p)
  {
  }

  lemma DoomedBy(all: seq<Item>, prevout: Input, gone: set<Hash>, it: Item, p: Input)
    requires it in all && forall x :: x in all && x.hash == it.hash ==> x == it
    ensures Doomed(all, prevout, gone + {it.hash}, p) <==>
              Doomed(all, prevout, gone, p) || p in Outs(it.hash, it.tx.output)
  {
  }

  /** The spender of a doomed coin goes, and the coins it creates are doomed too. */
  lemma SearchHit(all: seq<Item>, prevout: Input, gone: set<Hash>, queue: seq<Input>, order: seq<Item>, p: Input,
                  it: Item,
                  byHash: map<Hash, Entry>, byInput: map<Input, Hash>)
    requires HashOk(order, byHash) && InputOk(order, byInput)
    requires queue != [] && queue[0] == p && Searched(all, prevout, gone, queue, order)
    requires it in order && p in it.tx.input && order == Keep(all, gone)
    requires forall x, y :: x in all && y in all && x.hash == y.hash ==> x == y
    ensures Searched(all, prevout, gone + {it.hash}, queue[1..] + Outs(it.hash, it.tx.output), Keep(order, {it.hash}))
  {
    hide Keep, Doomed, Closed, Outs, HashOk;
    var rest, outs, less := queue[1..], Outs(it.hash, it.tx.output), Keep(order, {it.hash});
    assert queue == [p] + rest;
    KeepIn(all, gone, it);
    forall q ensures Doomed(all, prevout, gone + {it.hash}, q) <==> Doomed(all, prevout, gone, q) || q in outs {
      DoomedBy(all, prevout, gone, it, q);
    }
    forall x | x in less ensures x in order && x.hash != it.hash { KeepIn(order, {it.hash}, x); }
    forall x | x in less ensures p !in x.tx.input { assert p in byInput && byInput[p] == it.hash; }
    forall t: set<Hash> | Closed(all, prevout, t)
      ensures gone + {it.hash} <= t
    {
      DoomedGrows(all, prevout, gone, t, p);
      ClosedHas(all, prevout, t, it, p);
    }
  }

  lemma ClosedHas(all: seq<Item>, prevout: Input, t: set<Hash>, it: Item, p: Input)
    requires Closed(all, prevout, t) && it in all && p in it.tx.input && Doomed(all, prevout, t, p)
    ensures it.hash in t
  {
  }

  lemma SearchDone(all: seq<Item>, prevout: Input, gone: set<Hash>, order: seq<Item>)
    requires Searched(all, prevout, gone, [], order) && order == Keep(all, gone)
    ensures Spenders(all, prevout, gone)
  {
    hide Keep, Doomed;
    forall it, p | it in all && p in it.tx.input && Doomed(all, prevout, gone, p)
      ensures it.hash in gone
    {
      KeepIn(all, gone, it);
    }
  }

  method PushOuts(queue0: seq<Input>, h: Hash, output: seq<Output>) returns (queue: seq<Input>)
    ensures queue == queue0 + Outs(h, output)
  {
    queue := queue0;
    for k := 0 to |output|
      invariant queue == queue0 + Outs(h, output)[..k]
    {
      queue := queue + [Input(CoinId(h, k), output[k].value, output[k].recipient)];
    }
  }

  /** The first `i` transactions, and no others, arrived before `index`. */
  ghost predicate SplitAt(order: seq<Item>, i: nat, index: nat) {
    && i <= |order|
    && (forall k :: 0 <= k < i ==> order[k].index < index)
    && (forall k :: i <= k < |order| ==> order[k].index >= index)
  }

  lemma SplitStart(order: seq<Item>)
    ensures SplitAt(order, 0, 0)
  {
  }

  lemma IndexBelow(order: seq<Item>, counter: nat, k: nat)
    requires Sorted(order, counter) && k < |order|
    ensures order[k].index < counter
  {
  }

  lemma SplitEnd(order: seq<Item>, counter: nat, i: nat)
    requires Sorted(order, counter) && SplitAt(order, i, counter)
    ensures i == |order|
  {
    hide Sorted;
    if i < |order| { IndexBelow(order, counter, i); }
  }

  lemma SplitHere(order: seq<Item>, counter: nat, i: nat, index: nat, j: nat)
    requires Sorted(order, counter) && SplitAt(order, i, index) && j < |order| && order[j].index == index
    ensures j == i && SplitAt(order, i + 1, index + 1)
  {
    assert i <= j && order[i].index >= index;
    forall k | i < k < |order| ensures order[k].index >= index + 1 {
      assert order[i].index < order[k].index;
    }
  }

  /** The storage index visits the transactions in order of arrival. */
  lemma NextItem(order: seq<Item>, counter: nat, byHash: map<Hash, Entry>, byStorageIndex: map<nat, Hash>, index: nat,
                 i: nat)
    requires Sorted(order, counter) && HashOk(order, byHash) && StorageOk(order, byStorageIndex)
              && SplitAt(order, i, index)
    ensures index in byStorageIndex ==>
              && i < |order| && byStorageIndex[index] in byHash
                && byHash[byStorageIndex[index]].transaction == order[i].tx
              && SplitAt(order, i + 1, index + 1)
    ensures index !in byStorageIndex ==> SplitAt(order, i, index + 1)
  {
    hide Sorted;
    if index in byStorageIndex {
      var it :| it in order && it.index == index;
      var j :| 0 <= j < |order| && order[j] == it;
      SplitHere(order, counter, i, index, j);
    } else {
      forall k | i <= k < |order| ensures order[k].index >= index + 1 {
        assert order[k] in order && order[k].index >= index;
      }
      forall k | 0 <= k < i ensures order[k].index < index + 1 {}
    }
  }
}
