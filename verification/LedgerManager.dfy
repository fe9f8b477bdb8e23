/** From block diffs to coins: the transactions of a ledger diff, the jobs they become, and what the coin
    set is once any sequence of diffs has been executed in parallel. */
module LedgerManager {
  import opened Common
  import opened Utxo
  import opened Rollback
  import opened Jobs
  import opened Store
  import opened Blockchain
  import opened ChainInvariants
  import opened Leader
  import opened Links
  import Dispatcher
  import Serializability
  import Liveness

  /** Only transaction content matters here. */
  datatype Body = Transactions(transactions: seq<Transaction>) | OtherBody

  type BlockDatabase = map<Hash, Body>
  type Hasher = Transaction -> Hash

  predicate IsTransactionBlock(blockdb: BlockDatabase, b: Hash) {
    b in blockdb && blockdb[b].Transactions?
  }

  predicate Holds(blockdb: BlockDatabase, blocks: seq<Hash>) {
    forall b :: b in blocks ==> IsTransactionBlock(blockdb, b)
  }

  function Hashed(hashOf: Hasher, ts: seq<Transaction>): seq<Tx> {
    seq(|ts|, i requires 0 <= i < |ts| => (ts[i], hashOf(ts[i])))
  }

  /** The transactions of a list of transaction blocks, with their hashes. */
  function Expand(blockdb: BlockDatabase, hashOf: Hasher, blocks: seq<Hash>): seq<Tx>
    requires Holds(blockdb, blocks)
  {
    if blocks == [] then [] else
      var k := |blocks| - 1;
      assert IsTransactionBlock(blockdb, blocks[k]);
      Expand(blockdb, hashOf, blocks[..k]) + Hashed(hashOf, blockdb[blocks[k]].transactions)
  }

  lemma {:induction false} ExpandConcat(blockdb: BlockDatabase, hashOf: Hasher, a: seq<Hash>, b: seq<Hash>)
    requires Holds(blockdb, a) && Holds(blockdb, b)
    ensures Holds(blockdb, a + b)
    ensures Expand(blockdb, hashOf, a + b) == Expand(blockdb, hashOf, a) + Expand(blockdb, hashOf, b)
  {
    hide Hashed;
    if b == [] {
      assert a + b == a;
    } else {
      var k := |b| - 1;
      assert (a + b)[..|a + b| - 1] == a + b[..k];
      ExpandConcat(blockdb, hashOf, a, b[..k]);
    }
  }

  /** How many transactions the first `k` blocks hold. */
  function Offset(blockdb: BlockDatabase, blocks: seq<Hash>, k: nat): nat
    requires Holds(blockdb, blocks) && k <= |blocks|
  {
    if k == 0 then 0 else
      assert IsTransactionBlock(blockdb, blocks[k - 1]);
      Offset(blockdb, blocks, k - 1) + |blockdb[blocks[k - 1]].transactions|
  }

  /** `txs` lists the transactions of all blocks, block after block, each with its hash, and nothing else. */
  ghost predicate Lists(blockdb: BlockDatabase, hashOf: Hasher, blocks: seq<Hash>, txs: seq<Tx>) {
    && Holds(blockdb, blocks)
    && |txs| == Offset(blockdb, blocks, |blocks|)
    && forall k, i :: 0 <= k < |blocks| && 0 <= i < |BodyAt(blockdb, blocks, k)| ==>
         ListsAt(blockdb, hashOf, blocks, txs, k, i)
  }

  /** Transaction `i` of block `k` comes right after those of the blocks before and the `i` before it. */
  ghost predicate ListsAt(blockdb: BlockDatabase, hashOf: Hasher, blocks: seq<Hash>, txs: seq<Tx>, k: nat, i: nat)
    requires Holds(blockdb, blocks) && k < |blocks| && i < |BodyAt(blockdb, blocks, k)|
  {
    var at, t := Offset(blockdb, blocks, k) + i, BodyAt(blockdb, blocks, k)[i];
    at < |txs| && txs[at] == (t, hashOf(t))
  }

  function BodyAt(blockdb: BlockDatabase, blocks: seq<Hash>, k: nat): seq<Transaction>
    requires Holds(blockdb, blocks) && k < |blocks|
  {
    assert IsTransactionBlock(blockdb, blocks[k]);
    blockdb[blocks[k]].transactions
  }

  lemma {:induction false} OffsetPrefix(blockdb: BlockDatabase, blocks: seq<Hash>, n: nat, k: nat)
    requires Holds(blockdb, blocks) && k <= n <= |blocks|
    ensures Offset(blockdb, blocks[..n], k) == Offset(blockdb, blocks, k)
    decreases k
  {
    if k > 0 {
      assert IsTransactionBlock(blockdb, blocks[k - 1]) && blocks[..n][k - 1] == blocks[k - 1];
      OffsetPrefix(blockdb, blocks, n, k - 1);
    }
  }

  /** Whatever is in the gathered list comes from one of the blocks, with its hash. */
  lemma {:induction false} ExpandFrom(blockdb: BlockDatabase, hashOf: Hasher, blocks: seq<Hash>, tx: Tx)
    returns (b: Hash)
    requires Holds(blockdb, blocks) && tx in Expand(blockdb, hashOf, blocks)
    ensures b in blocks && IsTransactionBlock(blockdb, b)
    ensures tx.0 in blockdb[b].transactions && tx.1 == hashOf(tx.0)
  {
    var n := |blocks| - 1;
    assert IsTransactionBlock(blockdb, blocks[n]);
    var here := Hashed(hashOf, blockdb[blocks[n]].transactions);
    if tx in here {
      b := blocks[n];
    } else {
      b := ExpandFrom(blockdb, hashOf, blocks[..n], tx);
    }
  }

  /** The gathered list, entry by entry. */
  lemma {:induction false} ExpandLists(blockdb: BlockDatabase, hashOf: Hasher, blocks: seq<Hash>)
    requires Holds(blockdb, blocks)
    ensures Lists(blockdb, hashOf, blocks, Expand(blockdb, hashOf, blocks))
  {
    if blocks != [] {
      var n := |blocks| - 1;
      var rest, txs := Expand(blockdb, hashOf, blocks[..n]), Expand(blockdb, hashOf, blocks);
      ExpandLists(blockdb, hashOf, blocks[..n]);
      OffsetPrefix(blockdb, blocks, n, n);
      assert |blocks[..n]| == n && |rest| == Offset(blockdb, blocks, n);
      assert txs == rest + Hashed(hashOf, BodyAt(blockdb, blocks, n));
      assert |txs| == |rest| + |BodyAt(blockdb, blocks, n)| == Offset(blockdb, blocks, |blocks|);
      forall k, i | 0 <= k < |blocks| && 0 <= i < |BodyAt(blockdb, blocks, k)|
        ensures ListsAt(blockdb, hashOf, blocks, txs, k, i)
      {
        OffsetPrefix(blockdb, blocks, n, k);
        if k < n {
          assert BodyAt(blockdb, blocks[..n], k) == BodyAt(blockdb, blocks, k);
          assert ListsAt(blockdb, hashOf, blocks[..n], rest, k, i);
        }
      }
    }
  }

  /** Look up every block and collect its transactions. A block that is missing, or no transaction block, stops
      the thread. */
  method Gather(blockdb: BlockDatabase, hashOf: Hasher, blocks: seq<Hash>) returns (r: Outcome<seq<Tx>>)
    ensures r.Panicked? <==> !Holds(blockdb, blocks)
    ensures r.Returned? ==> r.value == Expand(blockdb, hashOf, blocks) && Lists(blockdb, hashOf, blocks, r.value)
  {
    hide Lists;
    var txs := [];
    for i := 0 to |blocks|
      invariant Holds(blockdb, blocks[..i]) && txs == Expand(blockdb, hashOf, blocks[..i])
    {
      assert blocks[i] in blocks;
      if blocks[i] !in blockdb || !blockdb[blocks[i]].Transactions? {
        return Panicked;
      }
      assert blocks[..i + 1][..i] == blocks[..i];
      txs := txs + Hashed(hashOf, blockdb[blocks[i]].transactions);
    }
    assert blocks[..|blocks|] == blocks;
    ExpandLists(blockdb, hashOf, blocks);
    r := Returned(txs);
  }

  /** Additions first, then removals. */
  method GatherDiff(blockdb: BlockDatabase, hashOf: Hasher, added: seq<Hash>, removed: seq<Hash>)
    returns (r: Outcome<(seq<Tx>, seq<Tx>)>)
    ensures r.Panicked? <==> !(Holds(blockdb, added) && Holds(blockdb, removed))
    ensures r.Returned? ==> r.value == (Expand(blockdb, hashOf, added), Expand(blockdb, hashOf, removed))
  {
    var add := Gather(blockdb, hashOf, added);
    if add.Panicked? {
      return Panicked;
    }
    var remove := Gather(blockdb, hashOf, removed);
    if remove.Panicked? {
      return Panicked;
    }
    r := Returned((add.value, remove.value));
  }

  /** Some block of `blocks` refers to `b` as a transaction block, which it is not. */
  ghost predicate Misrefers(blockdb: BlockDatabase, refs: map<Hash, seq<Hash>>, blocks: seq<Hash>, b: Hash) {
    !IsTransactionBlock(blockdb, b) && exists p :: p in blocks && p in refs && b in refs[p]
  }

  lemma {:induction false} HoldsByBlock(blockdb: BlockDatabase, refs: map<Hash, seq<Hash>>, blocks: seq<Hash>)
    requires forall p :: p in blocks ==> p in refs
    ensures !Holds(blockdb, TransactionsOf(refs, blocks)) <==> exists b :: Misrefers(blockdb, refs, blocks, b)
  {
    forall b ensures b in TransactionsOf(refs, blocks) <==> exists p :: p in blocks && b in refs[p] {
      ReferredBy(refs, blocks, b);
    }
    hide TransactionsOf, IsTransactionBlock;
    var all := TransactionsOf(refs, blocks);
    if !Holds(blockdb, all) {
      var b :| b in all && !IsTransactionBlock(blockdb, b);
      assert Misrefers(blockdb, refs, blocks, b);
    }
    if b :| Misrefers(blockdb, refs, blocks, b) {
      assert b in all;
    }
  }

  lemma {:induction false} ReferredBy(refs: map<Hash, seq<Hash>>, blocks: seq<Hash>, b: Hash)
    requires forall p :: p in blocks ==> p in refs
    ensures b in TransactionsOf(refs, blocks) <==> exists p :: p in blocks && b in refs[p]
  {
    if blocks != [] {
      var k := |blocks| - 1;
      assert blocks[k] in blocks && blocks == blocks[..k] + [blocks[k]];
      ReferredBy(refs, blocks[..k], b);
    }
  }

  /** The ledger as a list of transactions. */
  ghost function FullLedger(blockdb: BlockDatabase, hashOf: Hasher, c: Config, s: State): seq<Tx>
    requires Inv(c, s) && Holds(blockdb, TransactionLedger(c, s))
  {
    Expand(blockdb, hashOf, TransactionLedger(c, s))
  }

  /** A diff cuts the end off one ledger and puts a new end on. */
  ghost predicate Diff(before: seq<Tx>, removed: seq<Tx>, added: seq<Tx>, after: seq<Tx>) {
    exists kept :: before == kept + removed && after == kept + added
  }

  /** Where the gathered transactions of a ledger diff take the list of transactions. */
  lemma GatheredDiff(blockdb: BlockDatabase, hashOf: Hasher, c: Config, s: State, s': State, diff: ProposerDiff,
                     added: seq<Hash>, removed: seq<Hash>)
    requires Inv(c, s) && Inv(c, s') && DiffOf(c, s, s', diff, added, removed)
    requires Holds(blockdb, TransactionLedger(c, s)) && Holds(blockdb, added)
    ensures Holds(blockdb, TransactionLedger(c, s')) && Holds(blockdb, removed)
    ensures Diff(FullLedger(blockdb, hashOf, c, s), Expand(blockdb, hashOf, removed), Expand(blockdb, hashOf, added),
                 FullLedger(blockdb, hashOf, c, s'))
  {
    hide Inv, TransactionLedger, LedgerOf, Hashed, IsTransactionBlock;
    var kept :| TransactionLedger(c, s) == kept + removed && TransactionLedger(c, s') == kept + added;
    forall b | b in kept || b in removed ensures b in TransactionLedger(c, s) {}
    ExpandConcat(blockdb, hashOf, kept, removed);
    ExpandConcat(blockdb, hashOf, kept, added);
  }

  /** Update the ledger and list the transactions that joined and left it. It stops the thread exactly when a
      proposer block in the diff refers to something that is no transaction block. */
  method UpdateTransactionSequence(blockdb: BlockDatabase, hashOf: Hasher, chain: BlockChain)
    returns (r: Outcome<(seq<Tx>, seq<Tx>)>, ghost diff: ProposerDiff)
    requires chain.Valid()
    modifies chain
    ensures chain.Valid() && chain.db.transactionRefs == old(chain.db.transactionRefs)
    ensures exists added, removed :: DiffOf(chain.config, old(chain.S()), chain.S(), diff, added, removed)
    ensures r.Panicked? <==> exists b :: Misrefers(blockdb, chain.db.transactionRefs, diff.confirmed + diff.deconfirmed,
                                                   b)
    ensures r.Returned? && old(Holds(blockdb, TransactionLedger(chain.config, chain.S()))) ==>
              && Holds(blockdb, TransactionLedger(chain.config, chain.S()))
              && Diff(old(FullLedger(blockdb, hashOf, chain.config, chain.S())), r.value.1, r.value.0,
                      FullLedger(blockdb, hashOf, chain.config, chain.S()))
  {
    hide Inv, TransactionLedger, LedgerOf, LinksOk, Holds, Sound, Misrefers;
    ghost var s := chain.S();
    var added, removed, range, d := chain.UpdateLedger();
    diff := d;
    r := GatherDiff(blockdb, hashOf, added, removed);
    PanicsByBlock(blockdb, chain.db.transactionRefs, diff);
    if r.Returned? && Holds(blockdb, TransactionLedger(chain.config, s)) {
      GatheredDiff(blockdb, hashOf, chain.config, s, chain.S(), diff, added, removed);
    }
  }

  lemma PanicsByBlock(blockdb: BlockDatabase, refs: map<Hash, seq<Hash>>, diff: ProposerDiff)
    requires forall p :: p in diff.confirmed || p in diff.deconfirmed ==> p in refs
    ensures !(Holds(blockdb, TransactionsOf(refs, diff.confirmed))
              && Holds(blockdb, TransactionsOf(refs, diff.deconfirmed))) <==>
            exists b :: Misrefers(blockdb, refs, diff.confirmed + diff.deconfirmed, b)
  {
    hide TransactionsOf, Holds, IsTransactionBlock;
    HoldsByBlock(blockdb, refs, diff.confirmed);
    HoldsByBlock(blockdb, refs, diff.deconfirmed);
    forall b
      ensures Misrefers(blockdb, refs, diff.confirmed + diff.deconfirmed, b) <==>
              Misrefers(blockdb, refs, diff.confirmed, b) || Misrefers(blockdb, refs, diff.deconfirmed, b)
    {
      MisrefersConcat(blockdb, refs, diff.confirmed, diff.deconfirmed, b);
    }
    hide Misrefers;
  }

  lemma MisrefersConcat(blockdb: BlockDatabase, refs: map<Hash, seq<Hash>>, x: seq<Hash>, y: seq<Hash>, b: Hash)
    ensures Misrefers(blockdb, refs, x + y, b) <==> Misrefers(blockdb, refs, x, b) || Misrefers(blockdb, refs, y, b)
  {
    assert forall p :: p in x + y <==> p in x || p in y;
  }

  // ---- jobs ----

  function ToJobs(add: bool, txs: seq<Tx>): seq<Job> {
    seq(|txs|, i requires 0 <= i < |txs| => Job(add, txs[i].0, txs[i].1))
  }

  /** Removed transactions last one first, then the added ones. */
  function DiffJobs(removed: seq<Tx>, added: seq<Tx>): seq<Job> {
    ToJobs(false, Reverse(removed)) + ToJobs(true, added)
  }

  lemma {:induction false} ExecConcat(m: Coins, a: seq<Job>, b: seq<Job>)
    ensures ExecAll(m, a + b) == ExecAll(ExecAll(m, a), b)
    decreases |a|
  {
    if a == [] {
      assert a + b == b;
    } else {
      assert (a + b)[1..] == a[1..] + b;
      ExecConcat(Exec(m, a[0]), a[1..], b);
    }
  }

  lemma {:induction false} AddsReplay(m: Coins, txs: seq<Tx>)
    ensures ExecAll(m, ToJobs(true, txs)) == ApplyAll(m, txs)
  {
    if txs != [] {
      var k := |txs| - 1;
      AddsReplay(m, txs[..k]);
      assert ToJobs(true, txs) == ToJobs(true, txs[..k]) + [Job(true, txs[k].0, txs[k].1)];
      ExecSnoc(m, ToJobs(true, txs[..k]), Job(true, txs[k].0, txs[k].1));
    }
  }

  lemma {:induction false} RemovesUndo(m: Coins, txs: seq<Tx>)
    ensures ExecAll(m, ToJobs(false, Reverse(txs))) == UndoAll(m, txs)
    decreases |txs|
  {
    if txs != [] {
      var k := |txs| - 1;
      var jobs := ToJobs(false, Reverse(txs));
      assert jobs[1..] == ToJobs(false, Reverse(txs[..k]));
      RemovesUndo(Undo(m, txs[k].0, txs[k].1), txs[..k]);
    }
  }

  lemma DiffExec(m: Coins, removed: seq<Tx>, added: seq<Tx>)
    ensures ExecAll(m, DiffJobs(removed, added)) == ApplyAll(UndoAll(m, removed), added)
  {
    ExecConcat(m, ToJobs(false, Reverse(removed)), ToJobs(true, added));
    RemovesUndo(m, removed);
    AddsReplay(UndoAll(m, removed), added);
  }

  // ---- any number of diffs ----

  /** `ledgers[i]` is the ledger before diff `i`; the first one is empty. */
  ghost predicate History(ledgers: seq<seq<Tx>>, diffs: seq<(seq<Tx>, seq<Tx>)>) {
    && |ledgers| == |diffs| + 1 && ledgers[0] == []
    && forall i :: 0 <= i < |diffs| ==> Diff(ledgers[i], diffs[i].0, diffs[i].1, ledgers[i + 1])
  }

  function AllJobs(diffs: seq<(seq<Tx>, seq<Tx>)>): seq<Job> {
    if diffs == [] then [] else
      var k := |diffs| - 1;
      AllJobs(diffs[..k]) + DiffJobs(diffs[k].0, diffs[k].1)
  }

  /** Serial execution of every diff gives the replay of the last ledger, whatever was confirmed and
      deconfirmed in between. */
  lemma {:induction false} SerialReplays(init: Coins, ledgers: seq<seq<Tx>>, diffs: seq<(seq<Tx>, seq<Tx>)>)
    requires History(ledgers, diffs) && forall i :: 0 <= i < |ledgers| ==> WellBehaved(init, ledgers[i])
    ensures ExecAll(init, AllJobs(diffs)) == ApplyAll(init, ledgers[|diffs|])
  {
    hide WellBehaved;
    if diffs != [] {
      var k := |diffs| - 1;
      SerialReplays(init, ledgers[..k + 1], diffs[..k]);
      ExecConcat(init, AllJobs(diffs[..k]), DiffJobs(diffs[k].0, diffs[k].1));
      DiffExec(ApplyAll(init, ledgers[k]), diffs[k].0, diffs[k].1);
      assert Diff(ledgers[k], diffs[k].0, diffs[k].1, ledgers[k + 1]);
      var kept :| ledgers[k] == kept + diffs[k].0 && ledgers[k + 1] == kept + diffs[k].1;
      DiffReplays(init, kept, diffs[k].0, diffs[k].1);
    }
  }

  /** The end-to-end result. However the dispatcher and its workers interleave, once everything received is
      written the coin set is the replay of the current ledger from the initial coins, and a run that cannot
      go on has got there. */
  lemma CoinsFollowLedger(capacity: nat, init: Coins, workers: nat, steps: seq<Dispatcher.Step>,
                          ledgers: seq<seq<Tx>>, diffs: seq<(seq<Tx>, seq<Tx>)>)
    requires History(ledgers, diffs) && forall i :: 0 <= i < |ledgers| ==> WellBehaved(init, ledgers[i])
    requires Serializability.Executes(capacity, Dispatcher.Start(init, workers), steps)
    requires Serializability.Final(capacity, Dispatcher.Start(init, workers), steps).arrived == AllJobs(diffs)
    ensures
      var s := Serializability.Final(capacity, Dispatcher.Start(init, workers), steps);
      && (Serializability.Written(s) ==> s.coins == ApplyAll(init, ledgers[|diffs|]))
      && (capacity > 0 && workers > 0 && (forall step :: Dispatcher.Enabled(capacity, s, step) ==> step.Arrive?) ==>
            s.coins == ApplyAll(init, ledgers[|diffs|]))
  {
    hide WellBehaved, History, Serializability.Executes, Serializability.Final, Dispatcher.Enabled, Dispatcher.Board;
    SerialReplays(init, ledgers, diffs);
    Serializability.Serializable(capacity, init, workers, steps);
    var s := Serializability.Final(capacity, Dispatcher.Start(init, workers), steps);
    if capacity > 0 && workers > 0 && (forall step :: Dispatcher.Enabled(capacity, s, step) ==> step.Arrive?) {
      Liveness.ComesToRest(capacity, init, workers, steps);
    }
  }
}
