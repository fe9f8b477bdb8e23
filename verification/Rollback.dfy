/** Replaying and rolling back lists of transactions, and what happens to the total value. */
module Rollback {
  import opened Common
  import opened Utxo

  type Tx = (Transaction, Hash)

  /** Add the transactions in order. */
  function ApplyAll(m: Coins, txs: seq<Tx>): Coins {
    if txs == [] then m else
      var k := |txs| - 1;
      Apply(ApplyAll(m, txs[..k]), txs[k].0, txs[k].1)
  }

  /** Remove the transactions, last one first. */
  function UndoAll(m: Coins, txs: seq<Tx>): Coins
    decreases |txs|
  {
    if txs == [] then m else
      var k := |txs| - 1;
      UndoAll(Undo(m, txs[k].0, txs[k].1), txs[..k])
  }

  ghost predicate Fresh(m: Coins, h: Hash) {
    forall c :: c in m ==> c.hash != h
  }

  ghost predicate Within(a: Coins, b: Coins) {
    forall c :: c in a ==> c in b && b[c] == a[c]
  }

  // ---- one transaction ----

  lemma UndoAccepted(m: Coins, t: Transaction, h: Hash)
    requires Accepts(m, t)
    ensures Undo(Apply(m, t, h), t, h) == (m - Spent(t.input) - Ids(t.output, h)) + Restored(t.input)
  {
    hide Accepts, Spent, Restored, Created;
    var after := Apply(m, t, h);
    forall c: CoinId
      ensures c in Created(t.output, h) <==> c in Ids(t.output, h)
    {
      CreatedAt(t.output, h, c);
      if c.hash == h && c.index < |t.output| { assert c == CoinId(h, c.index); }
    }
    assert Ids(t.output, h) <= after.Keys;
    assert after - Ids(t.output, h) == m - Spent(t.input) - Ids(t.output, h);
  }

  /** Taking coins out and writing the inputs back changes nothing exactly when the inputs describe coins
      that are there, and whatever was taken out is written back. */
  lemma RestoringIsExact(m: Coins, input: seq<Input>, gone: set<CoinId>)
    ensures (m - gone) + Restored(input) == m <==> Within(Restored(input), m) && gone * m.Keys <= Spent(input)
  {
    hide Spent, Restored;
    RestoredKeys(input);
    var r := (m - gone) + Restored(input);
    if !Within(Restored(input), m) {
      var c :| c in Restored(input) && (c !in m || m[c] != Restored(input)[c]);
      assert c in r && r[c] == Restored(input)[c];
    } else if !(gone * m.Keys <= Spent(input)) {
      var c :| c in gone * m.Keys && c !in Spent(input);
      assert c in m && c !in r;
    } else {
      assert forall c :: c in r <==> c in m;
      assert r == m;
    }
  }

  /** Adding a transaction and taking it back restores the coins exactly when: if it was accepted, the inputs'
      fields describe the coins they spend, and no coin other than those carried an id of its outputs; if it
      was rejected, some output is missing, or undoing it all the same would change nothing. */
  lemma UndoIsExact(m: Coins, t: Transaction, h: Hash)
    ensures Undo(Apply(m, t, h), t, h) == m <==>
            if Accepts(m, t) then Within(Restored(t.input), m) && Ids(t.output, h) * m.Keys <= Spent(t.input)
            else Ids(t.output, h) <= m.Keys ==> Within(Restored(t.input), m) && Ids(t.output, h) <= Spent(t.input)
  {
    hide Spent, Restored, Within, Owners, Unspent, Ids;
    var ids := Ids(t.output, h);
    if Accepts(m, t) {
      UndoAccepted(m, t, h);
      RestoringIsExact(m, t.input, Spent(t.input) + ids);
      assert m - Spent(t.input) - ids == m - (Spent(t.input) + ids);
      assert (Spent(t.input) + ids) * m.Keys <= Spent(t.input) <==> ids * m.Keys <= Spent(t.input);
    } else if ids <= m.Keys {
      RestoringIsExact(m, t.input, ids);
      assert ids * m.Keys == ids;
    }
  }

  /** For a hash that is not in the coin set this is simply: rejected with an output to show it, or truthful
      inputs. */
  lemma UndoFreshIsExact(m: Coins, t: Transaction, h: Hash)
    requires Fresh(m, h)
    ensures Undo(Apply(m, t, h), t, h) == m <==>
            (!Accepts(m, t) && t.output != []) || Within(Restored(t.input), m)
  {
    hide Spent, Restored, Within, Owners, Unspent;
    UndoIsExact(m, t, h);
    assert Ids(t.output, h) * m.Keys == {};
    if t.output != [] {
      assert CoinId(h, 0) in Ids(t.output, h);
    } else {
      assert Ids(t.output, h) == {};
    }
  }

  lemma {:induction false} RestoredWithin(m: Coins, input: seq<Input>)
    requires forall i :: 0 <= i < |input| ==>
               input[i].coin in m && m[input[i].coin] == Output(input[i].value, input[i].owner)
    ensures Within(Restored(input), m)
  {
    if input != [] { RestoredWithin(m, input[..|input| - 1]); }
  }

  // ---- lists of transactions ----

  ghost predicate Makes(tx: Tx, c: CoinId) {
    c.hash == tx.1 && c.index < |tx.0.output|
  }

  /** Every input states the owner of the coin it names, wherever that coin comes from. */
  ghost predicate OwnersMatch(init: Coins, txs: seq<Tx>, t: Transaction) {
    forall i :: 0 <= i < |t.input| ==> OwnerMatches(init, txs, t.input[i])
  }

  ghost predicate OwnerMatches(init: Coins, txs: seq<Tx>, input: Input) {
    && (input.coin in init ==> init[input.coin].recipient == input.owner)
    && forall j :: 0 <= j < |txs| && Makes(txs[j], input.coin) ==>
      txs[j].0.output[input.coin.index].recipient == input.owner
  }

  /** The hypotheses under which rollback is exact: distinct transaction hashes, none of them the origin of
      an initial coin, at least one output each, and truthful owner fields. */
  ghost predicate WellBehaved(init: Coins, txs: seq<Tx>) {
    && (forall i, j :: 0 <= i < j < |txs| ==> txs[i].1 != txs[j].1)
    && (forall i :: 0 <= i < |txs| ==> Fresh(init, txs[i].1))
    && (forall i :: 0 <= i < |txs| ==> txs[i].0.output != [])
    && (forall i :: 0 <= i < |txs| ==> OwnersMatch(init, txs, txs[i].0))
  }

  /** Every coin is an initial one, or an output of one of the transactions. */
  ghost predicate Known(m: Coins, init: Coins, txs: seq<Tx>) {
    forall c :: c in m ==> KnownCoin(m[c], c, init, txs)
  }

  ghost predicate KnownCoin(o: Output, c: CoinId, init: Coins, txs: seq<Tx>) {
    || (c in init && init[c] == o)
    || (exists j :: 0 <= j < |txs| && Makes(txs[j], c) && txs[j].0.output[c.index] == o)
  }

  lemma {:induction false} ReplayIsKnown(init: Coins, txs: seq<Tx>)
    ensures Known(ApplyAll(init, txs), init, txs)
  {
    if txs != [] {
      var k := |txs| - 1;
      ReplayIsKnown(init, txs[..k]);
      var m := ApplyAll(init, txs[..k]);
      var m' := ApplyAll(init, txs);
      forall c | c in m'
        ensures KnownCoin(m'[c], c, init, txs)
      {
        CreatedAt(txs[k].0.output, txs[k].1, c);
        if c in m && m'[c] == m[c] {
          assert KnownCoin(m[c], c, init, txs[..k]);
          if !(c in init && init[c] == m[c]) {
            var j :| 0 <= j < k && Makes(txs[..k][j], c) && txs[..k][j].0.output[c.index] == m[c];
            assert Makes(txs[j], c) && txs[j].0.output[c.index] == m[c];
          }
        } else {
          assert Makes(txs[k], c) && txs[k].0.output[c.index] == m'[c];
        }
      }
    }
  }

  lemma NextIsFresh(init: Coins, txs: seq<Tx>, k: nat)
    requires WellBehaved(init, txs) && k < |txs|
    ensures Fresh(ApplyAll(init, txs[..k]), txs[k].1)
  {
    hide OwnersMatch, ApplyAll;
    ReplayIsKnown(init, txs[..k]);
    var m := ApplyAll(init, txs[..k]);
    forall c | c in m
      ensures c.hash != txs[k].1
    {
      assert KnownCoin(m[c], c, init, txs[..k]);
      if !(c in init) {
        var j :| 0 <= j < k && Makes(txs[..k][j], c);
        assert txs[j].1 != txs[k].1;
      }
    }
  }

  lemma NextIsTruthful(init: Coins, txs: seq<Tx>, k: nat)
    requires WellBehaved(init, txs) && k < |txs| && Accepts(ApplyAll(init, txs[..k]), txs[k].0)
    ensures Within(Restored(txs[k].0.input), ApplyAll(init, txs[..k]))
  {
    hide ApplyAll, Restored, Within, Owners;
    ReplayIsKnown(init, txs[..k]);
    var m, t := ApplyAll(init, txs[..k]), txs[k].0;
    forall i | 0 <= i < |t.input|
      ensures t.input[i].coin in m && m[t.input[i].coin] == Output(t.input[i].value, t.input[i].owner)
    {
      var c := t.input[i].coin;
      assert KnownCoin(m[c], c, init, txs[..k]);
      assert OwnersMatch(init, txs, t);
      assert OwnerMatches(init, txs, t.input[i]);
      if !(c in init && init[c] == m[c]) {
        var j :| 0 <= j < k && Makes(txs[..k][j], c) && txs[..k][j].0.output[c.index] == m[c];
        assert Makes(txs[j], c);
      }
    }
    RestoredWithin(m, t.input);
  }

  /** Rolling back the end of a replayed list gives the replay of what is left, rejected ones included. */
  lemma {:induction false} RollbackIsExact(init: Coins, txs: seq<Tx>, k: nat)
    requires WellBehaved(init, txs) && k <= |txs|
    ensures UndoAll(ApplyAll(init, txs), txs[k..]) == ApplyAll(init, txs[..k])
  {
    RollbackFrom(init, txs, |txs|, k);
    assert txs[..|txs|] == txs && txs[k..|txs|] == txs[k..];
  }

  lemma {:induction false} RollbackFrom(init: Coins, txs: seq<Tx>, n: nat, k: nat)
    requires WellBehaved(init, txs) && k <= n <= |txs|
    ensures UndoAll(ApplyAll(init, txs[..n]), txs[k..n]) == ApplyAll(init, txs[..k])
    decreases n
  {
    hide WellBehaved, Apply, Undo, Within;
    if k < n {
      var m, t, h := ApplyAll(init, txs[..n - 1]), txs[n - 1].0, txs[n - 1].1;
      NextIsFresh(init, txs, n - 1);
      if Accepts(m, t) { NextIsTruthful(init, txs, n - 1); }
      HasOutput(init, txs, n - 1);
      UndoFreshIsExact(m, t, h);
      assert txs[..n][..n - 1] == txs[..n - 1];
      assert txs[k..n][..n - 1 - k] == txs[k..n - 1];
      RollbackFrom(init, txs, n - 1, k);
    }
  }

  /** Without distinct hashes rollback can fail on validated transactions: a payment that is in the ledger twice
      is accepted once, but taking back the rejected copy takes back the accepted one. */
  lemma RepeatedTransactionIsLost(g: Hash, v: nat, o: Hash, r: Hash, h: Hash)
    requires g != h && 0 < v < U64
    ensures
      var init: Coins := map[CoinId(g, 0) := Output(v, o)];
      var t := Transaction([Input(CoinId(g, 0), v, o)], [Output(v, r)], [o]);
      && Sane(t)
      && ApplyAll(init, [(t, h), (t, h)]) == ApplyAll(init, [(t, h)]) == map[CoinId(h, 0) := Output(v, r)]
      && UndoAll(ApplyAll(init, [(t, h), (t, h)]), [(t, h)]) == init
  {
    var init: Coins := map[CoinId(g, 0) := Output(v, o)];
    var input, output: seq<Output> := [Input(CoinId(g, 0), v, o)], [Output(v, r)];
    var t := Transaction(input, output, [o]);
    var tx: Tx := (t, h);
    var paid: Coins := map[CoinId(h, 0) := Output(v, r)];
    PaymentApplies(g, v, o, r, h);
    ApplyConcat(init, [tx], [tx]);
    assert [tx] + [tx] == [tx, tx];
    OneTx(init, tx);
    OneTx(paid, tx);
    PaymentIsSane(g, v, o, r);
  }

  lemma PaymentIsSane(g: Hash, v: nat, o: Hash, r: Hash)
    requires 0 < v < U64
    ensures Sane(Transaction([Input(CoinId(g, 0), v, o)], [Output(v, r)], [o]))
  {
    SumSnoc([], Input(CoinId(g, 0), v, o));
    OutputSumSnoc([], Output(v, r));
    assert [] + [Input(CoinId(g, 0), v, o)] == [Input(CoinId(g, 0), v, o)] && [] + [Output(v, r)] == [Output(v, r)];
  }

  /** A payment applies once, is rejected the second time, and taking it back restores the paid coin. */
  lemma PaymentApplies(g: Hash, v: nat, o: Hash, r: Hash, h: Hash)
    requires g != h
    ensures
      var init: Coins := map[CoinId(g, 0) := Output(v, o)];
      var paid: Coins := map[CoinId(h, 0) := Output(v, r)];
      var t := Transaction([Input(CoinId(g, 0), v, o)], [Output(v, r)], [o]);
      Apply(init, t, h) == paid && Apply(paid, t, h) == paid && Undo(paid, t, h) == init
  {
    var init: Coins := map[CoinId(g, 0) := Output(v, o)];
    var paid: Coins := map[CoinId(h, 0) := Output(v, r)];
    var input, output: seq<Output> := [Input(CoinId(g, 0), v, o)], [Output(v, r)];
    assert input[0].coin == CoinId(g, 0);
    OneInput(input[0]);
    OneOutput(output[0], h);
    hide Spent, Ids, Restored, Created;
    assert Unspent(init, input) && !Unspent(paid, input);
    assert Owners(init, input) == {o} == Elems([o]);
  }

  lemma OneInput(i: Input)
    ensures Spent([i]) == {i.coin} && Restored([i]) == map[i.coin := Output(i.value, i.owner)]
  {
    assert [i][0].coin == i.coin;
    var none: seq<Input> := [];
    assert [i][..0] == none && Restored(none) == map[];
  }

  lemma OneOutput(x: Output, h: Hash)
    ensures Ids([x], h) == {CoinId(h, 0)} && Created([x], h) == map[CoinId(h, 0) := x]
  {
    var none: seq<Output> := [];
    assert [x][..0] == none && Created(none, h) == map[];
  }

  lemma OneTx(m: Coins, tx: Tx)
    ensures ApplyAll(m, [tx]) == Apply(m, tx.0, tx.1) && UndoAll(m, [tx]) == Undo(m, tx.0, tx.1)
  {
    var none: seq<Tx> := [];
    assert [tx][..0] == none;
  }

  lemma HasOutput(init: Coins, txs: seq<Tx>, k: nat)
    requires WellBehaved(init, txs) && k < |txs|
    ensures txs[k].0.output != []
  {
  }

  lemma {:induction false} ApplyConcat(m: Coins, a: seq<Tx>, b: seq<Tx>)
    ensures ApplyAll(m, a + b) == ApplyAll(ApplyAll(m, a), b)
  {
    if b == [] {
      assert a + b == a;
    } else {
      var k := |b| - 1;
      assert (a + b)[..|a + b| - 1] == a + b[..k];
      ApplyConcat(m, a, b[..k]);
    }
  }

  /** A ledger diff - removed transactions in reverse, then added ones - takes the replay of the old ledger
      to the replay of the new ledger. */
  lemma DiffReplays(init: Coins, kept: seq<Tx>, removed: seq<Tx>, added: seq<Tx>)
    requires WellBehaved(init, kept + removed)
    ensures ApplyAll(UndoAll(ApplyAll(init, kept + removed), removed), added) == ApplyAll(init, kept + added)
  {
    RollbackIsExact(init, kept + removed, |kept|);
    assert (kept + removed)[|kept|..] == removed && (kept + removed)[..|kept|] == kept;
    ApplyConcat(init, kept, added);
  }

  // ---- total value ----

  ghost function Total(m: Coins): nat {
    if m == map[] then 0 else
      var c :| c in m;
      m[c].value + Total(m - {c})
  }

  lemma {:induction false} TotalRemove(m: Coins, c: CoinId)
    requires c in m
    ensures Total(m) == m[c].value + Total(m - {c})
  {
    var d :| d in m && Total(m) == m[d].value + Total(m - {d});
    if d != c {
      TotalRemove(m - {d}, c);
      TotalRemove(m - {c}, d);
      assert m - {d} - {c} == m - {c} - {d};
    }
  }

  ghost function Pick(m: Coins, s: set<CoinId>): Coins
    requires s <= m.Keys
  {
    map c | c in s :: m[c]
  }

  lemma {:induction false} TotalSplit(m: Coins, s: set<CoinId>)
    requires s <= m.Keys
    ensures Total(m) == Total(m - s) + Total(Pick(m, s))
  {
    if s == {} {
      assert m - s == m && Pick(m, s) == map[];
    } else {
      var c :| c in s;
      TotalRemove(m, c);
      TotalRemove(Pick(m, s), c);
      TotalSplit(m - {c}, s - {c});
      assert m - {c} - (s - {c}) == m - s;
      assert Pick(m, s) - {c} == Pick(m - {c}, s - {c});
    }
  }

  /** The value of the coins a transaction spends, each coin once. */
  ghost function SpentValue(m: Coins, input: seq<Input>): nat
    requires Spent(input) <= m.Keys
  {
    Total(Pick(m, Spent(input)))
  }

  function OutputSum(output: seq<Output>): nat {
    if output == [] then 0 else OutputSum(output[..|output| - 1]) + output[|output| - 1].value
  }

  function InputSum(input: seq<Input>): nat {
    if input == [] then 0 else InputSum(input[..|input| - 1]) + input[|input| - 1].value
  }

  lemma {:induction false} TotalCreated(m: Coins, output: seq<Output>, h: Hash)
    requires Fresh(m, h)
    ensures Total(m + Created(output, h)) == Total(m) + OutputSum(output)
  {
    hide Total;
    if output == [] {
      assert m + Created(output, h) == m;
    } else {
      var k := |output| - 1;
      var c := CoinId(h, k);
      TotalCreated(m, output[..k], h);
      var all := m + Created(output, h);
      CreatedAt(output[..k], h, c);
      assert all - {c} == m + Created(output[..k], h) by {
        forall x: CoinId
          ensures x in all - {c} <==> x in m + Created(output[..k], h)
        {
          CreatedAt(output[..k], h, x);
        }
      }
      TotalRemove(all, c);
    }
  }

  lemma SpentKeys(m: Coins, input: seq<Input>)
    requires Unspent(m, input)
    ensures Spent(input) <= m.Keys
  {
  }

  /** The exact account: an accepted transaction takes out the value of its coins and puts in its outputs, so
      the total does not grow exactly when the outputs are covered by the distinct coins spent. */
  lemma TotalAfterApply(m: Coins, t: Transaction, h: Hash)
    requires Fresh(m, h) && Accepts(m, t)
    ensures Spent(t.input) <= m.Keys
    ensures Total(Apply(m, t, h)) + SpentValue(m, t.input) == Total(m) + OutputSum(t.output)
    ensures Total(Apply(m, t, h)) <= Total(m) <==> OutputSum(t.output) <= SpentValue(m, t.input)
  {
    hide Total, Spent, Created;
    SpentKeys(m, t.input);
    TotalSplit(m, Spent(t.input));
    TotalCreated(m - Spent(t.input), t.output, h);
  }

  ghost predicate DistinctCoins(input: seq<Input>) {
    forall i, j :: 0 <= i < j < |input| ==> input[i].coin != input[j].coin
  }

  lemma {:induction false} SpentValueIsInputSum(m: Coins, input: seq<Input>)
    requires Unspent(m, input) && DistinctCoins(input)
    ensures Spent(input) <= m.Keys && SpentValue(m, input) == InputSum(input)
  {
    hide Owners, Total;
    if input == [] {
      assert Spent(input) == {} && Pick(m, {}) == map[];
      TotalEmpty();
    } else {
      var k := |input| - 1;
      var rest, c := input[..k], input[k].coin;
      assert forall i :: 0 <= i < k ==> rest[i] == input[i];
      SpentValueIsInputSum(m, rest);
      InputStep(m, input, k);
      assert input[..k + 1] == input;
      TotalPickOne(m, Spent(rest), c);
    }
  }

  lemma TotalEmpty()
    ensures Total(map[]) == 0
  {
  }

  lemma TotalPickOne(m: Coins, s: set<CoinId>, c: CoinId)
    requires s <= m.Keys && c in m && c !in s
    ensures Total(Pick(m, s + {c})) == Total(Pick(m, s)) + m[c].value
  {
    TotalRemove(Pick(m, s + {c}), c);
    assert Pick(m, s + {c}) - {c} == Pick(m, s);
  }

  const U64: nat := 0x1_0000_0000_0000_0000

  // the three content checks a transaction passes before it can be in a block; sums wrap at 64 bits
  predicate CheckNonEmpty(t: Transaction) { !(t.input == [] || t.output == []) }

  predicate CheckNonZero(t: Transaction) {
    !((exists i :: 0 <= i < |t.input| && t.input[i].value == 0)
      || (exists i :: 0 <= i < |t.output| && t.output[i].value == 0))
  }

  predicate CheckSufficientInput(t: Transaction) {
    InputSum(t.input) % U64 >= OutputSum(t.output) % U64
  }

  /** Checked transactions never create a coin without value. */
  lemma NoZeroCoins(init: Coins, txs: seq<Tx>)
    requires forall c :: c in init ==> init[c].value > 0
    requires forall i :: 0 <= i < |txs| ==> CheckNonZero(txs[i].0)
    ensures forall c :: c in ApplyAll(init, txs) ==> ApplyAll(init, txs)[c].value > 0
  {
    hide ApplyAll;
    ReplayIsKnown(init, txs);
    var m := ApplyAll(init, txs);
    forall c | c in m ensures m[c].value > 0 {
      assert KnownCoin(m[c], c, init, txs);
      if !(c in init && init[c] == m[c]) {
        var j :| 0 <= j < |txs| && Makes(txs[j], c) && txs[j].0.output[c.index] == m[c];
        assert txs[j].0.output[c.index].value != 0;
      }
    }
  }

  /** What the value argument needs of a transaction beyond the checks. */
  ghost predicate Sane(t: Transaction) {
    && CheckNonEmpty(t) && CheckNonZero(t) && CheckSufficientInput(t)
    && DistinctCoins(t.input) && InputSum(t.input) < U64 && OutputSum(t.output) < U64
  }

  lemma ValueNeverGrows(m: Coins, t: Transaction, h: Hash)
    requires Fresh(m, h) && Sane(t)
    ensures Total(Apply(m, t, h)) <= Total(m)
  {
    hide Total, Spent, Created, CheckNonZero;
    if Accepts(m, t) {
      TotalAfterApply(m, t, h);
      SpentValueIsInputSum(m, t.input);
    }
  }

  /** The three checks do not ask for distinct inputs: a transaction that lists one coin twice passes them, is
      accepted, and mints the value of the coin. */
  lemma ListingACoinTwiceMints(g: Hash, v: nat, o: Hash, h: Hash)
    requires g != h && 0 < v && 2 * v < U64
    ensures
      var m: Coins := map[CoinId(g, 0) := Output(v, o)];
      var i := Input(CoinId(g, 0), v, o);
      var t := Transaction([i, i], [Output(2 * v, o)], [o]);
      && CheckNonEmpty(t) && CheckNonZero(t) && CheckSufficientInput(t) && Accepts(m, t)
      && Total(Apply(m, t, h)) == Total(m) + v
  {
    hide Total, Created;
    var m: Coins := map[CoinId(g, 0) := Output(v, o)];
    var i := Input(CoinId(g, 0), v, o);
    var t := Transaction([i, i], [Output(2 * v, o)], [o]);
    TwiceListed(g, v, o);
    TotalAfterApply(m, t, h);
    assert Pick(m, Spent(t.input)) == m;
    TotalRemove(m, CoinId(g, 0));
    assert m - {CoinId(g, 0)} == map[];
    TotalEmpty();
  }

  lemma TwiceListed(g: Hash, v: nat, o: Hash)
    requires 0 < v && 2 * v < U64
    ensures
      var m: Coins := map[CoinId(g, 0) := Output(v, o)];
      var i := Input(CoinId(g, 0), v, o);
      var t := Transaction([i, i], [Output(2 * v, o)], [o]);
      && InputSum(t.input) == OutputSum(t.output) == 2 * v
      && Spent(t.input) == {CoinId(g, 0)} && Accepts(m, t)
  {
    var m: Coins := map[CoinId(g, 0) := Output(v, o)];
    var i := Input(CoinId(g, 0), v, o);
    var input: seq<Input> := [i, i];
    SumSnoc([], i);
    SumSnoc([i], i);
    assert [] + [i] == [i] && [i] + [i] == input;
    OutputSumSnoc([], Output(2 * v, o));
    assert [] + [Output(2 * v, o)] == [Output(2 * v, o)];
    hide InputSum, OutputSum;
    assert input[0].coin == CoinId(g, 0) && m[input[0].coin].recipient == o;
    assert Spent(input) == {CoinId(g, 0)};
    assert o in Owners(m, input);
    assert Owners(m, input) == {o} == Elems([o]);
  }

  lemma SumSnoc(input: seq<Input>, i: Input)
    ensures InputSum(input + [i]) == InputSum(input) + i.value && InputSum([]) == 0
  {
    assert (input + [i])[..|input|] == input;
  }

  lemma OutputSumSnoc(output: seq<Output>, x: Output)
    ensures OutputSum(output + [x]) == OutputSum(output) + x.value && OutputSum([]) == 0
  {
    assert (output + [x])[..|output|] == output;
  }

  /** No coin set reached by replaying a list and rolling back its end exceeds the initial
      total: every one of them is the replay of some well-behaved list. */
  lemma {:induction false} TotalNeverExceedsInitial(init: Coins, txs: seq<Tx>, k: nat)
    requires WellBehaved(init, txs) && k <= |txs| && forall i :: 0 <= i < |txs| ==> Sane(txs[i].0)
    ensures Total(ApplyAll(init, txs[..k])) <= Total(init)
    ensures UndoAll(ApplyAll(init, txs), txs[k..]) == ApplyAll(init, txs[..k])
    decreases k
  {
    hide WellBehaved, Sane, Apply, Total, UndoAll;
    RollbackIsExact(init, txs, k);
    if k > 0 {
      TotalNeverExceedsInitial(init, txs, k - 1);
      NextIsFresh(init, txs, k - 1);
      assert txs[..k][..k - 1] == txs[..k - 1];
      ValueNeverGrows(ApplyAll(init, txs[..k - 1]), txs[k - 1].0, txs[k - 1].1);
    }
  }
}
