/** The coin set: adding a transaction, taking it back, and what the two do to each other. */
module Utxo {
  import opened Common

  datatype CoinId = CoinId(hash: Hash, index: nat)
  datatype Output = Output(value: nat, recipient: Hash)
  datatype Input = Input(coin: CoinId, value: nat, owner: Hash)

  /** `authorization` lists the addresses of the signing keys. */
  datatype Transaction = Transaction(input: seq<Input>, output: seq<Output>, authorization: seq<Hash>)

  type Coins = map<CoinId, Output>

  // ---- specification ----

  /** The input coins are all unspent with the stated values. */
  predicate Unspent(m: Coins, input: seq<Input>) {
    forall i :: 0 <= i < |input| ==> input[i].coin in m && m[input[i].coin].value == input[i].value
  }

  function Owners(m: Coins, input: seq<Input>): set<Hash>
    requires Unspent(m, input)
  {
    set i | 0 <= i < |input| :: m[input[i].coin].recipient
  }

  predicate Accepts(m: Coins, t: Transaction) {
    Unspent(m, t.input) && Owners(m, t.input) == Elems(t.authorization)
  }

  function Spent(input: seq<Input>): set<CoinId> {
    set i | 0 <= i < |input| :: input[i].coin
  }

  function Ids(output: seq<Output>, h: Hash): set<CoinId> {
    set i | 0 <= i < |output| :: CoinId(h, i)
  }

  function Created(output: seq<Output>, h: Hash): Coins {
    if output == [] then map[] else
      var k := |output| - 1;
      Created(output[..k], h)[CoinId(h, k) := output[k]]
  }

  lemma {:induction false} CreatedAt(output: seq<Output>, h: Hash, c: CoinId)
    ensures c in Created(output, h) <==> c.hash == h && c.index < |output|
    ensures c in Created(output, h) ==> Created(output, h)[c] == output[c.index]
  {
    if output != [] { CreatedAt(output[..|output| - 1], h, c); }
  }

  /** The coins written back for the inputs; a coin listed twice gets the data of its last listing. */
  function Restored(input: seq<Input>): Coins {
    if input == [] then map[] else
      var last := input[|input| - 1];
      Restored(input[..|input| - 1])[last.coin := Output(last.value, last.owner)]
  }

  /** What adding does: nothing unless every input is there with its value and exactly the owners signed. */
  function Apply(m: Coins, t: Transaction, h: Hash): Coins {
    if Accepts(m, t) then (m - Spent(t.input)) + Created(t.output, h) else m
  }

  /** What removing does: it goes by the presence of all outputs, and trusts the inputs' owner fields. */
  function Undo(m: Coins, t: Transaction, h: Hash): Coins {
    if Ids(t.output, h) <= m.Keys then (m - Ids(t.output, h)) + Restored(t.input) else m
  }

  lemma {:induction false} RestoredKeys(input: seq<Input>)
    ensures Restored(input).Keys == Spent(input)
  {
    if input != [] {
      var k := |input| - 1;
      RestoredKeys(input[..k]);
      forall c
        ensures c in Spent(input) <==> c in Spent(input[..k]) || c == input[k].coin
      {
        if c in Spent(input) {
          var i :| 0 <= i < |input| && input[i].coin == c;
          if i < k { assert input[..k][i].coin == c; }
        }
        if c in Spent(input[..k]) {
          var i :| 0 <= i < k && input[..k][i].coin == c;
          assert input[i].coin == c;
        }
      }
    }
  }

  /** The coin changes reported to the wallet. */
  function CoinsOf(input: seq<Input>): seq<CoinId> {
    seq(|input|, i requires 0 <= i < |input| => input[i].coin)
  }

  function CreatedList(output: seq<Output>, h: Hash): seq<(CoinId, Output)> {
    seq(|output|, i requires 0 <= i < |output| => (CoinId(h, i), output[i]))
  }

  function RestoredList(input: seq<Input>): seq<(CoinId, Output)> {
    seq(|input|, i requires 0 <= i < |input| => (input[i].coin, Output(input[i].value, input[i].owner)))
  }

  function IdList(n: nat, h: Hash): seq<CoinId> {
    seq(n, i requires 0 <= i < n => CoinId(h, i))
  }

  // ---- the loops ----

  /** Look up every input; queue its deletion and collect its owner. */
  method CheckInputs(coins: Coins, input: seq<Input>)
    returns (ok: bool, owners: set<Hash>, removed: seq<CoinId>, batch: Coins)
    ensures ok <==> Unspent(coins, input)
    ensures ok ==> owners == Owners(coins, input) && removed == CoinsOf(input) && batch == coins - Spent(input)
  {
    hide Unspent, Owners, Spent;
    ok, owners, removed, batch := true, {}, [], coins;
    InputStart(coins, input);
    for i := 0 to |input|
      invariant ok && Unspent(coins, input[..i]) && owners == Owners(coins, input[..i])
      invariant removed == CoinsOf(input[..i])
      invariant batch == coins - Spent(input[..i])
    {
      var coin := input[i].coin;
      if coin !in coins || coins[coin].value != input[i].value {
        InputMissing(coins, input, i);
        ok := false;
        return;
      }
      InputStep(coins, input, i);
      owners := owners + {coins[coin].recipient};
      removed := removed + [coin];
      batch := batch - {coin};
    }
    assert input[..|input|] == input;
  }

  method PutOutputs(kept: Coins, output: seq<Output>, h: Hash) returns (batch: Coins, added: seq<(CoinId, Output)>)
    ensures batch == kept + Created(output, h) && added == CreatedList(output, h)
  {
    batch, added := kept, [];
    for i := 0 to |output|
      invariant batch == kept + Created(output[..i], h)
      invariant added == CreatedList(output[..i], h)
    {
      assert output[..i + 1][..i] == output[..i];
      batch := batch[CoinId(h, i) := output[i]];
      added := added + [(CoinId(h, i), output[i])];
    }
    assert output[..|output|] == output;
  }

  /** Look up every output; queue its deletion. */
  method CheckOutputs(coins: Coins, output: seq<Output>, h: Hash) returns (ok: bool, removed: seq<CoinId>, batch: Coins)
    ensures ok <==> Ids(output, h) <= coins.Keys
    ensures ok ==> removed == IdList(|output|, h) && batch == coins - Ids(output, h)
  {
    ok, removed, batch := true, [], coins;
    for i := 0 to |output|
      invariant ok && Ids(output[..i], h) <= coins.Keys && batch == coins - Ids(output[..i], h)
      invariant removed == IdList(i, h)
    {
      var id := CoinId(h, i);
      if id !in coins {
        assert id in Ids(output, h);
        ok := false;
        return;
      }
      assert Ids(output[..i + 1], h) == Ids(output[..i], h) + {id};
      batch := batch - {id};
      removed := removed + [id];
    }
    assert output[..|output|] == output;
  }

  method PutInputs(kept: Coins, input: seq<Input>) returns (batch: Coins, added: seq<(CoinId, Output)>)
    ensures batch == kept + Restored(input) && added == RestoredList(input)
  {
    batch, added := kept, [];
    for i := 0 to |input|
      invariant batch == kept + Restored(input[..i])
      invariant added == RestoredList(input[..i])
    {
      assert input[..i + 1][..i] == input[..i];
      var out := Output(input[i].value, input[i].owner);
      batch := batch[input[i].coin := out];
      added := added + [(input[i].coin, out)];
    }
    assert input[..|input|] == input;
  }

  // ---- the database ----

  class UtxoDatabase {
    var coins: Coins

    constructor ()
      ensures coins == map[]
    {
      coins := map[];
    }

    /** Add a transaction and report created and spent coins; a rejected one changes and reports nothing. */
    method AddTransaction(t: Transaction, h: Hash) returns (added: seq<(CoinId, Output)>, removed: seq<CoinId>)
      modifies this
      ensures coins == Apply(old(coins), t, h)
      ensures (added, removed) == if Accepts(old(coins), t) then (CreatedList(t.output, h), CoinsOf(t.input))
                else ([], [])
    {
      added, removed := [], [];
      var ok, owners, spent, batch := CheckInputs(coins, t.input);
      if ok && Elems(t.authorization) == owners {
        coins, added := PutOutputs(batch, t.output, h);
        removed := spent;
      }
    }

    /** Take a transaction back; if any of its outputs is missing it was never accepted, and nothing happens. */
    method RemoveTransaction(t: Transaction, h: Hash) returns (added: seq<(CoinId, Output)>, removed: seq<CoinId>)
      modifies this
      ensures coins == Undo(old(coins), t, h)
      ensures (added, removed) == if Ids(t.output, h) <= old(coins).Keys
                then (RestoredList(t.input), IdList(|t.output|, h)) else ([], [])
    {
      added, removed := [], [];
      var ok, gone, batch := CheckOutputs(coins, t.output, h);
      if ok {
        coins, added := PutInputs(batch, t.input);
        removed := gone;
      }
    }
  }

  lemma InputStart(m: Coins, input: seq<Input>)
    ensures Unspent(m, input[..0]) && Owners(m, input[..0]) == {} && Spent(input[..0]) == {}
  {
  }

  lemma InputMissing(m: Coins, input: seq<Input>, i: nat)
    requires i < |input| && (input[i].coin !in m || m[input[i].coin].value != input[i].value)
    ensures !Unspent(m, input)
  {
  }

  lemma InputStep(m: Coins, input: seq<Input>, i: nat)
    requires i < |input| && Unspent(m, input[..i]) && input[i].coin in m && m[input[i].coin].value == input[i].value
    ensures Unspent(m, input[..i + 1])
    ensures Owners(m, input[..i + 1]) == Owners(m, input[..i]) + {m[input[i].coin].recipient}
    ensures Spent(input[..i + 1]) == Spent(input[..i]) + {input[i].coin}
  {
    var a, b := input[..i], input[..i + 1];
    assert b == a + [input[i]];
    forall x
      ensures x in Owners(m, b) <==> x in Owners(m, a) || x == m[input[i].coin].recipient
    {
      if x in Owners(m, a) {
        var j :| 0 <= j < i && m[a[j].coin].recipient == x;
        assert m[b[j].coin].recipient == x;
      }
      assert b[i] == input[i];
    }
    forall x
      ensures x in Spent(b) <==> x in Spent(a) || x == input[i].coin
    {
      if x in Spent(a) {
        var j :| 0 <= j < i && a[j].coin == x;
        assert b[j].coin == x;
      }
      assert b[i] == input[i];
    }
  }
}
