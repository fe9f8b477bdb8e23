/** Who can change which coins: a coin leaves the set only with its owner's signature, serially and in parallel. */
module Ownership {
  import opened Common
  import opened Utxo
  import opened Rollback
  import opened Jobs
  import opened Dispatcher
  import opened Serializability

  /** The owner of an input coin has not signed, or a signer owns none of the input coins. */
  ghost predicate Unauthorized(m: Coins, t: Transaction) {
    || (exists i :: 0 <= i < |t.input| && t.input[i].coin in m && m[t.input[i].coin].recipient !in t.authorization)
    || (exists a :: a in t.authorization && !OwnsInput(m, t.input, a))
  }

  ghost predicate OwnsInput(m: Coins, input: seq<Input>, a: Hash) {
    exists i :: 0 <= i < |input| && input[i].coin in m && m[input[i].coin].recipient == a
  }

  /** A coin named by an input is missing, or has another value than the input states. */
  ghost predicate Unfunded(m: Coins, t: Transaction) {
    exists i :: 0 <= i < |t.input| && (t.input[i].coin !in m || m[t.input[i].coin].value != t.input[i].value)
  }

  /** A transaction has an effect if and only if its inputs are there with their values, all their owners have
      signed, and nobody else has. */
  lemma AcceptedIffAuthorized(m: Coins, t: Transaction)
    ensures Accepts(m, t) <==> !Unfunded(m, t) && !Unauthorized(m, t)
  {
    if Unspent(m, t.input) {
      forall i | 0 <= i < |t.input| ensures m[t.input[i].coin].recipient in Owners(m, t.input) {}
      forall a ensures a in Owners(m, t.input) <==> OwnsInput(m, t.input, a) {}
      forall a ensures a in Elems(t.authorization) <==> a in t.authorization {}
      if !Unauthorized(m, t) {
        forall a ensures a in Owners(m, t.input) <==> a in Elems(t.authorization) {
          if a in Owners(m, t.input) {
            var i :| 0 <= i < |t.input| && m[t.input[i].coin].recipient == a;
          }
        }
        assert Owners(m, t.input) == Elems(t.authorization);
      }
    }
  }

  /** Without the right signatures nothing happens. */
  lemma UnauthorizedChangesNothing(m: Coins, t: Transaction, h: Hash)
    requires Unfunded(m, t) || Unauthorized(m, t)
    ensures Apply(m, t, h) == m
  {
    hide Unauthorized, Unfunded, Accepts;
    AcceptedIffAuthorized(m, t);
  }

  /** A coin that is gone was an input, and its owner signed. A coin that changed has an id of the transaction's
      own outputs. */
  lemma SpentBySigner(m: Coins, t: Transaction, h: Hash, c: CoinId)
    requires c in m
    ensures c !in Apply(m, t, h) ==> c in Spent(t.input) && m[c].recipient in t.authorization
    ensures c in Apply(m, t, h) && Apply(m, t, h)[c] != m[c] ==> c.hash == h && c.index < |t.output|
  {
    hide Created;
    CreatedAt(t.output, h, c);
    if c !in Apply(m, t, h) {
      var i :| 0 <= i < |t.input| && t.input[i].coin == c;
      assert m[c].recipient in Owners(m, t.input);
      assert m[c].recipient in Elems(t.authorization);
    }
  }

  // ---- lists ----

  /** Transaction `k` of the list spends the coin, with the signature of the owner it then has. */
  ghost predicate SpentAt(m: Coins, txs: seq<Tx>, k: nat, c: CoinId) {
    && k < |txs|
    && var before := ApplyAll(m, txs[..k]);
       c in before && c in Spent(txs[k].0.input) && before[c].recipient in txs[k].0.authorization
  }

  /** A coin that is gone after a list of transactions was spent by one of them with its owner's signature; if no
      transaction of the list has the coin's hash, that owner is the original one. */
  lemma {:induction false} SpentInList(m: Coins, txs: seq<Tx>, c: CoinId) returns (k: nat)
    requires c in m && c !in ApplyAll(m, txs)
    ensures SpentAt(m, txs, k, c)
    ensures (forall i :: 0 <= i < |txs| ==> txs[i].1 != c.hash) ==> m[c].recipient in txs[k].0.authorization
  {
    hide Apply, Spent;
    var n := |txs| - 1;
    var before := ApplyAll(m, txs[..n]);
    if c in before {
      k := n;
      SpentBySigner(before, txs[n].0, txs[n].1, c);
      if forall i :: 0 <= i < |txs| ==> txs[i].1 != c.hash { Untouched(m, txs[..n], c); }
    } else {
      k := SpentInList(m, txs[..n], c);
      assert txs[..n][..k] == txs[..k];
    }
  }

  lemma {:induction false} Untouched(m: Coins, txs: seq<Tx>, c: CoinId)
    requires c in m && forall i :: 0 <= i < |txs| ==> txs[i].1 != c.hash
    ensures c in ApplyAll(m, txs) ==> ApplyAll(m, txs)[c] == m[c]
  {
    hide Apply;
    if txs != [] && c in ApplyAll(m, txs) {
      var n := |txs| - 1;
      var before := ApplyAll(m, txs[..n]);
      NotRecreated(before, txs[n].0, txs[n].1, c);
      Untouched(m, txs[..n], c);
      SpentBySigner(before, txs[n].0, txs[n].1, c);
    }
  }

  lemma NotRecreated(m: Coins, t: Transaction, h: Hash, c: CoinId)
    requires c.hash != h && c in Apply(m, t, h)
    ensures c in m
  {
    hide Created, Accepts, Spent;
    CreatedAt(t.output, h, c);
  }

  // ---- in parallel ----

  /** In every reachable state, a worker that commits an added transaction takes out only coins whose owners
      signed it, and changes nothing if it is not authorized. */
  lemma CommitsAreAuthorized(capacity: nat, init: Coins, workers: nat, steps: seq<Step>, w: nat)
    requires Executes(capacity, Start(init, workers), steps)
    requires Enabled(capacity, Final(capacity, Start(init, workers), steps), Commit(w))
    requires Final(capacity, Start(init, workers), steps).workers[w].job.add
    ensures
      var s := Final(capacity, Start(init, workers), steps);
      var t, after := s.workers[w].job.tx, Do(capacity, s, Commit(w)).coins;
      && (forall c :: c in s.coins && c !in after ==> c in Spent(t.input) && s.coins[c].recipient in t.authorization)
      && (Unfunded(s.coins, t) || Unauthorized(s.coins, t) ==> after == s.coins)
  {
    StartKeeps(init, workers);
    RunKeeps(capacity, init, Start(init, workers), steps);
    hide Executes, Final, Tokens, Board, Serial, Write, Unauthorized, Unfunded, Apply, Spent;
    var s := Final(capacity, Start(init, workers), steps);
    var j := s.workers[w].job;
    assert Current(s.coins, s.workers[w]);
    WriteIsExec(s.coins, j, s.workers[w].seen);
    forall c | c in s.coins && c !in Apply(s.coins, j.tx, j.hash)
      ensures c in Spent(j.tx.input) && s.coins[c].recipient in j.tx.authorization
    {
      SpentBySigner(s.coins, j.tx, j.hash, c);
    }
    if Unfunded(s.coins, j.tx) || Unauthorized(s.coins, j.tx) { UnauthorizedChangesNothing(s.coins, j.tx, j.hash); }
  }

  /** Nothing but commits changes the coins. */
  lemma OnlyCommitsWrite(capacity: nat, s: System, step: Step)
    requires Enabled(capacity, s, step) && !step.Commit?
    ensures Do(capacity, s, step).coins == s.coins
  {
  }

  // ---- the report to the wallet ----

  function AsCoins(added: seq<(CoinId, Output)>): Coins {
    if added == [] then map[] else AsCoins(added[..|added| - 1])[added[|added| - 1].0 := added[|added| - 1].1]
  }

  lemma {:induction false} ReportedCreated(output: seq<Output>, h: Hash)
    ensures AsCoins(CreatedList(output, h)) == Created(output, h)
  {
    if output != [] {
      ReportedCreated(output[..|output| - 1], h);
      var list := CreatedList(output, h);
      assert list[..|output| - 1] == CreatedList(output[..|output| - 1], h);
    }
  }

  lemma {:induction false} ReportedRestored(input: seq<Input>)
    ensures AsCoins(RestoredList(input)) == Restored(input)
  {
    if input != [] {
      ReportedRestored(input[..|input| - 1]);
      var list := RestoredList(input);
      assert list[..|input| - 1] == RestoredList(input[..|input| - 1]);
    }
  }

  lemma ReportedSpent(input: seq<Input>)
    ensures Elems(CoinsOf(input)) == Spent(input)
  {
    forall c ensures c in CoinsOf(input) <==> c in Spent(input) {
      if c in CoinsOf(input) {
        var i :| 0 <= i < |CoinsOf(input)| && CoinsOf(input)[i] == c;
        assert input[i].coin == c;
      }
      if c in Spent(input) {
        var i :| 0 <= i < |input| && input[i].coin == c;
        assert CoinsOf(input)[i] == c;
      }
    }
  }

  lemma ReportedIds(output: seq<Output>, h: Hash)
    ensures Elems(IdList(|output|, h)) == Ids(output, h)
  {
    forall c ensures c in IdList(|output|, h) <==> c in Ids(output, h) {
      if c in Ids(output, h) { assert IdList(|output|, h)[c.index] == c; }
    }
  }

  /** What the two operations report is exactly what they do to the coins. */
  lemma ReportIsTheChange(m: Coins, t: Transaction, h: Hash)
    ensures Accepts(m, t) ==> Apply(m, t, h) == (m - Elems(CoinsOf(t.input))) + AsCoins(CreatedList(t.output, h))
    ensures Ids(t.output, h) <= m.Keys ==>
              Undo(m, t, h) == (m - Elems(IdList(|t.output|, h))) + AsCoins(RestoredList(t.input))
  {
    hide Accepts, AsCoins, CreatedList, RestoredList, CoinsOf, IdList;
    ReportedCreated(t.output, h);
    ReportedRestored(t.input);
    ReportedSpent(t.input);
    ReportedIds(t.output, h);
  }
}
