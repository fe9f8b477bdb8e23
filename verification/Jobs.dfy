/** The jobs handed to the ledger workers, and why jobs that touch different transactions commute. */
module Jobs {
  import opened Common
  import opened Utxo

  /** `(add, transaction, hash)` as sent to the workers. */
  datatype Job = Job(add: bool, tx: Transaction, hash: Hash)

  /** The transaction hashes a job may read or write coins of. */
  function Touched(j: Job): set<Hash> {
    {j.hash} + set i | 0 <= i < |j.tx.input| :: j.tx.input[i].coin.hash
  }

  function Exec(m: Coins, j: Job): Coins {
    if j.add then Apply(m, j.tx, j.hash) else Undo(m, j.tx, j.hash)
  }

  function ExecAll(m: Coins, jobs: seq<Job>): Coins
    decreases |jobs|
  {
    if jobs == [] then m else ExecAll(Exec(m, jobs[0]), jobs[1..])
  }

  // ---- locality: a job neither depends on nor changes coins of other transactions ----

  function Get(m: Coins, c: CoinId): Option<Output> {
    if c in m then Some(m[c]) else None
  }

  ghost predicate Same(m: Coins, m': Coins, on: set<Hash>) {
    forall c: CoinId :: c.hash in on ==> Get(m, c) == Get(m', c)
  }

  lemma EqualByGet(m: Coins, m': Coins)
    requires forall c: CoinId :: Get(m, c) == Get(m', c)
    ensures m == m'
  {
    forall c: CoinId
      ensures c in m <==> c in m'
      ensures c in m && c in m' ==> m[c] == m'[c]
    {
      assert Get(m, c) == Get(m', c);
    }
  }

  lemma InputTouched(j: Job, i: nat)
    requires i < |j.tx.input|
    ensures j.tx.input[i].coin.hash in Touched(j)
  {
  }

  lemma SpentTouched(j: Job, c: CoinId)
    requires c in Spent(j.tx.input)
    ensures c.hash in Touched(j)
  {
    var i :| 0 <= i < |j.tx.input| && j.tx.input[i].coin == c;
    InputTouched(j, i);
  }

  lemma AcceptsLocal(m: Coins, m': Coins, j: Job)
    requires Same(m, m', Touched(j))
    ensures Accepts(m, j.tx) <==> Accepts(m', j.tx)
  {
    forall i | 0 <= i < |j.tx.input|
      ensures Get(m, j.tx.input[i].coin) == Get(m', j.tx.input[i].coin)
    {
      InputTouched(j, i);
    }
    if Unspent(m, j.tx.input) && Unspent(m', j.tx.input) {
      SameOwners(m, m', j.tx.input);
    }
  }

  lemma SameOwners(m: Coins, m': Coins, input: seq<Input>)
    requires Unspent(m, input) && Unspent(m', input)
    requires forall i :: 0 <= i < |input| ==> Get(m, input[i].coin) == Get(m', input[i].coin)
    ensures Owners(m, input) == Owners(m', input)
  {
    forall x
      ensures x in Owners(m, input) <==> x in Owners(m', input)
    {
      if x in Owners(m, input) {
        var i :| 0 <= i < |input| && m[input[i].coin].recipient == x;
        assert Get(m, input[i].coin) == Get(m', input[i].coin);
        assert m'[input[i].coin].recipient == x;
      }
      if x in Owners(m', input) {
        var i :| 0 <= i < |input| && m'[input[i].coin].recipient == x;
        assert Get(m, input[i].coin) == Get(m', input[i].coin);
        assert m[input[i].coin].recipient == x;
      }
    }
  }

  lemma OutputsLocal(m: Coins, m': Coins, j: Job)
    requires Same(m, m', Touched(j))
    ensures Ids(j.tx.output, j.hash) <= m.Keys <==> Ids(j.tx.output, j.hash) <= m'.Keys
  {
    forall c | c in Ids(j.tx.output, j.hash)
      ensures c in m <==> c in m'
    {
      assert c.hash in Touched(j);
      assert Get(m, c) == Get(m', c);
    }
  }

  /** On touched coins the result depends only on touched coins; the rest is left alone. */
  lemma ExecLocal(m: Coins, m': Coins, j: Job, c: CoinId)
    requires Same(m, m', Touched(j))
    ensures c.hash in Touched(j) ==> Get(Exec(m, j), c) == Get(Exec(m', j), c)
    ensures c.hash !in Touched(j) ==> Get(Exec(m, j), c) == Get(m, c)
  {
    hide Accepts, Spent, Restored, Created, Ids;
    if c.hash in Touched(j) { assert Get(m, c) == Get(m', c); }
    if j.add {
      AcceptsLocal(m, m', j);
      CreatedAt(j.tx.output, j.hash, c);
      if c in Spent(j.tx.input) { SpentTouched(j, c); }
    } else {
      OutputsLocal(m, m', j);
      RestoredKeys(j.tx.input);
      IdsOf(j.tx.output, j.hash, c);
      if c in Restored(j.tx.input) { SpentTouched(j, c); }
    }
  }

  lemma IdsOf(output: seq<Output>, h: Hash, c: CoinId)
    ensures c in Ids(output, h) ==> c.hash == h
  {
  }

  /** Jobs that touch disjoint transactions commute. */
  lemma ExecCommute(m: Coins, a: Job, b: Job)
    requires Touched(a) !! Touched(b)
    ensures Exec(Exec(m, a), b) == Exec(Exec(m, b), a)
  {
    hide Exec, Touched;
    var ma, mb := Exec(m, a), Exec(m, b);
    forall c: CoinId
      ensures c.hash !in Touched(a) ==> Get(ma, c) == Get(m, c)
      ensures c.hash !in Touched(b) ==> Get(mb, c) == Get(m, c)
    {
      ExecLocal(m, m, a, c);
      ExecLocal(m, m, b, c);
    }
    assert Same(ma, m, Touched(b)) && Same(mb, m, Touched(a));
    forall c: CoinId
      ensures Get(Exec(ma, b), c) == Get(Exec(mb, a), c)
    {
      ExecLocal(ma, m, b, c);
      ExecLocal(mb, m, a, c);
    }
    EqualByGet(Exec(ma, b), Exec(mb, a));
  }

  ghost predicate DisjointFrom(j: Job, jobs: seq<Job>) {
    forall i :: 0 <= i < |jobs| ==> Touched(j) !! Touched(jobs[i])
  }

  lemma DisjointTail(j: Job, jobs: seq<Job>)
    requires DisjointFrom(j, jobs) && jobs != []
    ensures DisjointFrom(j, jobs[1..])
  {
    forall i | 0 <= i < |jobs[1..]|
      ensures Touched(j) !! Touched(jobs[1..][i])
    {
      assert jobs[1..][i] == jobs[i + 1];
    }
  }

  /** A job that touches nothing of the jobs before it can run first. */
  lemma {:induction false} ExecFirst(m: Coins, jobs: seq<Job>, i: nat)
    requires i < |jobs| && DisjointFrom(jobs[i], jobs[..i])
    ensures ExecAll(m, jobs) == ExecAll(Exec(m, jobs[i]), jobs[..i] + jobs[i + 1..])
    decreases i
  {
    hide Exec, Touched;
    var rest := jobs[..i] + jobs[i + 1..];
    if i == 0 {
      assert rest == jobs[1..];
    } else {
      var tail := jobs[1..];
      assert tail[i - 1] == jobs[i] && tail[..i - 1] == jobs[..i][1..];
      assert rest[0] == jobs[0] && rest[1..] == tail[..i - 1] + tail[i..];
      DisjointTail(jobs[i], jobs[..i]);
      ExecFirst(Exec(m, jobs[0]), tail, i - 1);
      assert jobs[..i][0] == jobs[0];
      ExecCommute(m, jobs[0], jobs[i]);
    }
  }

  lemma {:induction false} ExecSnoc(m: Coins, jobs: seq<Job>, j: Job)
    ensures ExecAll(m, jobs + [j]) == Exec(ExecAll(m, jobs), j)
    decreases |jobs|
  {
    if jobs != [] {
      assert (jobs + [j])[1..] == jobs[1..] + [j];
      ExecSnoc(Exec(m, jobs[0]), jobs[1..], j);
    } else {
      assert [j][1..] == [];
    }
  }
}
