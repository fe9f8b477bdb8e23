/** What the coin set is while jobs are in flight: in every reachable state it is the replay of some list of the
    ledger's transactions, so its value never exceeds the initial one - not even in the middle of a diff. */
module Snapshots {
  import opened Common
  import opened Utxo
  import opened Rollback
  import opened Jobs
  import opened Dispatcher
  import opened Serializability
  import M = LedgerManager

  // ---- lists of transactions and their order ----

  function AddOf(t: Tx): Job { Job(true, t.0, t.1) }

  function RemoveOf(t: Tx): Job { Job(false, t.0, t.1) }

  function TxOf(j: Job): Tx { (j.tx, j.hash) }

  ghost predicate Apart(x: Tx, y: Tx) {
    Touched(AddOf(x)) !! Touched(AddOf(y))
  }

  lemma SameTouched(j: Job)
    ensures Touched(j) == Touched(AddOf(TxOf(j))) && j.hash in Touched(j)
  {
  }

  ghost predicate Before(list: seq<Tx>, x: Tx, y: Tx) {
    exists i, j :: 0 <= i < j < |list| && list[i] == x && list[j] == y
  }

  ghost predicate Distinct(list: seq<Tx>) {
    forall i, j :: 0 <= i < j < |list| ==> list[i].1 != list[j].1
  }

  lemma BeforeSnoc(list: seq<Tx>, t: Tx, x: Tx, y: Tx)
    ensures Before(list + [t], x, y) <==> Before(list, x, y) || (x in list && y == t)
  {
    var more := list + [t];
    if Before(more, x, y) {
      var i, j :| 0 <= i < j < |more| && more[i] == x && more[j] == y;
      if j < |list| { assert list[i] == x && list[j] == y; } else { assert list[i] == x; }
    }
    if Before(list, x, y) {
      var i, j :| 0 <= i < j < |list| && list[i] == x && list[j] == y;
      assert more[i] == x && more[j] == y;
    }
    if x in list && y == t {
      var i :| 0 <= i < |list| && list[i] == x;
      assert more[i] == x && more[|list|] == y;
    }
  }

  function Drop(list: seq<Tx>, k: nat): seq<Tx>
    requires k < |list|
  {
    list[..k] + list[k + 1..]
  }

  lemma BeforeDrop(list: seq<Tx>, k: nat, x: Tx, y: Tx)
    requires k < |list| && Before(Drop(list, k), x, y)
    ensures Before(list, x, y)
  {
    var less := Drop(list, k);
    var i, j :| 0 <= i < j < |less| && less[i] == x && less[j] == y;
    assert list[if i < k then i else i + 1] == x && list[if j < k then j else j + 1] == y;
  }

  lemma DropIn(list: seq<Tx>, k: nat, x: Tx)
    requires k < |list| && Distinct(list)
    ensures x in Drop(list, k) <==> x in list && x != list[k]
    ensures Distinct(Drop(list, k))
  {
    var less := Drop(list, k);
    if x in less {
      var i :| 0 <= i < |less| && less[i] == x;
      assert x == list[if i < k then i else i + 1];
    }
    if x in list && x != list[k] {
      var i :| 0 <= i < |list| && list[i] == x;
      assert less[if i < k then i else i - 1] == x;
    }
  }

  /** In a list with distinct hashes, whoever is not before is after. */
  lemma OneBefore(list: seq<Tx>, x: Tx, y: Tx)
    requires x in list && y in list && x != y
    ensures Before(list, x, y) || Before(list, y, x)
  {
    var i :| 0 <= i < |list| && list[i] == x;
    var j :| 0 <= j < |list| && list[j] == y;
  }

  lemma DistinctSame(list: seq<Tx>, x: Tx, y: Tx)
    requires Distinct(list) && x in list && y in list && x.1 == y.1
    ensures x == y
  {
    var i :| 0 <= i < |list| && list[i] == x;
    var j :| 0 <= j < |list| && list[j] == y;
  }

  // ---- what is applied, what is due, and what is in flight ----

  /** `done` are the transactions whose coins are in the set, in the order they got there; `due` is the ledger that
      the dispatched jobs lead to; `flight` are the jobs between the two. */
  ghost predicate Matches(done: seq<Tx>, due: seq<Tx>, flight: seq<Job>) {
    && Distinct(done) && Distinct(due)
    && (forall u :: u in done ==> u in due || RemoveOf(u) in flight)
    && (forall u :: u in due ==> u in done || AddOf(u) in flight)
    && (forall j :: j in flight ==> if j.add then TxOf(j) in due && TxOf(j) !in done
        else TxOf(j) in done && TxOf(j) !in due)
  }

  /** Whatever is not in ledger order, or in the way of a job in flight, touches other hashes. */
  ghost predicate Ordered(done: seq<Tx>, due: seq<Tx>, flight: seq<Job>) {
    && (forall x, y :: Before(done, x, y) && Before(due, y, x) ==> Apart(x, y))
    && (forall j, v :: j in flight && j.add && Before(due, TxOf(j), v) ==> Apart(TxOf(j), v))
    && (forall j, v :: j in flight && !j.add && Before(done, TxOf(j), v) ==> Apart(TxOf(j), v))
  }

  ghost predicate AllApart(flight: seq<Job>) {
    forall i, k :: 0 <= i < k < |flight| ==> Touched(flight[i]) !! Touched(flight[k])
  }

  lemma FlightApart(flight: seq<Job>, x: Job, y: Job)
    requires AllApart(flight) && x in flight && y in flight && x != y
    ensures Apart(TxOf(x), TxOf(y)) && x.hash != y.hash
  {
    var i :| 0 <= i < |flight| && flight[i] == x;
    var k :| 0 <= k < |flight| && flight[k] == y;
    SameTouched(x);
    SameTouched(y);
    assert Touched(x) !! Touched(y);
  }

  ghost predicate Clear(flight: seq<Job>, t: Tx) {
    forall j :: j in flight ==> Apart(TxOf(j), t) && j.hash != t.1
  }

  lemma MarkAdd(done: seq<Tx>, due: seq<Tx>, flight: seq<Job>, t: Tx)
    requires Matches(done, due, flight) && Ordered(done, due, flight) && Clear(flight, t)
    requires forall u :: u in due ==> u.1 != t.1
    ensures Matches(done, due + [t], flight + [AddOf(t)]) && Ordered(done, due + [t], flight + [AddOf(t)])
  {
    hide Apart, Before;
    assert t !in done;
    forall x, y ensures Before(due + [t], x, y) <==> Before(due, x, y) || (x in due && y == t)
      { BeforeSnoc(due, t, x, y); }
    forall x, y | Before(done, x, y) ensures x in done && y in done { BeforeIn(done, x, y); }
    forall x, y | Before(due, x, y) ensures x in due && y in due { BeforeIn(due, x, y); }
    assert forall j :: j in flight + [AddOf(t)] <==> j in flight || j == AddOf(t);
    assert forall u :: u in due + [t] <==> u in due || u == t;
  }

  lemma BeforeIn(list: seq<Tx>, x: Tx, y: Tx)
    requires Before(list, x, y)
    ensures x in list && y in list
  {
  }

  lemma MarkRemove(done: seq<Tx>, due: seq<Tx>, flight: seq<Job>, t: Tx)
    requires Matches(done, due + [t], flight) && Ordered(done, due + [t], flight) && Clear(flight, t)
    ensures Matches(done, due, flight + [RemoveOf(t)]) && Ordered(done, due, flight + [RemoveOf(t)])
  {
    hide Apart, Before;
    var was := due + [t];
    assert was[|due|] == t && t in was && forall u :: u in was <==> u in due || u == t;
    DistinctSnoc(due, t);
    assert AddOf(t) !in flight;
    assert forall j :: j in flight + [RemoveOf(t)] <==> j in flight || j == RemoveOf(t);
    forall x, y | Before(due, x, y) ensures Before(was, x, y) { BeforeSnoc(due, t, x, y); }
    forall v | Before(done, t, v) ensures Apart(t, v) {
      BeforeIn(done, t, v);
      BeforeTwice(done, t, v);
      if v in due {
        BeforeSnoc(due, t, v, t);
      } else {
        assert RemoveOf(v) in flight;
        ApartBothWays(TxOf(RemoveOf(v)), t);
      }
    }
  }

  lemma DistinctSnoc(list: seq<Tx>, t: Tx)
    requires Distinct(list + [t])
    ensures Distinct(list) && t !in list
  {
    var more := list + [t];
    forall i, j | 0 <= i < j < |list| ensures list[i].1 != list[j].1
      { assert more[i] == list[i] && more[j] == list[j]; }
    forall i | 0 <= i < |list| ensures list[i] != t { assert more[i] == list[i] && more[|list|] == t; }
  }

  lemma BeforeTwice(list: seq<Tx>, x: Tx, y: Tx)
    requires Distinct(list) && Before(list, x, y)
    ensures x != y
  {
  }

  lemma ApartBothWays(x: Tx, y: Tx)
    ensures Apart(x, y) <==> Apart(y, x)
  {
  }

  /** The job leaves the flight. */
  ghost predicate Landed(flight: seq<Job>, j: Job, rest: seq<Job>) {
    forall x :: x in rest <==> x in flight && x != j
  }

  lemma CommitAdd(done: seq<Tx>, due: seq<Tx>, flight: seq<Job>, t: Tx, rest: seq<Job>)
    requires Matches(done, due, flight) && Ordered(done, due, flight) && AllApart(flight)
    requires AddOf(t) in flight && Landed(flight, AddOf(t), rest)
    ensures Matches(done + [t], due, rest) && Ordered(done + [t], due, rest)
  {
    hide Apart, Before, AllApart;
    var more := done + [t];
    assert TxOf(AddOf(t)) == t && t in due && t !in done;
    assert forall u :: u in more <==> u in done || u == t;
    forall u | u in done ensures u.1 != t.1 {
      if u in due {
        if u.1 == t.1 { DistinctSame(due, u, t); }
      } else {
        FlightApart(flight, RemoveOf(u), AddOf(t));
      }
    }
    assert Distinct(more);
    forall x, y ensures Before(more, x, y) <==> Before(done, x, y) || (x in done && y == t)
      { BeforeSnoc(done, t, x, y); }
    forall x | x in done && Before(due, t, x) ensures Apart(x, t) {
      assert Apart(TxOf(AddOf(t)), x);
      ApartBothWays(x, t);
    }
    forall j | j in rest && !j.add ensures Apart(TxOf(j), t) { FlightApart(flight, j, AddOf(t)); }
    forall u | u in done && u !in due ensures RemoveOf(u) in rest {}
    forall u | u in due && u !in more ensures AddOf(u) in rest {}
    forall j | j in rest
      ensures if j.add then TxOf(j) in due && TxOf(j) !in more else TxOf(j) in more && TxOf(j) !in due
    {
      FlightApart(flight, j, AddOf(t));
    }
  }

  lemma CommitRemove(done: seq<Tx>, due: seq<Tx>, flight: seq<Job>, k: nat, rest: seq<Job>)
    requires k < |done| && Matches(done, due, flight) && Ordered(done, due, flight) && AllApart(flight)
    requires RemoveOf(done[k]) in flight && Landed(flight, RemoveOf(done[k]), rest)
    ensures Matches(Drop(done, k), due, rest) && Ordered(Drop(done, k), due, rest)
  {
    hide Apart, Before, AllApart, Drop;
    var t, less := done[k], Drop(done, k);
    assert TxOf(RemoveOf(t)) == t && t !in due;
    forall u ensures u in less <==> u in done && u != t { DropIn(done, k, u); }
    DropIn(done, k, t);
    forall x, y | Before(less, x, y) ensures Before(done, x, y) { BeforeDrop(done, k, x, y); }
    forall u | u in less && u !in due ensures RemoveOf(u) in rest {}
    forall u | u in due && u !in less ensures AddOf(u) in rest {}
    forall j | j in rest
      ensures if j.add then TxOf(j) in due && TxOf(j) !in less else TxOf(j) in less && TxOf(j) !in due
    {
      FlightApart(flight, j, RemoveOf(t));
    }
  }

  // ---- replaying without one transaction ----

  /** A transaction that touches nothing of what comes after it might as well come last. */
  lemma {:induction false} MoveLast(m: Coins, list: seq<Tx>, k: nat)
    requires k < |list| && forall i :: k < i < |list| ==> Apart(list[k], list[i])
    ensures ApplyAll(m, list) == Apply(ApplyAll(m, Drop(list, k)), list[k].0, list[k].1)
    decreases |list|
  {
    hide Apply, Apart;
    var n := |list| - 1;
    if k == n {
      assert Drop(list, k) == list[..n];
    } else {
      var t, last := list[k], list[n];
      MoveLast(m, list[..n], k);
      assert Drop(list, k)[..n - 1] == Drop(list[..n], k) && Drop(list, k)[n - 1] == last;
      var x := ApplyAll(m, Drop(list[..n], k));
      CommuteApart(x, t, last);
    }
  }

  lemma CommuteApart(m: Coins, x: Tx, y: Tx)
    requires Apart(x, y)
    ensures Apply(Apply(m, x.0, x.1), y.0, y.1) == Apply(Apply(m, y.0, y.1), x.0, x.1)
  {
    hide Touched, Apply;
    ExecCommute(m, AddOf(x), AddOf(y));
  }

  // ---- the transactions of the system ----

  /** The hypotheses on everything that may enter the ledger: a hash names one transaction and is not the origin of
      an initial coin, there are outputs, and inputs state the owners of their coins. */
  ghost predicate Tame(init: Coins, all: set<Tx>) {
    && (forall x, y :: x in all && y in all && x.1 == y.1 ==> x == y)
    && (forall x :: x in all ==> Fresh(init, x.1) && x.0.output != [])
    && (forall x, i :: x in all && 0 <= i < |x.0.input| ==> Truthful(init, all, x.0.input[i]))
  }

  ghost predicate Truthful(init: Coins, all: set<Tx>, input: Input) {
    && (input.coin in init ==> init[input.coin].recipient == input.owner)
    && (forall y :: y in all && Makes(y, input.coin) ==> y.0.output[input.coin.index].recipient == input.owner)
  }

  ghost predicate From(list: seq<Tx>, all: set<Tx>) {
    forall u :: u in list ==> u in all
  }

  lemma TameList(init: Coins, all: set<Tx>, list: seq<Tx>)
    requires Tame(init, all) && From(list, all) && Distinct(list)
    ensures WellBehaved(init, list)
  {
    hide Fresh, Truthful;
    forall i | 0 <= i < |list| ensures OwnersMatch(init, list, list[i].0) {
      assert list[i] in all;
      forall k | 0 <= k < |list[i].0.input| ensures OwnerMatches(init, list, list[i].0.input[k]) {
        TruthfulInList(init, all, list, list[i].0.input[k]);
      }
    }
    forall i | 0 <= i < |list| ensures Fresh(init, list[i].1) && list[i].0.output != [] { assert list[i] in all; }
  }

  lemma TruthfulInList(init: Coins, all: set<Tx>, list: seq<Tx>, input: Input)
    requires Truthful(init, all, input) && From(list, all)
    ensures OwnerMatches(init, list, input)
  {
    forall j | 0 <= j < |list| && Makes(list[j], input.coin)
      ensures list[j].0.output[input.coin.index].recipient == input.owner
    {
      assert list[j] in all;
    }
  }

  /** Taking back a transaction that touches nothing of what was applied after it gives the replay without it. */
  lemma UndoDrops(init: Coins, all: set<Tx>, list: seq<Tx>, k: nat)
    requires Tame(init, all) && From(list, all) && Distinct(list)
    requires k < |list| && forall i :: k < i < |list| ==> Apart(list[k], list[i])
    ensures Undo(ApplyAll(init, list), list[k].0, list[k].1) == ApplyAll(init, Drop(list, k))
  {
    hide Apart, Undo, Apply, WellBehaved, Tame;
    var t, less := list[k], Drop(list, k);
    MoveLast(init, list, k);
    forall u ensures u in less <==> u in list && u != t { DropIn(list, k, u); }
    var more := less + [t];
    forall u | u in more ensures u in all { assert u in list; }
    assert Distinct(more) by {
      forall i | 0 <= i < |less| ensures less[i].1 != t.1 {
        assert less[i] in less;
        if less[i].1 == t.1 { DistinctSame(list, less[i], t); }
      }
      DropIn(list, k, t);
    }
    TameList(init, all, more);
    assert more[..|less|] == less && more[|less|] == t;
    RollbackIsExact(init, more, |less|);
    assert more[|less|..] == [t];
    OneTx(ApplyAll(init, more), t);
  }

  // ---- orderly jobs: additions at the end of the ledger, removals from its end ----

  ghost function StackStep(ledger: seq<Tx>, j: Job): Option<seq<Tx>> {
    if j.add then if forall u :: u in ledger ==> u.1 != j.hash then Some(ledger + [TxOf(j)]) else None
    else if ledger != [] && ledger[|ledger| - 1] == TxOf(j) then Some(ledger[..|ledger| - 1]) else None
  }

  /** The ledger that a list of jobs leads to. */
  ghost function Stack(jobs: seq<Job>): Option<seq<Tx>> {
    if jobs == [] then Some([]) else
      var before := Stack(jobs[..|jobs| - 1]);
      if before.None? then None else StackStep(before.value, jobs[|jobs| - 1])
  }

  lemma {:induction false} StackPrefix(jobs: seq<Job>, n: nat)
    requires n <= |jobs| && Stack(jobs).Some?
    ensures Stack(jobs[..n]).Some?
    decreases |jobs|
  {
    if n == |jobs| {
      assert jobs[..n] == jobs;
    } else {
      StackPrefix(jobs[..|jobs| - 1], n);
      assert jobs[..|jobs| - 1][..n] == jobs[..n];
    }
  }

  // ---- the machine ----

  ghost predicate JobsFrom(jobs: seq<Job>, all: set<Tx>) {
    forall j :: j in jobs ==> TxOf(j) in all
  }

  /** The coins are the replay of `done`. */
  ghost predicate Snap(init: Coins, all: set<Tx>, s: System, done: seq<Tx>) {
    && Stack(s.dispatched).Some?
    && Matches(done, Stack(s.dispatched).value, s.pending) && Ordered(done, Stack(s.dispatched).value, s.pending)
    && From(done, all) && JobsFrom(s.pending, all) && s.coins == ApplyAll(init, done)
  }

  lemma PendingApart(s: System)
    requires Tokens(s) && Board(s)
    ensures AllApart(s.pending)
  {
    forall i, k | 0 <= i < k < |s.pending| ensures Touched(s.pending[i]) !! Touched(s.pending[k])
      { PendingDisjoint(s, i, k); }
  }

  lemma MarkClear(capacity: nat, s: System)
    requires Board(s) && Enabled(capacity, s, Mark)
    ensures Clear(s.pending, TxOf(s.todo[0]))
  {
    hide Touched, Hot;
    MarkIsNew(capacity, s);
    SameTouched(s.todo[0]);
    forall j | j in s.pending ensures Apart(TxOf(j), TxOf(s.todo[0])) && j.hash != s.todo[0].hash {
      SameTouched(j);
      assert s.transactionCoins[j.hash] == Touched(j);
    }
  }

  lemma StepMark(capacity: nat, init: Coins, all: set<Tx>, s: System, done: seq<Tx>)
    requires Inv(init, s) && Enabled(capacity, s, Mark) && Snap(init, all, s, done)
    requires Stack(s.dispatched + [s.todo[0]]).Some? && TxOf(s.todo[0]) in all
    ensures Snap(init, all, Do(capacity, s, Mark), done)
  {
    hide Matches, Ordered, Touched, Clear;
    var j, due := s.todo[0], Stack(s.dispatched).value;
    assert (s.dispatched + [j])[..|s.dispatched|] == s.dispatched;
    MarkClear(capacity, s);
    if j.add {
      MarkAdd(done, due, s.pending, TxOf(j));
      assert AddOf(TxOf(j)) == j;
    } else {
      var rest := due[..|due| - 1];
      assert due == rest + [TxOf(j)];
      MarkRemove(done, rest, s.pending, TxOf(j));
      assert RemoveOf(TxOf(j)) == j;
    }
  }

  /** Landing a job takes the replay of what was done to the replay of what is done then. */
  lemma Lands(init: Coins, all: set<Tx>, done: seq<Tx>, due: seq<Tx>, flight: seq<Job>, j: Job, rest: seq<Job>)
    returns (after: seq<Tx>)
    requires Tame(init, all) && From(done, all) && TxOf(j) in all && AllApart(flight)
    requires Matches(done, due, flight) && Ordered(done, due, flight) && j in flight && Landed(flight, j, rest)
    ensures Matches(after, due, rest) && Ordered(after, due, rest) && From(after, all)
    ensures Exec(ApplyAll(init, done), j) == ApplyAll(init, after)
  {
    hide Tame, Apply, Undo, Ordered, AllApart, Landed;
    if j.add {
      after := done + [TxOf(j)];
      assert AddOf(TxOf(j)) == j && after[..|done|] == done;
      CommitAdd(done, due, flight, TxOf(j), rest);
    } else {
      assert RemoveOf(TxOf(j)) == j && TxOf(j) in done;
      var k :| 0 <= k < |done| && done[k] == TxOf(j);
      after := Drop(done, k);
      CommitRemove(done, due, flight, k, rest);
      ApartAfter(done, due, flight, j, k);
      UndoDrops(init, all, done, k);
      forall u | u in after ensures u in all { DropIn(done, k, u); }
    }
  }

  lemma StepCommit(capacity: nat, init: Coins, all: set<Tx>, s: System, w: nat, done: seq<Tx>) returns (after: seq<Tx>)
    requires Inv(init, s) && Enabled(capacity, s, Commit(w)) && Snap(init, all, s, done)
    requires Tame(init, all)
    ensures Snap(init, all, Do(capacity, s, Commit(w)), after)
  {
    hide Write, Board, Tokens, Stack, Tame, Exec, Matches, Ordered, Without, Complete, From, AllApart;
    var j := s.workers[w].job;
    HeldIsPending(s, w);
    assert Current(s.coins, s.workers[w]);
    WriteIsExec(s.coins, j, s.workers[w].seen);
    PendingApart(s);
    LandedWithout(s.pending, j);
    after := Lands(init, all, done, Stack(s.dispatched).value, s.pending, j, Without(s.pending, j));
  }

  lemma ApartAfter(done: seq<Tx>, due: seq<Tx>, flight: seq<Job>, j: Job, k: nat)
    requires Ordered(done, due, flight) && j in flight && !j.add && k < |done| && done[k] == TxOf(j)
    ensures forall i :: k < i < |done| ==> Apart(done[k], done[i])
  {
    hide Apart;
    forall i | k < i < |done| ensures Apart(done[k], done[i]) { assert Before(done, done[k], done[i]); }
  }

  lemma ApartDiffer(flight: seq<Job>, i: nat, k: nat)
    requires AllApart(flight) && i < |flight| && k < |flight| && i != k
    ensures flight[i] != flight[k]
  {
    SameTouched(flight[i]);
    SameTouched(flight[k]);
    hide Touched;
    assert Touched(flight[i]) !! Touched(flight[k]);
  }

  lemma LandedWithout(flight: seq<Job>, j: Job)
    requires AllApart(flight) && j in flight
    ensures Landed(flight, j, Without(flight, j))
  {
    hide AllApart, Without;
    var i := WithoutAt(flight, j);
    var rest := flight[..i] + flight[i + 1..];
    forall x | x in rest ensures x in flight && x != j {
      var k :| 0 <= k < |rest| && rest[k] == x;
      var k' := if k < i then k else k + 1;
      assert flight[k'] == x;
      ApartDiffer(flight, k', i);
    }
    forall x | x in flight && x != j ensures x in rest {
      var k :| 0 <= k < |flight| && flight[k] == x;
      assert rest[if k < i then k else k - 1] == x;
    }
  }

  lemma StepSnap(capacity: nat, init: Coins, all: set<Tx>, s: System, step: Step, done: seq<Tx>)
    returns (after: seq<Tx>)
    requires Inv(init, s) && Enabled(capacity, s, step) && Snap(init, all, s, done)
    requires Tame(init, all) && JobsFrom(s.arrived, all) && Stack(s.arrived).Some?
    ensures Snap(init, all, Do(capacity, s, step), after)
  {
    hide Snap, Tame, Stack, Tokens, Board, Reads, ExecAll;
    if step.Commit? {
      after := StepCommit(capacity, init, all, s, step.worker, done);
    } else if step.Mark? {
      MarkOrderly(capacity, init, s);
      assert s.todo[0] in s.arrived by { assert s.arrived[|s.dispatched|] == s.todo[0]; }
      StepMark(capacity, init, all, s, done);
      after := done;
    } else {
      SnapFrame(init, all, s, Do(capacity, s, step), done);
      after := done;
    }
  }

  lemma SnapFrame(init: Coins, all: set<Tx>, s: System, s': System, done: seq<Tx>)
    requires Snap(init, all, s, done) && s'.coins == s.coins && s'.dispatched == s.dispatched && s'.pending == s.pending
    ensures Snap(init, all, s', done)
  {
  }

  lemma MarkOrderly(capacity: nat, init: Coins, s: System)
    requires Inv(init, s) && Enabled(capacity, s, Mark) && Stack(s.arrived).Some?
    ensures Stack(s.dispatched + [s.todo[0]]).Some?
  {
    hide Tokens, Board, Reads, Stack, ExecAll;
    var n := |s.dispatched| + 1;
    assert s.arrived[..n] == s.dispatched + [s.todo[0]];
    StackPrefix(s.arrived, n);
  }

  // ---- whole runs ----

  lemma ArrivedGrows(capacity: nat, s: System, steps: seq<Step>)
    requires Executes(capacity, s, steps)
    ensures s.arrived <= Final(capacity, s, steps).arrived
    decreases |steps|
  {
    hide Enabled, Write, Without, Touched, Lookups;
    if steps != [] { ArrivedGrows(capacity, Do(capacity, s, steps[0]), steps[1..]); }
  }

  lemma {:induction false} RunSnap(capacity: nat, init: Coins, all: set<Tx>, s: System, steps: seq<Step>,
                                   done: seq<Tx>) returns (after: seq<Tx>)
    requires Inv(init, s) && Executes(capacity, s, steps) && Snap(init, all, s, done) && Tame(init, all)
    requires JobsFrom(Final(capacity, s, steps).arrived, all) && Stack(Final(capacity, s, steps).arrived).Some?
    ensures Snap(init, all, Final(capacity, s, steps), after)
    decreases |steps|
  {
    hide Inv, Enabled, Do, Snap, Tame, Stack;
    if steps == [] {
      after := done;
    } else {
      ArrivedGrows(capacity, s, steps);
      ArrivedPrefix(s.arrived, Final(capacity, s, steps).arrived, all);
      StepKeeps(capacity, init, s, steps[0]);
      var next := StepSnap(capacity, init, all, s, steps[0], done);
      after := RunSnap(capacity, init, all, Do(capacity, s, steps[0]), steps[1..], next);
    }
  }

  lemma ArrivedPrefix(a: seq<Job>, b: seq<Job>, all: set<Tx>)
    requires a <= b && JobsFrom(b, all) && Stack(b).Some?
    ensures JobsFrom(a, all) && Stack(a).Some?
  {
    hide Stack;
    assert b[..|a|] == a;
    StackPrefix(b, |a|);
    forall j | j in a ensures j in b {}
  }

  /** In every reachable state, in the middle of any diff, the coins are the replay of some list of the
      transactions; hence their value never exceeds the initial one. */
  lemma EveryStateIsAReplay(capacity: nat, init: Coins, workers: nat, steps: seq<Step>, all: set<Tx>)
    returns (done: seq<Tx>)
    requires Executes(capacity, Start(init, workers), steps) && Tame(init, all)
    requires
      var arrived := Final(capacity, Start(init, workers), steps).arrived;
      JobsFrom(arrived, all) && Stack(arrived).Some?
    ensures
      var s := Final(capacity, Start(init, workers), steps);
      && s.coins == ApplyAll(init, done) && Distinct(done) && From(done, all)
      && ((forall t :: t in all ==> Sane(t.0)) ==> Total(s.coins) <= Total(init))
  {
    hide Executes, Final, Inv, Tame, Total, Sane, JobsFrom, Stack;
    StartKeeps(init, workers);
    StartSnap(init, all, workers);
    done := RunSnap(capacity, init, all, Start(init, workers), steps, []);
    TameList(init, all, done);
    if forall t :: t in all ==> Sane(t.0) {
      TotalNeverExceedsInitial(init, done, |done|);
      assert done[..|done|] == done;
    }
  }

  lemma StartSnap(init: Coins, all: set<Tx>, workers: nat)
    ensures Snap(init, all, Start(init, workers), [])
  {
  }

  // ---- the jobs of ledger diffs are orderly ----

  lemma {:induction false} StackAdds(jobs: seq<Job>, kept: seq<Tx>, added: seq<Tx>)
    requires Stack(jobs) == Some(kept) && Distinct(kept + added)
    ensures Stack(jobs + M.ToJobs(true, added)) == Some(kept + added)
  {
    if added == [] {
      assert jobs + M.ToJobs(true, added) == jobs && kept + added == kept;
    } else {
      var k := |added| - 1;
      var t := added[k];
      assert kept + added == (kept + added[..k]) + [t];
      DistinctSnoc(kept + added[..k], t);
      StackAdds(jobs, kept, added[..k]);
      var all := jobs + M.ToJobs(true, added);
      assert all[..|all| - 1] == jobs + M.ToJobs(true, added[..k]) && all[|all| - 1] == AddOf(t);
      forall u | u in kept + added[..k] ensures u.1 != t.1 {
        var i :| 0 <= i < |kept + added[..k]| && (kept + added[..k])[i] == u;
        assert (kept + added)[i] == u && (kept + added)[|kept| + k] == t;
      }
    }
  }

  lemma StackSnoc(jobs: seq<Job>, j: Job)
    requires Stack(jobs).Some?
    ensures Stack(jobs + [j]) == StackStep(Stack(jobs).value, j)
  {
    assert (jobs + [j])[..|jobs|] == jobs;
  }

  lemma {:induction false} StackRemoves(jobs: seq<Job>, kept: seq<Tx>, removed: seq<Tx>, n: nat)
    requires Stack(jobs) == Some(kept + removed) && n <= |removed|
    ensures Stack(jobs + M.ToJobs(false, Reverse(removed))[..n]) == Some(kept + removed[..|removed| - n])
    decreases n
  {
    hide Stack;
    var undo := M.ToJobs(false, Reverse(removed));
    if n == 0 {
      assert jobs + undo[..0] == jobs && removed[..|removed|] == removed;
    } else {
      StackRemoves(jobs, kept, removed, n - 1);
      var last, ledger := removed[|removed| - n], kept + removed[..|removed| - n + 1];
      assert undo[..n] == undo[..n - 1] + [RemoveOf(last)];
      assert jobs + undo[..n] == (jobs + undo[..n - 1]) + [RemoveOf(last)];
      StackSnoc(jobs + undo[..n - 1], RemoveOf(last));
      assert ledger[..|ledger| - 1] == kept + removed[..|removed| - n] && ledger[|ledger| - 1] == last;
    }
  }

  /** The jobs of any history of diffs lead to its last ledger. */
  lemma {:induction false} DiffsAreOrderly(ledgers: seq<seq<Tx>>, diffs: seq<(seq<Tx>, seq<Tx>)>)
    requires M.History(ledgers, diffs) && forall i :: 0 <= i < |ledgers| ==> Distinct(ledgers[i])
    ensures Stack(M.AllJobs(diffs)) == Some(ledgers[|diffs|])
  {
    hide Distinct, Stack;
    if diffs == [] {
      StackNone();
    } else {
      var k := |diffs| - 1;
      DiffsAreOrderly(ledgers[..k + 1], diffs[..k]);
      assert M.Diff(ledgers[k], diffs[k].0, diffs[k].1, ledgers[k + 1]);
      var kept :| ledgers[k] == kept + diffs[k].0 && ledgers[k + 1] == kept + diffs[k].1;
      var jobs, undo := M.AllJobs(diffs[..k]), M.ToJobs(false, Reverse(diffs[k].0));
      StackRemoves(jobs, kept, diffs[k].0, |diffs[k].0|);
      assert undo[..|diffs[k].0|] == undo && kept + diffs[k].0[..0] == kept;
      StackAdds(jobs + undo, kept, diffs[k].1);
      assert M.AllJobs(diffs) == jobs + undo + M.ToJobs(true, diffs[k].1);
    }
  }

  lemma StackNone()
    ensures Stack([]) == Some([])
  {
  }

  lemma {:induction false} DiffJobsFrom(ledgers: seq<seq<Tx>>, diffs: seq<(seq<Tx>, seq<Tx>)>, all: set<Tx>)
    requires M.History(ledgers, diffs) && forall i :: 0 <= i < |ledgers| ==> From(ledgers[i], all)
    ensures JobsFrom(M.AllJobs(diffs), all)
  {
    if diffs != [] {
      var k := |diffs| - 1;
      DiffJobsFrom(ledgers[..k + 1], diffs[..k], all);
      assert M.Diff(ledgers[k], diffs[k].0, diffs[k].1, ledgers[k + 1]);
      var kept :| ledgers[k] == kept + diffs[k].0 && ledgers[k + 1] == kept + diffs[k].1;
      forall u | u in diffs[k].0 ensures u in all { assert u in ledgers[k]; }
      forall u | u in diffs[k].1 ensures u in all { assert u in ledgers[k + 1]; }
      forall j | j in M.DiffJobs(diffs[k].0, diffs[k].1) ensures TxOf(j) in all {
        JobOfDiff(diffs[k].0, diffs[k].1, j);
      }
    }
  }

  lemma JobOfDiff(removed: seq<Tx>, added: seq<Tx>, j: Job)
    requires j in M.DiffJobs(removed, added)
    ensures TxOf(j) in removed || TxOf(j) in added
  {
    var jobs := M.DiffJobs(removed, added);
    var i :| 0 <= i < |jobs| && jobs[i] == j;
    if i < |removed| { assert TxOf(j) == removed[|removed| - 1 - i]; } else { assert TxOf(j) == added[i - |removed|]; }
  }

  /** For the diffs of any ledger history, received in whole or in part: at every moment of every interleaving the
      coins are a replay of ledger transactions, and their value is at most the initial one. */
  lemma ValueNeverExceedsInitial(capacity: nat, init: Coins, workers: nat, steps: seq<Step>,
                                 ledgers: seq<seq<Tx>>, diffs: seq<(seq<Tx>, seq<Tx>)>, all: set<Tx>)
                                   returns (done: seq<Tx>)
    requires Executes(capacity, Start(init, workers), steps) && Tame(init, all) && M.History(ledgers, diffs)
    requires forall i :: 0 <= i < |ledgers| ==> Distinct(ledgers[i]) && From(ledgers[i], all)
    requires Final(capacity, Start(init, workers), steps).arrived <= M.AllJobs(diffs)
    ensures
      var s := Final(capacity, Start(init, workers), steps);
      && s.coins == ApplyAll(init, done) && Distinct(done) && From(done, all)
      && ((forall t :: t in all ==> Sane(t.0)) ==> Total(s.coins) <= Total(init))
  {
    hide Executes, Final, Tame, Total, Sane, JobsFrom, Stack, Distinct, From, M.History;
    DiffsAreOrderly(ledgers, diffs);
    DiffJobsFrom(ledgers, diffs, all);
    ArrivedPrefix(Final(capacity, Start(init, workers), steps).arrived, M.AllJobs(diffs), all);
    done := EveryStateIsAReplay(capacity, init, workers, steps, all);
  }
}
