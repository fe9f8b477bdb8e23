/** Every run of the dispatcher and its workers is equivalent to serial execution in dispatch order, never
    panics, never blocks for good and always comes to rest. */
module Serializability {
  import opened Common
  import opened Utxo
  import opened Jobs
  import opened Dispatcher

  // ---- counting workers and jobs ----

  lemma {:induction false} WorkerChanges(ws: seq<Worker>, i: nat, w: Worker, j: Job, h: Hash)
    requires i < |ws|
    ensures Held(ws[i := w], j) + Holds(ws[i], j) == Held(ws, j) + Holds(w, j)
    ensures Owed(ws[i := w], h) + Owes(ws[i], h) == Owed(ws, h) + Owes(w, h)
  {
    var k := |ws| - 1;
    if i == k {
      assert ws[i := w][..k] == ws[..k];
    } else {
      assert ws[i := w][..k] == ws[..k][i := w];
      WorkerChanges(ws[..k], i, w, j, h);
    }
  }

  lemma {:induction false} NamedConcat(a: seq<Job>, b: seq<Job>, h: Hash)
    ensures Named(a + b, h) == Named(a, h) + Named(b, h)
  {
    if b == [] {
      assert a + b == a;
    } else {
      assert (a + b)[..|a + b| - 1] == a + b[..|b| - 1];
      NamedConcat(a, b[..|b| - 1], h);
    }
  }

  lemma NamedSplit(jobs: seq<Job>, i: nat, h: Hash)
    requires i < |jobs|
    ensures Named(jobs, h) == Named(jobs[..i] + jobs[i + 1..], h) + if jobs[i].hash == h then 1 else 0
  {
    assert jobs == jobs[..i] + [jobs[i]] + jobs[i + 1..];
    NamedConcat(jobs[..i] + [jobs[i]], jobs[i + 1..], h);
    NamedConcat(jobs[..i], [jobs[i]], h);
    NamedConcat(jobs[..i], jobs[i + 1..], h);
    assert [jobs[i]][..0] == [];
  }

  lemma NamedSnoc(jobs: seq<Job>, j: Job, h: Hash)
    ensures Named(jobs + [j], h) == Named(jobs, h) + if j.hash == h then 1 else 0
  {
    assert (jobs + [j])[..|jobs|] == jobs;
  }

  lemma CountSplit<T>(s: seq<T>, i: nat, x: T)
    requires i < |s|
    ensures Count(s, x) == Count(s[..i] + s[i + 1..], x) + if s[i] == x then 1 else 0
  {
    assert s == s[..i] + [s[i]] + s[i + 1..];
  }

  lemma CountSnoc<T>(s: seq<T>, y: T, x: T)
    ensures Count(s + [y], x) == Count(s, x) + if x == y then 1 else 0
  {
  }

  lemma CountTail<T>(s: seq<T>, x: T)
    requires s != []
    ensures Count(s, x) == Count(s[1..], x) + if s[0] == x then 1 else 0
  {
    assert s == [s[0]] + s[1..];
  }

  lemma CountTwice<T>(s: seq<T>, i: nat, x: T) returns (k: nat)
    requires i < |s| && s[i] == x && Count(s, x) >= 2
    ensures k < |s| && k != i && s[k] == x
  {
    CountSplit(s, i, x);
    var rest := s[..i] + s[i + 1..];
    assert x in multiset(rest);
    var k' :| 0 <= k' < |rest| && rest[k'] == x;
    k := if k' < i then k' else k' + 1;
  }

  /** Where the dropped occurrence was. */
  lemma {:induction false} WithoutAt(jobs: seq<Job>, j: Job) returns (i: nat)
    requires j in jobs
    ensures i < |jobs| && jobs[i] == j && Without(jobs, j) == jobs[..i] + jobs[i + 1..]
  {
    if jobs[0] == j {
      i := 0;
    } else {
      var k := WithoutAt(jobs[1..], j);
      i := k + 1;
      assert jobs[..i] == [jobs[0]] + jobs[1..][..k];
      assert jobs[i + 1..] == jobs[1..][k + 1..];
    }
  }

  lemma WithoutCounts(jobs: seq<Job>, j: Job, x: Job, h: Hash)
    requires j in jobs
    ensures Count(jobs, x) == Count(Without(jobs, j), x) + if x == j then 1 else 0
    ensures Named(jobs, h) == Named(Without(jobs, j), h) + if j.hash == h then 1 else 0
  {
    hide Count, Named, Without;
    var i := WithoutAt(jobs, j);
    CountSplit(jobs, i, x);
    NamedSplit(jobs, i, h);
  }

  /** Two positions with the same hash count twice. */
  lemma NamedTwice(jobs: seq<Job>, i: nat, k: nat)
    requires i < |jobs| && k < |jobs| && i != k && jobs[i].hash == jobs[k].hash
    ensures Named(jobs, jobs[i].hash) >= 2
  {
    var h := jobs[i].hash;
    var rest := jobs[..i] + jobs[i + 1..];
    var k' := if k < i then k else k - 1;
    NamedSplit(jobs, i, h);
    assert rest[k'] == jobs[k];
    NamedSplit(rest, k', h);
  }

  /** Hashes of pending jobs are distinct, so the jobs are pairwise disjoint. */
  lemma PendingDisjoint(s: System, i: nat, k: nat)
    requires Tokens(s) && Board(s) && i < |s.pending| && k < |s.pending| && i != k
    ensures Touched(s.pending[i]) !! Touched(s.pending[k])
  {
    hide Count, Touched, Held, Owed, Named;
    var a, b := s.pending[i], s.pending[k];
    assert a in s.pending && b in s.pending;
    assert Records(s, a.hash) <= 1;
    if a.hash == b.hash {
      NamedTwice(s.pending, i, k);
    }
  }

  /** A job in a worker's hands is pending. */
  lemma HeldIsPending(s: System, w: nat)
    requires Tokens(s) && w < |s.workers| && s.workers[w].Reading?
    ensures s.workers[w].job in s.pending
  {
    var j := s.workers[w].job;
    WorkerChanges(s.workers, w, Idle, j, 0);
    assert j in multiset(s.pending);
  }

  lemma HeldTwice(ws: seq<Worker>, v: nat, w: nat, j: Job)
    requires v < |ws| && w < |ws| && v != w && Holds(ws[v], j) == 1 && Holds(ws[w], j) == 1
    ensures Held(ws, j) >= 2
  {
    WorkerChanges(ws, v, Idle, j, 0);
    WorkerChanges(ws[v := Idle], w, Idle, j, 0);
  }

  lemma HeldDisjoint(s: System, v: nat, w: nat)
    requires Tokens(s) && Board(s) && v < |s.workers| && w < |s.workers| && v != w
    requires s.workers[v].Reading? && s.workers[w].Reading?
    ensures Touched(s.workers[v].job) !! Touched(s.workers[w].job)
  {
    hide Touched, Held, Owed, Board, Named, Records, Count;
    var a, b := s.workers[v].job, s.workers[w].job;
    HeldIsPending(s, v);
    HeldIsPending(s, w);
    var i := WithoutAt(s.pending, a);
    var k := WithoutAt(s.pending, b);
    if a == b {
      HeldTwice(s.workers, v, w, a);
      var k' := CountTwice(s.pending, i, a);
      PendingDisjoint(s, i, k');
    } else {
      PendingDisjoint(s, i, k);
    }
  }

  // ---- the batch a worker writes ----

  /** As long as what was read is still stored, the batch has the effect of the whole operation. */
  lemma WriteIsExec(m: Coins, j: Job, seen: seq<Option<Output>>)
    requires Current(m, Reading(j, seen)) && Complete(j, seen)
    ensures Write(m, j, seen) == Exec(m, j)
  {
    hide Spent, Created, Restored;
    if j.add { AddDecision(m, j, seen); } else { RemoveDecision(m, j, seen); }
  }

  lemma AddDecision(m: Coins, j: Job, seen: seq<Option<Output>>)
    requires j.add && Current(m, Reading(j, seen)) && Complete(j, seen)
    ensures AllOk(j, seen) <==> Unspent(m, j.tx.input)
    ensures AllOk(j, seen) ==> Recipients(seen) == Owners(m, j.tx.input)
  {
    var input := j.tx.input;
    forall k | 0 <= k < |seen|
      ensures seen[k] == Get(m, input[k].coin)
      ensures ReadOk(j, k, seen[k]) <==> input[k].coin in m && m[input[k].coin].value == input[k].value
    {
      assert seen[k] == Get(m, Lookups(j)[k]);
    }
    if AllOk(j, seen) {
      assert forall k :: 0 <= k < |input| ==> ReadOk(j, k, seen[k]);
      forall x
        ensures x in Recipients(seen) <==> x in Owners(m, input)
      {
        if x in Recipients(seen) {
          var k :| 0 <= k < |seen| && seen[k].Some? && seen[k].value.recipient == x;
          assert m[input[k].coin].recipient == x;
        }
        if x in Owners(m, input) {
          var k :| 0 <= k < |input| && m[input[k].coin].recipient == x;
          assert ReadOk(j, k, seen[k]) && seen[k].value.recipient == x;
        }
      }
    }
  }

  lemma RemoveDecision(m: Coins, j: Job, seen: seq<Option<Output>>)
    requires !j.add && Current(m, Reading(j, seen)) && Complete(j, seen)
    ensures AllOk(j, seen) <==> Ids(j.tx.output, j.hash) <= m.Keys
  {
    forall k | 0 <= k < |seen|
      ensures ReadOk(j, k, seen[k]) <==> CoinId(j.hash, k) in m
      ensures CoinId(j.hash, k) in Ids(j.tx.output, j.hash)
    {
      assert seen[k] == Get(m, Lookups(j)[k]);
    }
    if AllOk(j, seen) {
      forall c | c in Ids(j.tx.output, j.hash)
        ensures c in m
      {
        assert ReadOk(j, c.index, seen[c.index]);
      }
    }
  }

  /** Reads survive another job's batch. */
  lemma CurrentAfter(m: Coins, w: Worker, j: Job)
    requires w.Reading? && Current(m, w) && Touched(w.job) !! Touched(j)
    ensures Current(Exec(m, j), w)
  {
    hide Touched, Exec;
    forall k | 0 <= k < |w.seen|
      ensures w.seen[k] == Get(Exec(m, j), Lookups(w.job)[k])
    {
      LookupTouched(w.job, k);
      ExecLocal(m, m, j, Lookups(w.job)[k]);
    }
  }

  lemma LookupTouched(j: Job, k: nat)
    requires k < |Lookups(j)|
    ensures Lookups(j)[k].hash in Touched(j)
  {
    if j.add { InputTouched(j, k); }
  }

  // ---- every step keeps the invariant ----

  lemma StepTokens(capacity: nat, s: System, step: Step)
    requires Tokens(s) && Board(s) && Enabled(capacity, s, step)
    ensures Tokens(Do(capacity, s, step))
  {
    hide Held, Owed, Named, Board, Touched, Lookups, Write, AllOk;
    var s' := Do(capacity, s, step);
    match step
    case Arrive(_) => IdleTokens(s, s');
    case Drain => ReleaseTokens(s);
    case StopDraining => IdleTokens(s, s');
    case Wait => ReleaseTokens(s);
    case Mark => MarkTokens(capacity, s);
    case Send => SendTokens(capacity, s);
    case Take(w) => TakeTokens(capacity, s, w);
    case Read(w) => ReadTokens(capacity, s, w);
    case Commit(w) => CommitTokens(capacity, s, w);
    case Notify(w) => NotifyTokens(capacity, s, w);
  }

  lemma IdleTokens(s: System, s': System)
    requires Tokens(s) && (s'.phase != Draining ==> s'.todo != [])
              && (s'.phase == Sending ==> s.phase == Sending && s.todo[0] == s'.todo[0])
    requires s'.phase != Sending ==> s.phase != Sending
    requires s' == s.(todo := s'.todo, phase := s'.phase, arrived := s'.arrived)
    ensures Tokens(s')
  {
    forall j ensures InSend(s', j) == InSend(s, j) {}
    forall h ensures Records(s', h) == Records(s, h) {}
  }

  lemma ReleaseTokens(s: System)
    requires Tokens(s) && s.notifications != [] && s.notifications[0] in s.transactionCoins
    ensures Tokens(Release(s))
  {
    hide Count, Held, Owed, Named;
    var s', g := Release(s), s.notifications[0];
    forall h ensures Records(s', h) == if h in s'.transactionCoins then 1 else 0 {
      CountTail(s.notifications, h);
      assert Records(s, h) == if h in s.transactionCoins then 1 else 0;
    }
    forall j: Job ensures Count(s'.pending, j) == Held(s'.workers, j) + Count(s'.queue, j) + InSend(s', j) {
      assert InSend(s, j) == InSend(s', j);
    }
  }

  lemma MarkTokens(capacity: nat, s: System)
    requires Tokens(s) && Board(s) && Enabled(capacity, s, Mark)
    ensures Tokens(Do(capacity, s, Mark))
  {
    hide Count, Held, Owed, Named, Board, Touched;
    var s', job := Do(capacity, s, Mark), s.todo[0];
    MarkIsNew(capacity, s);
    forall h ensures Records(s', h) == if h in s'.transactionCoins then 1 else 0 {
      assert Records(s, h) == if h in s.transactionCoins then 1 else 0;
      NamedSnoc(s.pending, job, h);
    }
    forall j: Job ensures Count(s'.pending, j) == Held(s'.workers, j) + Count(s'.queue, j) + InSend(s', j) {
      CountSnoc(s.pending, job, j);
      assert InSend(s, j) == 0;
    }
  }

  /** A job that may be marked has no record yet: its own hash would be hot. */
  lemma MarkIsNew(capacity: nat, s: System)
    requires Board(s) && Enabled(capacity, s, Mark)
    ensures s.todo[0].hash !in s.transactionCoins
    ensures forall h :: h in s.transactionCoins ==> s.transactionCoins[h] !! Touched(s.todo[0])
  {
    hide Recorded, Hot;
    assert s.todo[0].hash in Touched(s.todo[0]);
    hide Touched;
    forall h | h in s.transactionCoins
      ensures s.transactionCoins[h] <= s.scoreboard
    {
      HotIncludes(s.transactionCoins, h);
    }
  }

  lemma HotIncludes(records: map<Hash, set<Hash>>, h: Hash)
    requires h in records
    ensures records[h] <= Hot(records)
  {
  }

  lemma HotRemove(records: map<Hash, set<Hash>>, g: Hash)
    requires Exclusive(records) && g in records
    ensures Hot(records - {g}) == Hot(records) - records[g]
  {
    var rest := records - {g};
    forall x
      ensures x in Hot(rest) <==> x in Hot(records) && x !in records[g]
    {
      if x in Hot(records) && x !in records[g] {
        var h :| h in records && x in records[h];
        assert h in rest && x in rest[h];
      }
      if x in Hot(rest) {
        var h :| h in rest && x in rest[h];
        assert h in records && x in records[h] && h != g;
      }
    }
  }

  lemma HotAdd(records: map<Hash, set<Hash>>, g: Hash, touched: set<Hash>)
    requires g !in records
    ensures Hot(records[g := touched]) == Hot(records) + touched
  {
    var more := records[g := touched];
    forall x
      ensures x in Hot(more) <==> x in Hot(records) || x in touched
    {
      if x in Hot(records) {
        var h :| h in records && x in records[h];
        assert h in more && x in more[h];
      }
      if x in touched {
        assert g in more && x in more[g];
      }
    }
  }

  lemma SendTokens(capacity: nat, s: System)
    requires Tokens(s) && Enabled(capacity, s, Send)
    ensures Tokens(Do(capacity, s, Send))
  {
    hide Count, Held, Owed, Named;
    var s' := Do(capacity, s, Send);
    forall h ensures Records(s', h) == if h in s'.transactionCoins then 1 else 0 {
      assert Records(s', h) == Records(s, h);
    }
    forall j: Job ensures Count(s'.pending, j) == Held(s'.workers, j) + Count(s'.queue, j) + InSend(s', j) {
      CountSnoc(s.queue, s.todo[0], j);
    }
  }

  lemma TakeTokens(capacity: nat, s: System, w: nat)
    requires Tokens(s) && Enabled(capacity, s, Take(w))
    ensures Tokens(Do(capacity, s, Take(w)))
  {
    hide Count, Held, Owed, Named;
    var s' := Do(capacity, s, Take(w));
    forall h ensures Records(s', h) == if h in s'.transactionCoins then 1 else 0 {
      WorkerChanges(s.workers, w, s'.workers[w], s.queue[0], h);
      assert Records(s', h) == Records(s, h);
    }
    forall j: Job ensures Count(s'.pending, j) == Held(s'.workers, j) + Count(s'.queue, j) + InSend(s', j) {
      WorkerChanges(s.workers, w, s'.workers[w], j, 0);
      assert InSend(s, j) == InSend(s', j);
      CountTail(s.queue, j);
    }
  }

  lemma ReadTokens(capacity: nat, s: System, w: nat)
    requires Tokens(s) && Enabled(capacity, s, Read(w))
    ensures Tokens(Do(capacity, s, Read(w)))
  {
    hide Count, Held, Owed, Named, Lookups, AllOk;
    var s' := Do(capacity, s, Read(w));
    forall h ensures Records(s', h) == if h in s'.transactionCoins then 1 else 0 {
      WorkerChanges(s.workers, w, s'.workers[w], s.workers[w].job, h);
      assert Records(s', h) == Records(s, h);
    }
    forall j: Job ensures Count(s'.pending, j) == Held(s'.workers, j) + Count(s'.queue, j) + InSend(s', j) {
      WorkerChanges(s.workers, w, s'.workers[w], j, 0);
      assert InSend(s, j) == InSend(s', j);
    }
  }

  lemma CommitTokens(capacity: nat, s: System, w: nat)
    requires Tokens(s) && Enabled(capacity, s, Commit(w))
    ensures Tokens(Do(capacity, s, Commit(w)))
  {
    HeldIsPending(s, w);
    hide Count, Held, Owed, Named, Complete, Write, Without;
    var s', job := Do(capacity, s, Commit(w)), s.workers[w].job;
    forall h ensures Records(s', h) == if h in s'.transactionCoins then 1 else 0 {
      WorkerChanges(s.workers, w, s'.workers[w], job, h);
      WithoutCounts(s.pending, job, job, h);
      assert Records(s', h) == Records(s, h);
    }
    forall j: Job ensures Count(s'.pending, j) == Held(s'.workers, j) + Count(s'.queue, j) + InSend(s', j) {
      WorkerChanges(s.workers, w, s'.workers[w], j, 0);
      WithoutCounts(s.pending, job, j, 0);
      assert InSend(s, j) == InSend(s', j);
    }
  }

  lemma NotifyTokens(capacity: nat, s: System, w: nat)
    requires Tokens(s) && Enabled(capacity, s, Notify(w))
    ensures Tokens(Do(capacity, s, Notify(w)))
  {
    hide Count, Held, Owed, Named;
    var s' := Do(capacity, s, Notify(w));
    forall h ensures Records(s', h) == if h in s'.transactionCoins then 1 else 0 {
      WorkerChanges(s.workers, w, Idle, Job(true, Transaction([], [], []), 0), h);
      CountSnoc(s.notifications, s.workers[w].hash, h);
      assert Records(s', h) == Records(s, h);
    }
    forall j: Job ensures Count(s'.pending, j) == Held(s'.workers, j) + Count(s'.queue, j) + InSend(s', j) {
      WorkerChanges(s.workers, w, Idle, j, 0);
      assert InSend(s, j) == InSend(s', j);
    }
  }

  lemma StepBoard(capacity: nat, s: System, step: Step)
    requires Tokens(s) && Board(s) && Enabled(capacity, s, step)
    ensures Board(Do(capacity, s, step))
  {
    hide Tokens, Touched, Lookups, Write, AllOk, Hot, Exclusive;
    var s' := Do(capacity, s, step);
    match step
    case Drain => ReleaseBoard(s);
    case Wait => ReleaseBoard(s);
    case Mark => MarkBoard(capacity, s);
    case Commit(w) =>
      HeldIsPending(s, w);
      var i := WithoutAt(s.pending, s.workers[w].job);
    case _ =>
  }

  lemma ReleaseBoard(s: System)
    requires Tokens(s) && Board(s) && s.notifications != [] && s.notifications[0] in s.transactionCoins
    ensures Board(Release(s))
  {
    hide Touched, Held, Owed, Hot, Named;
    var s', g := Release(s), s.notifications[0];
    HotRemove(s.transactionCoins, g);
    ReportedNotPending(s);
  }

  /** A job still pending is not the one that was reported: there is one record per transaction. */
  lemma ReportedNotPending(s: System)
    requires Tokens(s) && s.notifications != []
    ensures forall j :: j in s.pending ==> j.hash != s.notifications[0]
  {
    hide Owed, Held, Named;
    var g := s.notifications[0];
    assert Records(s, g) <= 1 && g in multiset(s.notifications);
    forall j | j in s.pending
      ensures j.hash != g
    {
      var i := WithoutAt(s.pending, j);
      NamedSplit(s.pending, i, j.hash);
    }
  }

  lemma MarkBoard(capacity: nat, s: System)
    requires Board(s) && Enabled(capacity, s, Mark)
    ensures Board(Do(capacity, s, Mark))
  {
    hide Touched, Hot, Recorded, Exclusive;
    MarkIsNew(capacity, s);
    HotAdd(s.transactionCoins, s.todo[0].hash, Touched(s.todo[0]));
    AddRecord(s.pending, s.transactionCoins, s.todo[0]);
  }

  lemma AddRecord(jobs: seq<Job>, records: map<Hash, set<Hash>>, j: Job)
    requires Recorded(jobs, records) && Exclusive(records) && j.hash !in records
    requires forall h :: h in records ==> records[h] !! Touched(j)
    ensures Recorded(jobs + [j], records[j.hash := Touched(j)]) && Exclusive(records[j.hash := Touched(j)])
  {
    assert j.hash in Touched(j);
    hide Touched;
  }

  lemma StepReads(capacity: nat, s: System, step: Step)
    requires Tokens(s) && Board(s) && Reads(s) && Enabled(capacity, s, step)
    ensures Reads(Do(capacity, s, step))
  {
    hide Tokens, Board, Touched, Lookups, Write, AllOk;
    var s' := Do(capacity, s, step);
    if step.Commit? {
      var w, job := step.worker, s.workers[step.worker].job;
      assert Current(s.coins, s.workers[w]);
      WriteIsExec(s.coins, job, s.workers[w].seen);
      forall v | 0 <= v < |s'.workers|
        ensures Current(s'.coins, s'.workers[v])
      {
        if v != w && s.workers[v].Reading? {
          assert Current(s.coins, s.workers[v]);
          HeldDisjoint(s, v, w);
          CurrentAfter(s.coins, s.workers[v], job);
        }
      }
    } else {
      forall v | 0 <= v < |s'.workers|
        ensures Current(s'.coins, s'.workers[v])
      {
        assert Current(s.coins, s.workers[v]);
      }
    }
  }

  lemma StepSerial(capacity: nat, init: Coins, s: System, step: Step)
    requires Inv(init, s) && Enabled(capacity, s, step)
    ensures Serial(init, Do(capacity, s, step))
  {
    hide Touched, Lookups, Write, AllOk, Held, Owed, Named, ExecAll, Exec, Board;
    var s' := Do(capacity, s, step);
    match step
    case Mark =>
      ExecSnoc(init, s.dispatched, s.todo[0]);
      ExecSnoc(s.coins, s.pending, s.todo[0]);
    case Commit(w) => CommitSerial(capacity, init, s, w);
    case _ =>
  }

  /** A pending job touches nothing of the other pending jobs, so it may as well run first. */
  lemma CommitSerial(capacity: nat, init: Coins, s: System, w: nat)
    requires Inv(init, s) && Enabled(capacity, s, Commit(w))
    ensures Serial(init, Do(capacity, s, Commit(w)))
  {
    HeldIsPending(s, w);
    hide Touched, Write, Held, Owed, Named, ExecAll, Exec, Board, Tokens;
    var job := s.workers[w].job;
    assert Current(s.coins, s.workers[w]);
    WriteIsExec(s.coins, job, s.workers[w].seen);
    var i := WithoutAt(s.pending, job);
    forall k | 0 <= k < |s.pending[..i]|
      ensures Touched(s.pending[i]) !! Touched(s.pending[..i][k])
    {
      PendingDisjoint(s, i, k);
    }
    ExecFirst(s.coins, s.pending, i);
  }

  lemma StepKeeps(capacity: nat, init: Coins, s: System, step: Step)
    requires Inv(init, s) && Enabled(capacity, s, step)
    ensures Inv(init, Do(capacity, s, step))
  {
    hide Tokens, Board, Reads, Serial, Enabled, Do;
    StepTokens(capacity, s, step);
    StepBoard(capacity, s, step);
    StepReads(capacity, s, step);
    StepSerial(capacity, init, s, step);
  }

  // ---- whole runs ----

  ghost predicate Executes(capacity: nat, s: System, steps: seq<Step>)
    decreases |steps|
  {
    steps == [] || (Enabled(capacity, s, steps[0]) && Executes(capacity, Do(capacity, s, steps[0]), steps[1..]))
  }

  ghost function Final(capacity: nat, s: System, steps: seq<Step>): System
    requires Executes(capacity, s, steps)
    decreases |steps|
  {
    if steps == [] then s else Final(capacity, Do(capacity, s, steps[0]), steps[1..])
  }

  lemma {:induction false} RunKeeps(capacity: nat, init: Coins, s: System, steps: seq<Step>)
    requires Inv(init, s) && Executes(capacity, s, steps)
    ensures Inv(init, Final(capacity, s, steps))
    ensures |Final(capacity, s, steps).workers| == |s.workers|
    decreases |steps|
  {
    hide Inv, Write, AllOk, Lookups, Touched, Without;
    if steps != [] {
      StepKeeps(capacity, init, s, steps[0]);
      RunKeeps(capacity, init, Do(capacity, s, steps[0]), steps[1..]);
    }
  }

  lemma {:induction false} NothingHeld(n: nat, ws: seq<Worker>, j: Job, h: Hash)
    requires |ws| == n && forall i :: 0 <= i < n ==> !ws[i].Reading?
    ensures Held(ws, j) == 0
    ensures (forall i :: 0 <= i < n ==> ws[i].Idle?) ==> Owed(ws, h) == 0
  {
    if n > 0 {
      assert forall i :: 0 <= i < n - 1 ==> ws[..n - 1][i] == ws[i];
      NothingHeld(n - 1, ws[..n - 1], j, h);
    }
  }

  lemma StartKeeps(init: Coins, workers: nat)
    ensures Inv(init, Start(init, workers))
  {
    hide Held, Owed, Touched;
    var s := Start(init, workers);
    forall j: Job ensures Held(s.workers, j) == 0 { NothingHeld(workers, s.workers, j, 0); }
    forall h: Hash ensures Owed(s.workers, h) == 0
      { NothingHeld(workers, s.workers, Job(true, Transaction([], [], []), 0), h); }
    assert forall j: Job :: InSend(s, j) == 0;
    assert forall h: Hash :: Records(s, h) == 0;
    assert Hot(s.transactionCoins) == {};
  }

  /** Every job received has been written. */
  predicate Written(s: System) {
    s.todo == [] && s.queue == [] && forall w :: 0 <= w < |s.workers| ==> !s.workers[w].Reading?
  }

  lemma NothingPending(s: System)
    requires Tokens(s) && s.queue == [] && s.phase != Sending && forall w :: 0 <= w < |s.workers| ==>
              !s.workers[w].Reading?
    ensures s.pending == []
  {
    hide Held, Records;
    forall j: Job
      ensures multiset(s.pending)[j] == 0
    {
      NothingHeld(|s.workers|, s.workers, j, 0);
      assert Count(s.pending, j) == Held(s.workers, j) + Count(s.queue, j) + InSend(s, j);
    }
    assert multiset(s.pending) == multiset{};
    assert |multiset(s.pending)| == |s.pending|;
  }

  /** In every reachable state of every interleaving: in-flight transactions touch disjoint hashes and the
      scoreboard is their union; completing what is in flight gives the serial result of what was
      dispatched; once all is written, the coins are those of serial execution in the order received. */
  lemma Serializable(capacity: nat, init: Coins, workers: nat, steps: seq<Step>)
    requires Executes(capacity, Start(init, workers), steps)
    ensures
      var s := Final(capacity, Start(init, workers), steps);
      && Board(s)
      && (forall i, k :: 0 <= i < k < |s.pending| ==> Touched(s.pending[i]) !! Touched(s.pending[k]))
      && ExecAll(s.coins, s.pending) == ExecAll(init, s.dispatched)
      && s.dispatched <= s.arrived
      && (Written(s) ==> s.coins == ExecAll(init, s.arrived))
  {
    StartKeeps(init, workers);
    RunKeeps(capacity, init, Start(init, workers), steps);
    hide Executes, Final, Tokens, Board, Reads, Touched;
    var s := Final(capacity, Start(init, workers), steps);
    forall i, k | 0 <= i < k < |s.pending|
      ensures Touched(s.pending[i]) !! Touched(s.pending[k])
    {
      PendingDisjoint(s, i, k);
    }
    if Written(s) {
      NotSending(s);
      NothingPending(s);
      assert s.arrived == s.dispatched;
    }
  }

  lemma NotSending(s: System)
    requires Tokens(s) && s.todo == []
    ensures s.phase == Draining
  {
  }

  /** The dispatcher always finds the record of a transaction it is notified of. */
  lemma NeverPanics(capacity: nat, init: Coins, workers: nat, steps: seq<Step>)
    requires Executes(capacity, Start(init, workers), steps)
    ensures !Panics(Final(capacity, Start(init, workers), steps))
  {
    StartKeeps(init, workers);
    RunKeeps(capacity, init, Start(init, workers), steps);
    hide Executes, Final, Board, Reads, Touched, Serial, Named, Owed;
    var s := Final(capacity, Start(init, workers), steps);
    if s.notifications != [] {
      assert s.notifications[0] in multiset(s.notifications);
      assert Records(s, s.notifications[0]) > 0;
    }
  }
}
