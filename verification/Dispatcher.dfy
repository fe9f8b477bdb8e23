/** Parallel execution of ledger diffs: one dispatcher with a scoreboard, a bounded job channel, any number
    of workers that read coin by coin and write one batch, and a notification channel back.

    A state machine over all interleavings of their steps; `Inv` is what every step keeps. */
module Dispatcher {
  import opened Common
  import opened Utxo
  import opened Jobs

  datatype Worker =
    | Idle
    | Reading(job: Job, seen: seq<Option<Output>>)
    | Done(hash: Hash)

  /** Where the dispatcher stands with `todo[0]`: emptying the notification channel, waiting for hot coins,
      or blocked in `send` with the job's coins already marked. */
  datatype Phase = Draining | Waiting | Sending

  datatype System = System(
    coins: Coins,
    todo: seq<Job>,
    phase: Phase,
    scoreboard: set<Hash>,
    transactionCoins: map<Hash, set<Hash>>,
    queue: seq<Job>,
    workers: seq<Worker>,
    notifications: seq<Hash>,
    arrived: seq<Job>,     // history: every job received so far
    dispatched: seq<Job>,  // history: every job marked so far, in dispatch order
    pending: seq<Job>)     // history: those of them not written yet

  datatype Step =
    | Arrive(jobs: seq<Job>)
    | Drain | StopDraining | Wait | Mark | Send
    | Take(worker: nat) | Read(worker: nat) | Commit(worker: nat) | Notify(worker: nat)

  // ---- a worker's reads and its batch ----

  /** The coins a worker looks up, in order. */
  function Lookups(j: Job): seq<CoinId> {
    if j.add then CoinsOf(j.tx.input) else IdList(|j.tx.output|, j.hash)
  }

  predicate ReadOk(j: Job, k: nat, r: Option<Output>)
    requires k < |Lookups(j)|
  {
    r.Some? && (j.add ==> r.value.value == j.tx.input[k].value)
  }

  predicate AllOk(j: Job, seen: seq<Option<Output>>)
    requires |seen| <= |Lookups(j)|
  {
    forall k :: 0 <= k < |seen| ==> ReadOk(j, k, seen[k])
  }

  function Recipients(seen: seq<Option<Output>>): set<Hash> {
    set k | 0 <= k < |seen| && seen[k].Some? :: seen[k].value.recipient
  }

  /** The batch, decided by what was read and applied to the coins as they are at the time of the write. */
  function Write(m: Coins, j: Job, seen: seq<Option<Output>>): Coins
    requires |seen| <= |Lookups(j)|
  {
    if !AllOk(j, seen) then m
    else if !j.add then (m - Ids(j.tx.output, j.hash)) + Restored(j.tx.input)
    else if Recipients(seen) == Elems(j.tx.authorization) then (m - Spent(j.tx.input)) + Created(j.tx.output, j.hash)
    else m
  }

  // ---- steps ----

  function Release(s: System): System
    requires s.notifications != [] && s.notifications[0] in s.transactionCoins
  {
    var h := s.notifications[0];
    s.(scoreboard := s.scoreboard - s.transactionCoins[h], transactionCoins := s.transactionCoins - {h},
       notifications := s.notifications[1..])
  }

  /** Drop one occurrence. */
  function Without(jobs: seq<Job>, j: Job): seq<Job> {
    if jobs == [] then [] else if jobs[0] == j then jobs[1..] else [jobs[0]] + Without(jobs[1..], j)
  }

  /** The dispatcher would panic: it was notified of a transaction it has no record of. */
  predicate Panics(s: System) {
    && s.todo != [] && s.notifications != [] && s.notifications[0] !in s.transactionCoins
    && (s.phase == Draining || (s.phase == Waiting && !(s.scoreboard !! Touched(s.todo[0]))))
  }

  predicate Enabled(capacity: nat, s: System, step: Step) {
    match step
    case Arrive(_) => true
    case Drain => s.phase == Draining && s.todo != [] && s.notifications != []
      && s.notifications[0] in s.transactionCoins
    case StopDraining => s.phase == Draining && s.todo != [] && s.notifications == []
    case Wait => && s.phase == Waiting && s.todo != [] && !(s.scoreboard !! Touched(s.todo[0]))
                 && s.notifications != [] && s.notifications[0] in s.transactionCoins
    case Mark => s.phase == Waiting && s.todo != [] && s.scoreboard !! Touched(s.todo[0])
    case Send => s.phase == Sending && s.todo != [] && |s.queue| < capacity
    case Take(w) => w < |s.workers| && s.workers[w].Idle? && s.queue != []
    case Read(w) => && w < |s.workers| && s.workers[w].Reading? && |s.workers[w].seen| < |Lookups(s.workers[w].job)|
                    && AllOk(s.workers[w].job, s.workers[w].seen)
    case Commit(w) => && w < |s.workers| && s.workers[w].Reading? && Complete(s.workers[w].job, s.workers[w].seen)
    case Notify(w) => w < |s.workers| && s.workers[w].Done?
  }

  /** The worker is through with its reads: all done, or the last one failed. */
  predicate Complete(j: Job, seen: seq<Option<Output>>) {
    |seen| <= |Lookups(j)| && (|seen| == |Lookups(j)| || !AllOk(j, seen))
  }

  function Do(capacity: nat, s: System, step: Step): System
    requires Enabled(capacity, s, step)
  {
    match step
    case Arrive(jobs) => s.(todo := s.todo + jobs, arrived := s.arrived + jobs)
    case Drain => Release(s)
    case StopDraining => s.(phase := Waiting)
    case Wait => Release(s)
    case Mark =>
      var j := s.todo[0];
      s.(phase := Sending, scoreboard := s.scoreboard + Touched(j),
         transactionCoins := s.transactionCoins[j.hash := Touched(j)],
         dispatched := s.dispatched + [j], pending := s.pending + [j])
    case Send => s.(phase := Draining, queue := s.queue + [s.todo[0]], todo := s.todo[1..])
    case Take(w) => s.(queue := s.queue[1..], workers := s.workers[w := Reading(s.queue[0], [])])
    case Read(w) =>
      var Reading(j, seen) := s.workers[w];
      s.(workers := s.workers[w := Reading(j, seen + [Get(s.coins, Lookups(j)[|seen|])])])
    case Commit(w) =>
      var Reading(j, seen) := s.workers[w];
      s.(coins := Write(s.coins, j, seen), workers := s.workers[w := Done(j.hash)], pending := Without(s.pending, j))
    case Notify(w) => s.(workers := s.workers[w := Idle], notifications := s.notifications + [s.workers[w].hash])
  }

  function Start(init: Coins, workers: nat): System {
    System(init, [], Draining, {}, map[], [], seq(workers, _ => Idle), [], [], [], [])
  }

  // ---- what every step keeps ----

  function Count<T(==)>(s: seq<T>, x: T): nat {
    multiset(s)[x]
  }

  function Holds(w: Worker, j: Job): nat {
    if w.Reading? && w.job == j then 1 else 0
  }

  function Owes(w: Worker, h: Hash): nat {
    if w.Done? && w.hash == h then 1 else 0
  }

  /** How many workers hold the job, not written yet. */
  function Held(ws: seq<Worker>, j: Job): nat {
    if ws == [] then 0 else Held(ws[..|ws| - 1], j) + Holds(ws[|ws| - 1], j)
  }

  /** How many workers have written and still have to report the transaction. */
  function Owed(ws: seq<Worker>, h: Hash): nat {
    if ws == [] then 0 else Owed(ws[..|ws| - 1], h) + Owes(ws[|ws| - 1], h)
  }

  function Named(jobs: seq<Job>, h: Hash): nat {
    if jobs == [] then 0 else Named(jobs[..|jobs| - 1], h) + if jobs[|jobs| - 1].hash == h then 1 else 0
  }

  function InSend(s: System, j: Job): nat {
    if s.phase == Sending && s.todo != [] && s.todo[0] == j then 1 else 0
  }

  /** Each job in flight is in exactly one place, and each has exactly one record with the dispatcher. */
  ghost predicate Tokens(s: System) {
    && (s.phase != Draining ==> s.todo != [])
    && (forall j :: Count(s.pending, j) == Held(s.workers, j) + Count(s.queue, j) + InSend(s, j))
    && (forall h :: Records(s, h) == if h in s.transactionCoins then 1 else 0)
  }

  function Records(s: System, h: Hash): nat {
    Named(s.pending, h) + Owed(s.workers, h) + Count(s.notifications, h)
  }

  /** The transactions the records keep hot. */
  function Hot(records: map<Hash, set<Hash>>): set<Hash> {
    set h, x | h in records && x in records[h] :: x
  }

  ghost predicate Exclusive(records: map<Hash, set<Hash>>) {
    && (forall h :: h in records ==> h in records[h])
    && (forall g, h :: g in records && h in records && g != h ==> records[g] !! records[h])
  }

  ghost predicate Recorded(jobs: seq<Job>, records: map<Hash, set<Hash>>) {
    forall j :: j in jobs ==> j.hash in records && records[j.hash] == Touched(j)
  }

  /** In-flight transactions touch pairwise disjoint hashes, and the scoreboard is exactly their union. */
  ghost predicate Board(s: System) {
    Recorded(s.pending, s.transactionCoins) && Exclusive(s.transactionCoins) && s.scoreboard == Hot(s.transactionCoins)
  }

  /** What a worker has read is still what is stored. */
  ghost predicate Current(m: Coins, w: Worker) {
    w.Reading? ==>
      && |w.seen| <= |Lookups(w.job)|
      && (forall k :: 0 <= k < |w.seen| ==> w.seen[k] == Get(m, Lookups(w.job)[k]))
  }

  ghost predicate Reads(s: System) {
    forall w :: 0 <= w < |s.workers| ==> Current(s.coins, s.workers[w])
  }

  /** Finishing what is in flight gives the coins of the serial execution in dispatch order. */
  ghost predicate Serial(init: Coins, s: System) {
    && ExecAll(init, s.dispatched) == ExecAll(s.coins, s.pending)
    && s.arrived == s.dispatched + if s.phase == Sending && s.todo != [] then s.todo[1..] else s.todo
  }

  ghost predicate Inv(init: Coins, s: System) {
    Tokens(s) && Board(s) && Reads(s) && Serial(init, s)
  }
}
