/** How workers agree on who processes a block that arrives several times at once: a hash is registered as
    being processed, looked up in the block database, stored, and unregistered. */
module Dedup {
  import opened Common

  datatype Phase = Ready | Registered(hash: Hash) | Absent(hash: Hash) | Stored(hash: Hash)

  datatype Registry = Registry(
    recent: set<Hash>,
    blockdb: set<Hash>,
    workers: seq<Phase>,
    accepted: seq<Hash>)  // history: hashes handed on to processing, by any worker

  datatype Step =
    | Register(worker: nat, hash: Hash)
    | Lookup(worker: nat) | Store(worker: nat) | Finish(worker: nat)
    | Mine(hash: Hash)

  predicate Enabled(s: Registry, step: Step) {
    match step
    case Register(w, _) => w < |s.workers| && s.workers[w].Ready?
    case Lookup(w) => w < |s.workers| && s.workers[w].Registered?
    case Store(w) => w < |s.workers| && s.workers[w].Absent?
    case Finish(w) => w < |s.workers| && s.workers[w].Stored?
    case Mine(h) => h !in s.blockdb && h !in s.recent  // no peer has a block before it is mined
  }

  function Do(s: Registry, step: Step): Registry
    requires Enabled(s, step)
  {
    match step
    case Register(w, h) =>
      if h in s.recent then s else s.(recent := s.recent + {h}, workers := s.workers[w := Registered(h)])
    case Lookup(w) =>
      var h := s.workers[w].hash;
      if h in s.blockdb then s.(recent := s.recent - {h}, workers := s.workers[w := Ready])
      else s.(workers := s.workers[w := Absent(h)])
    case Store(w) =>
      var h := s.workers[w].hash;
      s.(blockdb := s.blockdb + {h}, workers := s.workers[w := Stored(h)])
    case Finish(w) =>
      var h := s.workers[w].hash;
      s.(recent := s.recent - {h}, workers := s.workers[w := Ready], accepted := s.accepted + [h])
    case Mine(h) => s.(blockdb := s.blockdb + {h})
  }

  /** Registration excludes: a hash is with one worker at a time, and only that worker can store it. */
  ghost predicate Inv(s: Registry) {
    && (forall w :: 0 <= w < |s.workers| && !s.workers[w].Ready? ==> s.workers[w].hash in s.recent)
    && (forall v, w :: 0 <= v < w < |s.workers| && !s.workers[v].Ready? && !s.workers[w].Ready? ==>
        s.workers[v].hash != s.workers[w].hash)
    && (forall w :: 0 <= w < |s.workers| && s.workers[w].Absent? ==> s.workers[w].hash !in s.blockdb)
    && (forall w :: 0 <= w < |s.workers| && s.workers[w].Stored? ==>
        s.workers[w].hash in s.blockdb && s.workers[w].hash !in s.accepted)
    && (forall i :: 0 <= i < |s.accepted| ==> s.accepted[i] in s.blockdb)
    && NoDup(s.accepted)
  }

  lemma StepKeeps(s: Registry, step: Step)
    requires Inv(s) && Enabled(s, step)
    ensures Inv(Do(s, step))
  {
  }

  ghost predicate Executes(s: Registry, steps: seq<Step>)
    decreases |steps|
  {
    steps == [] || (Enabled(s, steps[0]) && Executes(Do(s, steps[0]), steps[1..]))
  }

  ghost function Final(s: Registry, steps: seq<Step>): Registry
    requires Executes(s, steps)
    decreases |steps|
  {
    if steps == [] then s else Final(Do(s, steps[0]), steps[1..])
  }

  /** Across all workers each block is handed on once, and only if it was not in the database before. */
  lemma {:induction false} AcceptedOnce(s: Registry, steps: seq<Step>)
    requires Inv(s) && Executes(s, steps)
    ensures
      var t := Final(s, steps);
      && Inv(t) && NoDup(t.accepted) && s.accepted <= t.accepted && s.blockdb <= t.blockdb
      && forall i :: |s.accepted| <= i < |t.accepted| ==>
           t.accepted[i] !in s.blockdb || exists w :: 0 <= w < |s.workers| && s.workers[w] == Stored(t.accepted[i])
    decreases |steps|
  {
    if steps != [] {
      var s1 := Do(s, steps[0]);
      StepKeeps(s, steps[0]);
      AcceptedOnce(s1, steps[1..]);
      var t := Final(s, steps);
      forall i | |s.accepted| <= i < |t.accepted|
        ensures t.accepted[i] !in s.blockdb || exists w :: 0 <= w < |s.workers| && s.workers[w] == Stored(t.accepted[i])
      {
        if i == |s.accepted| && steps[0].Finish? {
          assert t.accepted[i] == s1.accepted[i];
        } else if t.accepted[i] in s.blockdb {
          var w :| 0 <= w < |s1.workers| && s1.workers[w] == Stored(t.accepted[i]);
          assert s.workers[w] == Stored(t.accepted[i]);
        }
      }
    }
  }
}
