/** MemoryAtomicStateStore of src/aegis-cdm-mesh.ts, as a machine whose steps are the stretches of code between
two `await`s.

A call to `mutate` arrives (lines 17-22: it reads and replaces the lock entry of its key), runs its callback once the
promise it waits on is released (lines 38-43: read, apply, write, with no `await` between them), and releases
(lines 28-29: it deletes the key's entry, whoever owns it).  An `await` resumes as a promise job, and promise jobs run
first in, first out; calls arrive between any two of them.  A result that is itself a promise is adopted in one more job
(line 42 returns it from an async function), and the call goes on to release once it has settled, if it ever does.
A call is known by its arrival number, which also stands for the promise it publishes. */
module AtomicStore {
  import opened Common

  // What the supplied mutation does to a private copy of the current state; `Promised` has a promise for a result.
  datatype Outcome<+S, +R> = Returned(state: S, result: R) | Promised(state: S, result: R) | Threw

  datatype Request<!K, !S, !R> = Request(key: K, initial: S, mutation: S -> Outcome<S, R>)

  // `Adopting` and `Pending` are phases of a call whose result is a promise: before and after its adoption.
  datatype Phase<+S, +R> =
    | Waiting
    | Adopting(outcome: Outcome<S, R>)
    | Pending(outcome: Outcome<S, R>)
    | Ran(outcome: Outcome<S, R>)
    | Done(outcome: Outcome<S, R>)

  // The steps a call takes once it has arrived.
  datatype Move = Run(id: nat) | Adopt(id: nat) | Settle(id: nat) | Release(id: nat)

  // `jobs` is the queue of promise jobs: the steps that are due, in the order in which they came to be due.
  // `log` is history: the calls whose callback has run, in the order in which they ran.
  datatype Store<!K, !S, !R> = Store(
    states: map<K, S>,
    locks: map<K, nat>,
    requests: seq<Request<K, S, R>>,
    waits: seq<Option<nat>>,
    phases: seq<Phase<S, R>>,
    jobs: seq<Move>,
    log: seq<nat>)

  datatype Event<!K, !S, !R> = Arrive(request: Request<K, S, R>) | Proceed(move: Move)

  function Empty<K, S, R>(): Store<K, S, R> {
    Store(map[], map[], [], [], [], [], [])
  }

  // Every call has its three records.
  predicate Wf<K, S, R>(s: Store<K, S, R>) {
    |s.requests| == |s.waits| == |s.phases|
  }

  function Lookup<K, V>(m: map<K, V>, k: K): Option<V> {
    if k in m then Some(m[k]) else None
  }

  // The call has got to this step, and what it awaits there has happened.
  predicate Ready<K, S, R>(s: Store<K, S, R>, m: Move)
    requires Wf(s)
  {
    && m.id < |s.phases|
    && match m {
         case Run(id) =>
           && s.phases[id].Waiting?
           && (s.waits[id].Some? ==> s.waits[id].value < |s.phases| && s.phases[s.waits[id].value].Done?)
         case Adopt(id) => s.phases[id].Adopting?
         case Settle(id) => s.phases[id].Pending?
         case Release(id) => s.phases[id].Ran?
       }
  }

  // An adopted promise settles at any time; of the jobs, only the oldest runs.  That it is ready is `QueueIsExact`.
  predicate CanMove<K, S, R>(s: Store<K, S, R>, m: Move)
    requires Wf(s)
  {
    Ready(s, m) && (m.Settle? || (s.jobs != [] && m == s.jobs[0]))
  }

  predicate Enabled<K, S, R>(s: Store<K, S, R>, e: Event<K, S, R>)
    requires Wf(s)
  {
    e.Proceed? ==> CanMove(s, e.move)
  }

  // The calls that await the release of `id` come to be due, in the order in which they began to wait.
  function Woken(waits: seq<Option<nat>>, id: nat): seq<Move> {
    if waits == [] then []
    else
      var n := |waits| - 1;
      Woken(waits[..n], id) + if waits[n] == Some(id) then [Run(n)] else []
  }

  function ArriveStep<K, S, R>(s: Store<K, S, R>, r: Request<K, S, R>): (s': Store<K, S, R>)
    requires Wf(s)
    ensures Wf(s')
  {
    s.(locks := s.locks[r.key := |s.requests|],
       requests := s.requests + [r],
       waits := s.waits + [Lookup(s.locks, r.key)],
       phases := s.phases + [Waiting],
       jobs := s.jobs + if r.key in s.locks then [] else [Run(|s.requests|)])
  }

  // What the mutation of a call does to the current state of its key.
  function OutcomeOf<K, S, R>(s: Store<K, S, R>, id: nat): Outcome<S, R>
    requires id < |s.requests|
  {
    var r := s.requests[id];
    r.mutation(Lookup(s.states, r.key).GetOr(r.initial))
  }

  // The jobs that a step makes due.
  function Queued<K, S, R>(s: Store<K, S, R>, m: Move): seq<Move>
    requires Wf(s) && m.id < |s.phases|
  {
    match m
    case Run(id) => [if OutcomeOf(s, id).Promised? then Adopt(id) else Release(id)]
    case Adopt(_) => []
    case Settle(id) => [Release(id)]
    case Release(id) => Woken(s.waits, id)
  }

  function MoveStep<K, S, R>(s: Store<K, S, R>, m: Move): (s': Store<K, S, R>)
    requires Wf(s) && CanMove(s, m)
    ensures Wf(s')
    ensures s'.jobs == (if m.Settle? then s.jobs else s.jobs[1..]) + Queued(s, m)
  {
    var r := s.requests[m.id];
    match m
    case Run(id) =>
      var outcome := OutcomeOf(s, id);
      s.(states := if outcome.Threw? then s.states else s.states[r.key := outcome.state],
         phases := s.phases[id := if outcome.Promised? then Adopting(outcome) else Ran(outcome)],
         jobs := s.jobs[1..] + Queued(s, m),
         log := s.log + [id])
    case Adopt(id) =>
      s.(phases := s.phases[id := Pending(s.phases[id].outcome)], jobs := s.jobs[1..] + Queued(s, m))
    case Settle(id) =>
      s.(phases := s.phases[id := Ran(s.phases[id].outcome)], jobs := s.jobs + Queued(s, m))
    case Release(id) =>
      s.(locks := s.locks - {r.key},
         phases := s.phases[id := Done(s.phases[id].outcome)],
         jobs := s.jobs[1..] + Queued(s, m))
  }

  function Next<K, S, R>(s: Store<K, S, R>, e: Event<K, S, R>): (s': Store<K, S, R>)
    requires Wf(s) && Enabled(s, e)
    ensures Wf(s')
  {
    match e
    case Arrive(r) => ArriveStep(s, r)
    case Proceed(m) => MoveStep(s, m)
  }

  // ----- Runs -----

  // The store after an interleaving of any number of calls, if every step of it was possible.
  function Execute<K, S, R>(events: seq<Event<K, S, R>>): (s: Option<Store<K, S, R>>)
    ensures s.Some? ==> Wf(s.value)
  {
    if events == [] then Some(Empty())
    else
      var before := Execute(events[..|events| - 1]);
      if before.Some? && Enabled(before.value, events[|events| - 1])
      then Some(Next(before.value, events[|events| - 1]))
      else None
  }

  // ----- Linearizability -----

  predicate LogInRange<K, S, R>(requests: seq<Request<K, S, R>>, log: seq<nat>) {
    forall p :: 0 <= p < |log| ==> log[p] < |requests|
  }

  // A sequential store: apply the mutations logged for `k` one after the other.  The first one that returns starts
  // from its own initial state; one that throws changes nothing.
  ghost function Replay<K, S, R>(requests: seq<Request<K, S, R>>, log: seq<nat>, k: K): Option<S>
    requires LogInRange(requests, log)
  {
    if log == [] then None
    else
      var before := Replay(requests, log[..|log| - 1], k);
      var r := requests[log[|log| - 1]];
      if r.key != k then before
      else
        match r.mutation(before.GetOr(r.initial))
        case Returned(state, _) => Some(state)
        case Promised(state, _) => Some(state)
        case Threw => before
  }

  // What the sequential store answers to the call at position `p` of the log.
  ghost function Answer<K, S, R>(requests: seq<Request<K, S, R>>, log: seq<nat>, p: nat): Outcome<S, R>
    requires LogInRange(requests, log) && p < |log|
  {
    var r := requests[log[p]];
    r.mutation(Replay(requests, log[..p], r.key).GetOr(r.initial))
  }

  predicate Distinct<T(==)>(list: seq<T>) {
    forall p, q :: 0 <= p < q < |list| ==> list[p] != list[q]
  }

  // Each call that has got past its callback occurs in the log exactly once, and no other does.
  ghost predicate LogComplete<K, S, R>(s: Store<K, S, R>)
    requires Wf(s)
  {
    && LogInRange(s.requests, s.log)
    && Distinct(s.log)
    && (forall p :: 0 <= p < |s.log| ==> !s.phases[s.log[p]].Waiting?)
    && (forall id :: 0 <= id < |s.phases| && !s.phases[id].Waiting? ==> id in s.log)
  }

  // Every call in the log holds the answer of its own point.
  ghost predicate AnswersAgree<K, S, R>(s: Store<K, S, R>)
    requires Wf(s) && LogComplete(s)
  {
    forall p :: 0 <= p < |s.log| ==> s.phases[s.log[p]].outcome == Answer(s.requests, s.log, p)
  }

  // Every key holds the replayed state.
  ghost predicate StatesAgree<K(!new), S, R>(s: Store<K, S, R>)
    requires Wf(s) && LogComplete(s)
  {
    forall k :: Lookup(s.states, k) == Replay(s.requests, s.log, k)
  }

  // The store agrees with a sequential one that runs the log.
  ghost predicate Linearized<K(!new), S, R>(s: Store<K, S, R>) {
    Wf(s) && LogComplete(s) && AnswersAgree(s) && StatesAgree(s)
  }

  lemma {:induction false} ReplayIgnoresArrivals<K, S, R>(
    requests: seq<Request<K, S, R>>, r: Request<K, S, R>, log: seq<nat>, k: K)
    requires LogInRange(requests, log)
    ensures Replay(requests + [r], log, k) == Replay(requests, log, k)
  {
    if log != [] { ReplayIgnoresArrivals(requests, r, log[..|log| - 1], k); }
  }

  lemma AnswersIgnoreArrivals<K, S, R>(requests: seq<Request<K, S, R>>, r: Request<K, S, R>, log: seq<nat>, p: nat)
    requires LogInRange(requests, log) && p < |log|
    ensures Answer(requests + [r], log, p) == Answer(requests, log, p)
  {
    assert (requests + [r])[log[p]] == requests[log[p]];
    ReplayIgnoresArrivals(requests, r, log[..p], requests[log[p]].key);
  }

  lemma ArriveKeepsLinearized<K(!new), S, R>(s: Store<K, S, R>, r: Request<K, S, R>)
    requires Linearized(s)
    ensures Linearized(ArriveStep(s, r))
  {
    var s' := ArriveStep(s, r);
    forall k ensures Lookup(s'.states, k) == Replay(s'.requests, s'.log, k) {
      ReplayIgnoresArrivals(s.requests, r, s.log, k);
    }
    forall p | 0 <= p < |s.log|
      ensures s'.phases[s.log[p]].outcome == Answer(s'.requests, s'.log, p)
    {
      assert s'.phases[s.log[p]] == s.phases[s.log[p]];
      AnswersIgnoreArrivals(s.requests, r, s.log, p);
    }
  }

  lemma RunKeepsLogComplete<K, S, R>(s: Store<K, S, R>, id: nat)
    requires Wf(s) && LogComplete(s) && CanMove(s, Run(id))
    ensures LogComplete(MoveStep(s, Run(id)))
  {
    var s' := MoveStep(s, Run(id));
    forall i | 0 <= i < |s'.phases| && !s'.phases[i].Waiting? ensures i in s'.log {
      assert i == id || i in s.log;
    }
  }

  lemma RunKeepsAnswers<K, S, R>(s: Store<K, S, R>, id: nat)
    requires Wf(s) && LogComplete(s) && AnswersAgree(s) && CanMove(s, Run(id))
    requires Lookup(s.states, s.requests[id].key) == Replay(s.requests, s.log, s.requests[id].key)
    requires LogComplete(MoveStep(s, Run(id)))
    ensures AnswersAgree(MoveStep(s, Run(id)))
  {
    var s' := MoveStep(s, Run(id));
    forall p | 0 <= p < |s'.log|
      ensures s'.phases[s'.log[p]].outcome == Answer(s'.requests, s'.log, p)
    {
      assert s'.log[..p] == s.log[..p];
    }
  }

  lemma RunKeepsLinearized<K(!new), S, R>(s: Store<K, S, R>, id: nat)
    requires Linearized(s) && CanMove(s, Run(id))
    ensures Linearized(MoveStep(s, Run(id)))
  {
    var s' := MoveStep(s, Run(id));
    RunKeepsLogComplete(s, id);
    RunKeepsAnswers(s, id);
    forall k ensures Lookup(s'.states, k) == Replay(s'.requests, s'.log, k) {
      RunReplaysOneMore(s, id, k);
    }
  }

  lemma RunReplaysOneMore<K, S, R>(s: Store<K, S, R>, id: nat, k: K)
    requires Wf(s) && LogInRange(s.requests, s.log) && CanMove(s, Run(id))
    requires Lookup(s.states, k) == Replay(s.requests, s.log, k)
    requires Lookup(s.states, s.requests[id].key) == Replay(s.requests, s.log, s.requests[id].key)
    ensures Lookup(MoveStep(s, Run(id)).states, k) == Replay(s.requests, s.log + [id], k)
  {
    assert (s.log + [id])[..|s.log|] == s.log;
  }

  // Every step after the callback leaves states and outcomes as they are.
  lemma LaterStepKeepsLinearized<K(!new), S, R>(s: Store<K, S, R>, m: Move)
    requires Linearized(s) && CanMove(s, m) && !m.Run?
    ensures Linearized(MoveStep(s, m))
  {
    var s' := MoveStep(s, m);
    assert s'.requests == s.requests && s'.states == s.states && s'.log == s.log;
    forall id | 0 <= id < |s.phases| && !s.phases[id].Waiting?
      ensures !s'.phases[id].Waiting? && s'.phases[id].outcome == s.phases[id].outcome
    {
    }
    assert forall id :: 0 <= id < |s.phases| && s.phases[id].Waiting? ==> s'.phases[id].Waiting?;
  }

  // In every interleaving, the concurrent store is a sequential one that runs the log.
  lemma {:induction false} EveryRunIsLinearized<K(!new), S, R>(events: seq<Event<K, S, R>>)
    requires Execute(events).Some?
    ensures Linearized(Execute(events).value)
  {
    if events != [] {
      var before, e := Execute(events[..|events| - 1]).value, events[|events| - 1];
      EveryRunIsLinearized(events[..|events| - 1]);
      match e
      case Arrive(r) => ArriveKeepsLinearized(before, r);
      case Proceed(m) => if m.Run? { RunKeepsLinearized(before, m.id); } else { LaterStepKeepsLinearized(before, m); }
    }
  }

  // What one more step never takes back: arrivals, log entries, and the outcome of a call that has run.
  ghost predicate Extends<K, S, R>(s: Store<K, S, R>, s': Store<K, S, R>) {
    && Wf(s) && Wf(s')
    && |s.requests| <= |s'.requests| && |s.log| <= |s'.log|
    && s'.log[..|s.log|] == s.log
    && (forall id :: 0 <= id < |s.phases| && !s.phases[id].Waiting? ==>
          !s'.phases[id].Waiting? && s'.phases[id].outcome == s.phases[id].outcome)
    && (forall id :: 0 <= id < |s.phases| && s.phases[id].Done? ==> s'.phases[id].Done?)
  }

  lemma {:induction false} RunsOnlyExtend<K, S, R>(events: seq<Event<K, S, R>>, n: nat)
    requires n <= |events| && Execute(events).Some?
    ensures Execute(events[..n]).Some?
    ensures Extends(Execute(events[..n]).value, Execute(events).value)
  {
    if n == |events| {
      assert events[..n] == events;
    } else {
      var before := events[..|events| - 1];
      assert before[..n] == events[..n];
      RunsOnlyExtend(before, n);
      ExtendsOneStep(Execute(events[..n]).value, Execute(before).value, events[|events| - 1]);
    }
  }

  lemma ExtendsOneStep<K, S, R>(s0: Store<K, S, R>, s: Store<K, S, R>, e: Event<K, S, R>)
    requires Extends(s0, s) && Enabled(s, e)
    ensures Extends(s0, Next(s, e))
  {
    var s' := Next(s, e);
    assert s'.log[..|s.log|] == s.log;
    assert s'.log[..|s0.log|] == s'.log[..|s.log|][..|s0.log|];
  }

  lemma PrefixAgrees(s: seq<nat>, t: seq<nat>)
    requires |s| <= |t| && t[..|s|] == s
    ensures forall i :: 0 <= i < |s| ==> t[i] == s[i]
  {
    forall i | 0 <= i < |s| ensures t[i] == s[i] {
      assert t[..|s|][i] == t[i];
    }
  }

  // The log respects real time: a call that had run before another one arrived precedes it.
  lemma LogRespectsRealTime<K(!new), S, R>(events: seq<Event<K, S, R>>, n: nat, a: nat, b: nat)
    requires n <= |events| && Execute(events).Some? && Execute(events[..n]).Some?
    requires a < |Execute(events[..n]).value.phases| && !Execute(events[..n]).value.phases[a].Waiting?
    requires |Execute(events[..n]).value.phases| <= b < |Execute(events).value.phases|
    requires !Execute(events).value.phases[b].Waiting?
    ensures exists p, q :: 0 <= p < q < |Execute(events).value.log| &&
              Execute(events).value.log[p] == a && Execute(events).value.log[q] == b
  {
    var early, late := Execute(events[..n]).value, Execute(events).value;
    EveryRunIsLinearized(events[..n]);
    EveryRunIsLinearized(events);
    RunsOnlyExtend(events, n);
    PrefixAgrees(early.log, late.log);
    var p :| 0 <= p < |early.log| && early.log[p] == a;
    var q :| 0 <= q < |late.log| && late.log[q] == b;
  }

  // ----- The lock map -----

  // Every wait is for an earlier call on the same key, the latest one before the waiter.
  ghost predicate WaitsSound<K, S, R>(s: Store<K, S, R>)
    requires Wf(s)
  {
    && (forall b :: 0 <= b < |s.waits| && s.waits[b].Some? ==>
          s.waits[b].value < b && s.requests[s.waits[b].value].key == s.requests[b].key)
    && (forall a, b :: 0 <= a < b < |s.waits| && s.requests[a].key == s.requests[b].key && s.waits[b].Some? ==>
          a <= s.waits[b].value)
  }

  // Every entry names an unreleased call on its key, the latest to have arrived.
  ghost predicate EntriesSound<K, S, R>(s: Store<K, S, R>)
    requires Wf(s)
  {
    && (forall k :: k in s.locks ==>
          s.locks[k] < |s.requests| && s.requests[s.locks[k]].key == k && !s.phases[s.locks[k]].Done?)
    && (forall k, a :: k in s.locks && 0 <= a < |s.requests| && s.requests[a].key == k ==> a <= s.locks[k])
  }

  ghost predicate LocksSound<K, S, R>(s: Store<K, S, R>) {
    Wf(s) && WaitsSound(s) && EntriesSound(s)
  }

  lemma ArriveKeepsLocksSound<K, S, R>(s: Store<K, S, R>, r: Request<K, S, R>)
    requires LocksSound(s)
    ensures LocksSound(ArriveStep(s, r))
  {
    var s', n := ArriveStep(s, r), |s.requests|;
    assert s'.requests[n] == r && s'.waits[n] == Lookup(s.locks, r.key) && s'.phases[n] == Waiting;
    assert WaitsSound(s');
    assert EntriesSound(s');
  }

  lemma MoveKeepsLocksSound<K, S, R>(s: Store<K, S, R>, m: Move)
    requires LocksSound(s) && CanMove(s, m)
    ensures LocksSound(MoveStep(s, m))
  {
    var s' := MoveStep(s, m);
    assert s'.requests == s.requests && s'.waits == s.waits;
    forall k | k in s'.locks ensures !s'.phases[s'.locks[k]].Done? {
      assert k in s.locks && s'.locks[k] == s.locks[k];
    }
  }

  lemma {:induction false} EveryRunHasSoundLocks<K, S, R>(events: seq<Event<K, S, R>>)
    requires Execute(events).Some?
    ensures LocksSound(Execute(events).value)
  {
    if events != [] {
      var before, e := Execute(events[..|events| - 1]).value, events[|events| - 1];
      EveryRunHasSoundLocks(events[..|events| - 1]);
      match e
      case Arrive(r) => ArriveKeepsLocksSound(before, r);
      case Proceed(m) => MoveKeepsLocksSound(before, m);
    }
  }

  // ----- The queue -----

  // A call that has run found released what it waited for.
  ghost predicate GatesSound<K, S, R>(s: Store<K, S, R>)
    requires Wf(s) && WaitsSound(s)
  {
    forall b :: 0 <= b < |s.phases| && !s.phases[b].Waiting? && s.waits[b].Some? ==> s.phases[s.waits[b].value].Done?
  }

  // The step is a job that is due.
  predicate IsDue<K, S, R>(s: Store<K, S, R>, m: Move)
    requires Wf(s)
  {
    Ready(s, m) && !m.Settle?
  }

  // The queue holds exactly the jobs that are due, each of them once.
  ghost predicate QueueExact<K, S, R>(s: Store<K, S, R>)
    requires Wf(s)
  {
    && (forall m :: m in s.jobs <==> IsDue(s, m))
    && Distinct(s.jobs)
  }

  // Only a promise is adopted.
  predicate PromisesSound<K, S, R>(s: Store<K, S, R>) {
    forall id :: 0 <= id < |s.phases| && (s.phases[id].Adopting? || s.phases[id].Pending?) ==>
      s.phases[id].outcome.Promised?
  }

  ghost predicate Sound<K, S, R>(s: Store<K, S, R>) {
    LocksSound(s) && GatesSound(s) && QueueExact(s) && PromisesSound(s)
  }

  lemma {:induction false} WokenAre(waits: seq<Option<nat>>, id: nat)
    ensures forall m :: m in Woken(waits, id) <==> m.Run? && m.id < |waits| && waits[m.id] == Some(id)
    ensures Distinct(Woken(waits, id))
  {
    if waits != [] {
      WokenAre(waits[..|waits| - 1], id);
    }
  }

  lemma DistinctJoin<T>(a: seq<T>, b: seq<T>)
    requires Distinct(a) && Distinct(b) && forall x :: x in a ==> x !in b
    ensures Distinct(a + b)
  {
    var whole := a + b;
    forall p, q | 0 <= p < q < |whole| ensures whole[p] != whole[q] {
      assert p < |a| ==> whole[p] == a[p] && whole[p] in a;
      assert q >= |a| ==> whole[q] == b[q - |a|] && whole[q] in b;
    }
  }

  lemma TailOfDistinct<T>(a: seq<T>)
    requires a != [] && Distinct(a)
    ensures Distinct(a[1..]) && forall x :: x in a[1..] <==> x in a && x != a[0]
  {
    forall x | x in a && x != a[0] ensures x in a[1..] {
      var i :| 0 <= i < |a| && a[i] == x;
      assert a[1..][i - 1] == x;
    }
  }

  lemma ArriveKeepsSound<K, S, R>(s: Store<K, S, R>, r: Request<K, S, R>)
    requires Sound(s)
    ensures Sound(ArriveStep(s, r))
  {
    var s', n := ArriveStep(s, r), |s.requests|;
    ArriveKeepsLocksSound(s, r);
    forall m ensures m in s'.jobs <==> IsDue(s', m) {
      assert m.id < n ==> (Ready(s', m) <==> Ready(s, m));
      assert m.id == n ==> (Ready(s', m) <==> m.Run? && r.key !in s.locks);
    }
    DistinctJoin(s.jobs, if r.key in s.locks then [] else [Run(n)]);
  }

  lemma RunKeepsSound<K, S, R>(s: Store<K, S, R>, id: nat)
    requires Sound(s) && CanMove(s, Run(id))
    ensures Sound(MoveStep(s, Run(id)))
  {
    var s' := MoveStep(s, Run(id));
    MoveKeepsLocksSound(s, Run(id));
    TailOfDistinct(s.jobs);
    var due := Queued(s, Run(id))[0];
    forall m ensures m in s'.jobs <==> IsDue(s', m) {
      assert IsDue(s', m) <==> m == due || (IsDue(s, m) && m != Run(id));
    }
    DistinctJoin(s.jobs[1..], [due]);
  }

  lemma AdoptKeepsSound<K, S, R>(s: Store<K, S, R>, id: nat)
    requires Sound(s) && CanMove(s, Adopt(id))
    ensures Sound(MoveStep(s, Adopt(id)))
  {
    var s' := MoveStep(s, Adopt(id));
    MoveKeepsLocksSound(s, Adopt(id));
    TailOfDistinct(s.jobs);
    forall m ensures m in s'.jobs <==> IsDue(s', m) {
      assert IsDue(s', m) <==> IsDue(s, m) && m != Adopt(id);
    }
  }

  lemma SettleKeepsSound<K, S, R>(s: Store<K, S, R>, id: nat)
    requires Sound(s) && CanMove(s, Settle(id))
    ensures Sound(MoveStep(s, Settle(id)))
  {
    var s' := MoveStep(s, Settle(id));
    MoveKeepsLocksSound(s, Settle(id));
    forall m ensures m in s'.jobs <==> IsDue(s', m) {
      assert IsDue(s', m) <==> m == Release(id) || IsDue(s, m);
    }
    DistinctJoin(s.jobs, [Release(id)]);
  }

  lemma ReleaseKeepsSound<K, S, R>(s: Store<K, S, R>, id: nat)
    requires Sound(s) && CanMove(s, Release(id))
    ensures Sound(MoveStep(s, Release(id)))
  {
    var s' := MoveStep(s, Release(id));
    MoveKeepsLocksSound(s, Release(id));
    TailOfDistinct(s.jobs);
    WokenAre(s.waits, id);
    forall m ensures m in s'.jobs <==> IsDue(s', m) {
      DueAfterRelease(s, id, m);
    }
    forall m ensures m in s.jobs[1..] ==> m !in Woken(s.waits, id) {
      NotDueBeforeRelease(s, id, m);
    }
    DistinctJoin(s.jobs[1..], Woken(s.waits, id));
  }

  lemma DueAfterRelease<K, S, R>(s: Store<K, S, R>, id: nat, m: Move)
    requires LocksSound(s) && GatesSound(s) && CanMove(s, Release(id))
    ensures IsDue(MoveStep(s, Release(id)), m) <==>
            m in Woken(s.waits, id) || (IsDue(s, m) && m != Release(id))
  {
    WokenAre(s.waits, id);
  }

  lemma NotDueBeforeRelease<K, S, R>(s: Store<K, S, R>, id: nat, m: Move)
    requires Wf(s) && CanMove(s, Release(id))
    ensures m in Woken(s.waits, id) ==> !IsDue(s, m)
  {
    WokenAre(s.waits, id);
  }

  lemma MoveKeepsSound<K, S, R>(s: Store<K, S, R>, m: Move)
    requires Sound(s) && CanMove(s, m)
    ensures Sound(MoveStep(s, m))
  {
    match m
    case Run(id) => RunKeepsSound(s, id);
    case Adopt(id) => AdoptKeepsSound(s, id);
    case Settle(id) => SettleKeepsSound(s, id);
    case Release(id) => ReleaseKeepsSound(s, id);
  }

  lemma {:induction false} EveryRunIsSound<K, S, R>(events: seq<Event<K, S, R>>)
    requires Execute(events).Some?
    ensures Sound(Execute(events).value)
  {
    if events != [] {
      var before, e := Execute(events[..|events| - 1]).value, events[|events| - 1];
      EveryRunIsSound(events[..|events| - 1]);
      match e
      case Arrive(r) => ArriveKeepsSound(before, r);
      case Proceed(m) => MoveKeepsSound(before, m);
    }
  }

  // In every reachable state the queue holds exactly the jobs that calls are ready for, each once, so the oldest job
  // can always run.  A release makes at most one call ready.
  lemma {:induction false} QueueIsExact<K, S, R>(events: seq<Event<K, S, R>>)
    requires Execute(events).Some?
    ensures
      var s := Execute(events).value;
      && (forall m :: m in s.jobs <==> Ready(s, m) && !m.Settle?)
      && Distinct(s.jobs)
      && (forall m: Move :: !m.Settle? ==> (CanMove(s, m) <==> s.jobs != [] && m == s.jobs[0]))
      && (forall a, b :: 0 <= a < b < |s.waits| && s.waits[a].Some? ==> s.waits[a] != s.waits[b])
  {
    EveryRunIsSound(events);
    var s := Execute(events).value;
    forall a, b | 0 <= a < b < |s.waits| && s.waits[a].Some? ensures s.waits[a] != s.waits[b] {
      assert s.requests[s.waits[a].value].key == s.requests[a].key;
      assert s.requests[a].key == s.requests[b].key ==> s.waits[b].None? || a <= s.waits[b].value;
    }
  }

  // A key none of whose calls is in flight has no lock entry.
  lemma {:induction false} QuiescentKeyHasNoLock<K, S, R>(events: seq<Event<K, S, R>>, k: K)
    requires Execute(events).Some?
    requires var s := Execute(events).value;
             forall id :: 0 <= id < |s.requests| && s.requests[id].key == k ==> s.phases[id].Done?
    ensures k !in Execute(events).value.locks
  {
    EveryRunHasSoundLocks(events);
  }

  // ----- Progress -----

  // How many steps a call has taken: in the end two, or four if its result was a promise.
  function Taken<S, R>(p: Phase<S, R>): (n: nat)
    ensures n <= 4
  {
    match p
    case Waiting => 0
    case Adopting(_) => 1
    case Pending(_) => 2
    case Ran(outcome) => if outcome.Promised? then 3 else 1
    case Done(outcome) => if outcome.Promised? then 4 else 2
  }

  function AllTaken<S, R>(phases: seq<Phase<S, R>>): (n: nat)
    ensures n <= 4 * |phases|
  {
    if phases == [] then 0 else AllTaken(phases[..|phases| - 1]) + Taken(phases[|phases| - 1])
  }

  lemma {:induction false} TakenOfUpdate<S, R>(phases: seq<Phase<S, R>>, id: nat, p: Phase<S, R>)
    requires id < |phases| && Taken(p) == Taken(phases[id]) + 1
    ensures AllTaken(phases[id := p]) == AllTaken(phases) + 1
  {
    var n := |phases| - 1;
    if id == n {
      assert phases[id := p][..n] == phases[..n];
    } else {
      assert phases[id := p][..n] == phases[..n][id := p];
      TakenOfUpdate(phases[..n], id, p);
    }
  }

  lemma MoveIsCounted<K, S, R>(s: Store<K, S, R>, m: Move)
    requires Sound(s) && CanMove(s, m)
    ensures AllTaken(MoveStep(s, m).phases) == AllTaken(s.phases) + 1
  {
    TakenOfUpdate(s.phases, m.id, MoveStep(s, m).phases[m.id]);
  }

  // No reachable state is stuck, as long as promises settle.
  lemma NeverStuck<K, S, R>(s: Store<K, S, R>) returns (m: Move)
    requires Sound(s)
    requires exists id :: 0 <= id < |s.phases| && !s.phases[id].Done?
    ensures CanMove(s, m)
    ensures AllTaken(MoveStep(s, m).phases) == AllTaken(s.phases) + 1
  {
    var id := FirstUnfinished(s.phases);
    if s.phases[id].Pending? {
      m := Settle(id);
    } else {
      assert IsDue(s, match s.phases[id]
                      case Waiting => Run(id)
                      case Adopting(_) => Adopt(id)
                      case _ => Release(id));
      m := s.jobs[0];
      assert m in s.jobs;
    }
    MoveIsCounted(s, m);
  }

  // Call `id` waits, over other calls or itself, for the promise that call `root` has adopted.
  predicate BlockedBy<K, S, R>(s: Store<K, S, R>, id: nat, root: nat)
    decreases id
  {
    && Wf(s) && id < |s.phases| && root < |s.phases|
    && if id == root then s.phases[id].Pending?
       else
         && s.phases[id].Waiting? && s.waits[id].Some? && s.waits[id].value < id
         && BlockedBy(s, s.waits[id].value, root)
  }

  // The call waits for some promise.
  ghost predicate Blocked<K, S, R>(s: Store<K, S, R>, id: nat) {
    exists root: nat :: BlockedBy(s, id, root)
  }

  lemma {:induction false} IdleIsDoneOrBlocked<K, S, R>(s: Store<K, S, R>, id: nat) returns (root: nat)
    requires Sound(s) && s.jobs == [] && id < |s.phases| && !s.phases[id].Done?
    ensures BlockedBy(s, id, root) && root <= id
    decreases id
  {
    assert !IsDue(s, Run(id)) && !IsDue(s, Adopt(id)) && !IsDue(s, Release(id));
    root := id;
    if s.phases[id].Waiting? {
      root := IdleIsDoneOrBlocked(s, s.waits[id].value);
    }
  }

  lemma {:induction false} BlockedIsNotDue<K, S, R>(s: Store<K, S, R>, id: nat, root: nat)
    requires BlockedBy(s, id, root)
    ensures !s.phases[id].Done? && forall m: Move :: m.id == id ==> !IsDue(s, m)
    decreases id
  {
    if id != root { BlockedIsNotDue(s, s.waits[id].value, root); }
  }

  // Without a settlement, the queue runs dry exactly when every call is done or waits for a promise.
  lemma {:induction false} QueueIsEmptyIff<K, S, R>(events: seq<Event<K, S, R>>)
    requires Execute(events).Some?
    ensures
      var s := Execute(events).value;
      s.jobs == [] <==> forall id :: 0 <= id < |s.phases| ==> s.phases[id].Done? || Blocked(s, id)
  {
    var s := Execute(events).value;
    EveryRunIsSound(events);
    if s.jobs == [] {
      forall id | 0 <= id < |s.phases| && !s.phases[id].Done? ensures Blocked(s, id) {
        var root := IdleIsDoneOrBlocked(s, id);
      }
    } else {
      assert s.jobs[0] in s.jobs;
      DueIsNotBlocked(s, s.jobs[0]);
    }
  }

  lemma DueIsNotBlocked<K, S, R>(s: Store<K, S, R>, m: Move)
    requires Wf(s) && IsDue(s, m)
    ensures !s.phases[m.id].Done? && !Blocked(s, m.id)
  {
    forall root: nat ensures !BlockedBy(s, m.id, root) {
      if BlockedBy(s, m.id, root) { BlockedIsNotDue(s, m.id, root); }
    }
  }

  lemma ExecuteFront<K, S, R>(events: seq<Event<K, S, R>>, more: seq<Event<K, S, R>>, e: Event<K, S, R>)
    requires Execute(events + (more + [e])).Some?
    ensures Execute(events + more).Some? && Enabled(Execute(events + more).value, e)
    ensures Execute(events + (more + [e])) == Some(Next(Execute(events + more).value, e))
  {
    var whole := events + (more + [e]);
    assert whole[..|whole| - 1] == events + more && whole[|whole| - 1] == e;
  }

  // A promise that never settles keeps every call behind it waiting, whatever arrives and whatever else proceeds.
  lemma {:induction false} BlockedStays<K, S, R>(
    events: seq<Event<K, S, R>>, more: seq<Event<K, S, R>>, id: nat, root: nat)
    requires Execute(events).Some? && Execute(events + more).Some?
    requires BlockedBy(Execute(events).value, id, root) && Proceed(Settle(root)) !in more
    ensures BlockedBy(Execute(events + more).value, id, root)
  {
    if more == [] {
      assert events + more == events;
    } else {
      var most, e := more[..|more| - 1], more[|more| - 1];
      assert more == most + [e];
      ExecuteFront(events, most, e);
      BlockedStays(events, most, id, root);
      match e
      case Arrive(r) => BlockedAfterArrival(Execute(events + most).value, r, id, root);
      case Proceed(m) => BlockedAfterMove(Execute(events + most).value, m, id, root);
    }
  }

  lemma {:induction false} BlockedAfterArrival<K, S, R>(s: Store<K, S, R>, r: Request<K, S, R>, id: nat, root: nat)
    requires BlockedBy(s, id, root)
    ensures BlockedBy(ArriveStep(s, r), id, root)
    decreases id
  {
    if id != root { BlockedAfterArrival(s, r, s.waits[id].value, root); }
  }

  lemma {:induction false} BlockedAfterMove<K, S, R>(s: Store<K, S, R>, m: Move, id: nat, root: nat)
    requires BlockedBy(s, id, root) && CanMove(s, m) && m != Settle(root)
    ensures BlockedBy(MoveStep(s, m), id, root)
    decreases id
  {
    BlockedIsNotDue(s, id, root);
    assert m.id != id;
    if id != root { BlockedAfterMove(s, m, s.waits[id].value, root); }
  }

  lemma FirstUnfinished<S, R>(phases: seq<Phase<S, R>>) returns (id: nat)
    requires exists i :: 0 <= i < |phases| && !phases[i].Done?
    ensures id < |phases| && !phases[id].Done?
    ensures forall i :: 0 <= i < id ==> phases[i].Done?
  {
    id := 0;
    while phases[id].Done?
      invariant id < |phases| && forall i :: 0 <= i < id ==> phases[i].Done?
      decreases |phases| - id
    {
      id := id + 1;
    }
  }

  // The store after the given calls in flight have taken the given steps, with no arrival in between.
  function Continue<K, S, R>(s: Store<K, S, R>, moves: seq<Move>): (s': Option<Store<K, S, R>>)
    requires Wf(s)
    ensures s'.Some? ==> Wf(s'.value) && |s'.value.phases| == |s.phases|
    decreases |moves|
  {
    if moves == [] then Some(s)
    else if CanMove(s, moves[0]) then Continue(MoveStep(s, moves[0]), moves[1..])
    else None
  }

  // With no arrival and no settlement nothing is left open: two schedules of the same length are the same.
  lemma {:induction false} ScheduleIsDetermined<K, S, R>(s: Store<K, S, R>, moves: seq<Move>, moves': seq<Move>)
    requires Wf(s) && |moves| == |moves'| && Continue(s, moves).Some? && Continue(s, moves').Some?
    requires forall i :: 0 <= i < |moves| ==> !moves[i].Settle? && !moves'[i].Settle?
    ensures moves == moves'
    decreases |moves|
  {
    if moves != [] {
      ScheduleIsDetermined(MoveStep(s, moves[0]), moves[1..], moves'[1..]);
      assert moves == [moves[0]] + moves[1..] && moves' == [moves'[0]] + moves'[1..];
    }
  }

  // Every step of a call in flight is counted once, so every schedule ends.
  lemma {:induction false} EverySchedulePays<K, S, R>(s: Store<K, S, R>, moves: seq<Move>)
    requires Sound(s) && Continue(s, moves).Some?
    ensures AllTaken(Continue(s, moves).value.phases) == AllTaken(s.phases) + |moves|
    ensures |moves| <= 4 * |s.phases| - AllTaken(s.phases)
    decreases |moves|
  {
    if moves != [] {
      MoveIsCounted(s, moves[0]);
      MoveKeepsSound(s, moves[0]);
      EverySchedulePays(MoveStep(s, moves[0]), moves[1..]);
    }
  }

  // A continuation of a reachable state is as long as the steps its calls have taken since, and ends with all calls
  // done exactly when no further step is possible, the settling of promises included.
  lemma {:induction false} ScheduleEndsIff<K, S, R>(events: seq<Event<K, S, R>>, moves: seq<Move>)
    requires Execute(events).Some? && Continue(Execute(events).value, moves).Some?
    ensures
      var s := Execute(events).value;
      var s' := Continue(s, moves).value;
      && |moves| == AllTaken(s'.phases) - AllTaken(s.phases) <= 4 * |s.phases|
      && ((forall id :: 0 <= id < |s'.phases| ==> s'.phases[id].Done?) <==> forall m :: !CanMove(s', m))
  {
    var s := Execute(events).value;
    var s' := Continue(s, moves).value;
    EveryRunIsSound(events);
    ContinueKeepsSound(s, moves);
    EverySchedulePays(s, moves);
    if exists id :: 0 <= id < |s'.phases| && !s'.phases[id].Done? {
      var m := NeverStuck(s');
    }
  }

  lemma {:induction false} ContinueKeepsSound<K, S, R>(s: Store<K, S, R>, moves: seq<Move>)
    requires Sound(s) && Continue(s, moves).Some?
    ensures Sound(Continue(s, moves).value)
    decreases |moves|
  {
    if moves != [] {
      MoveKeepsSound(s, moves[0]);
      ContinueKeepsSound(MoveStep(s, moves[0]), moves[1..]);
    }
  }

  // From every reachable state the calls in flight can all finish, each in two steps or four.
  lemma {:induction false} AllCallsCanFinish<K, S, R>(events: seq<Event<K, S, R>>) returns (moves: seq<Move>)
    requires Execute(events).Some?
    ensures Continue(Execute(events).value, moves).Some?
    ensures forall p :: p in Continue(Execute(events).value, moves).value.phases ==> p.Done?
    ensures |moves| == AllTaken(Continue(Execute(events).value, moves).value.phases) - AllTaken(Execute(events).value.phases)
  {
    EveryRunIsSound(events);
    moves := FinishFrom(Execute(events).value);
    EverySchedulePays(Execute(events).value, moves);
  }

  lemma {:induction false} FinishFrom<K, S, R>(s: Store<K, S, R>) returns (moves: seq<Move>)
    requires Sound(s)
    ensures Continue(s, moves).Some?
    ensures forall p :: p in Continue(s, moves).value.phases ==> p.Done?
    decreases 4 * |s.phases| - AllTaken(s.phases)
  {
    moves := [];
    if exists id :: 0 <= id < |s.phases| && !s.phases[id].Done? {
      var m := NeverStuck(s);
      MoveKeepsSound(s, m);
      var rest := FinishFrom(MoveStep(s, m));
      moves := [m] + rest;
      assert moves[1..] == rest;
    }
  }

  // ----- What the lock does not give -----

  // Among the first `n` calls, nothing has started past an earlier unreleased call on its key: mutual exclusion and
  // first come, first served.
  ghost predicate InOrder<K, S, R>(s: Store<K, S, R>, n: nat)
    requires Wf(s)
  {
    forall a, b :: 0 <= a < b < n && b < |s.phases| && s.requests[a].key == s.requests[b].key && !s.phases[a].Done? ==>
      s.phases[b].Waiting?
  }

  predicate Before(jobs: seq<Move>, m: Move, m': Move) {
    exists i, j :: 0 <= i < j < |jobs| && jobs[i] == m && jobs[j] == m'
  }

  // Call `b` stays behind `a`: it waits for some call, or the release of `a` is due before it runs.
  ghost predicate Behind<K, S, R>(s: Store<K, S, R>, a: nat, b: nat)
    requires Wf(s) && a < |s.phases| && b < |s.phases|
  {
    s.waits[b].Some? || (s.phases[a].Ran? && s.phases[b].Waiting? && Before(s.jobs, Release(a), Run(b)))
  }

  // Everything that arrived after an unreleased call on its key stays behind it.
  ghost predicate Chained<K, S, R>(s: Store<K, S, R>, n: nat)
    requires Wf(s)
  {
    forall a, b :: 0 <= a < b < n && b < |s.phases| && s.requests[a].key == s.requests[b].key && !s.phases[a].Done? ==>
      Behind(s, a, b)
  }

  lemma {:induction false} RanBehindIsBroken<K, S, R>(s: Store<K, S, R>, n: nat, a: nat, b: nat)
    requires Sound(s) && Chained(s, n)
    requires a < b < n && b < |s.phases| && s.requests[a].key == s.requests[b].key && !s.phases[a].Done?
    ensures s.phases[b].Waiting?
    decreases b
  {
    assert Behind(s, a, b);
    if !s.phases[b].Waiting? {
      var w := s.waits[b].value;
      assert a <= w && s.phases[w].Done?;
      RanBehindIsBroken(s, n, a, w);
    }
  }

  lemma ChainedIsInOrder<K, S, R>(s: Store<K, S, R>, n: nat)
    requires Sound(s) && Chained(s, n)
    ensures InOrder(s, n)
  {
    forall a, b | 0 <= a < b < n && b < |s.phases| && s.requests[a].key == s.requests[b].key && !s.phases[a].Done?
      ensures s.phases[b].Waiting?
    {
      RanBehindIsBroken(s, n, a, b);
    }
  }

  lemma BeforeMoves(jobs: seq<Move>, more: seq<Move>, m: Move, m': Move)
    requires jobs != [] && Before(jobs, m, m') && jobs[0] != m
    ensures Before(jobs[1..] + more, m, m')
  {
    var i, j :| 0 <= i < j < |jobs| && jobs[i] == m && jobs[j] == m';
    assert (jobs[1..] + more)[i - 1] == m && (jobs[1..] + more)[j - 1] == m';
  }

  lemma BeforeStays(jobs: seq<Move>, more: seq<Move>, m: Move, m': Move)
    requires Before(jobs, m, m')
    ensures Before(jobs + more, m, m')
  {
    var i, j :| 0 <= i < j < |jobs| && jobs[i] == m && jobs[j] == m';
    assert (jobs + more)[i] == m && (jobs + more)[j] == m';
  }

  lemma MoveKeepsBehind<K, S, R>(s: Store<K, S, R>, m: Move, a: nat, b: nat)
    requires Sound(s) && CanMove(s, m) && a < b < |s.phases| && Behind(s, a, b)
    requires !MoveStep(s, m).phases[a].Done?
    ensures Behind(MoveStep(s, m), a, b)
  {
    if s.waits[b].None? {
      var i, j :| 0 <= i < j < |s.jobs| && s.jobs[i] == Release(a) && s.jobs[j] == Run(b);
      assert m != Run(b);
      if m.Settle? {
        BeforeStays(s.jobs, Queued(s, m), Release(a), Run(b));
      } else {
        BeforeMoves(s.jobs, Queued(s, m), Release(a), Run(b));
      }
    }
  }

  lemma MoveKeepsChained<K, S, R>(s: Store<K, S, R>, n: nat, m: Move)
    requires Sound(s) && Chained(s, n) && CanMove(s, m)
    ensures Chained(MoveStep(s, m), n)
  {
    var s' := MoveStep(s, m);
    forall a, b | 0 <= a < b < n && b < |s.phases| && s.requests[a].key == s.requests[b].key && !s'.phases[a].Done?
      ensures Behind(s', a, b)
    {
      assert !s.phases[a].Done?;
      MoveKeepsBehind(s, m, a, b);
    }
  }

  lemma ArrivalKeepsEarlierChain<K, S, R>(s: Store<K, S, R>, n: nat, r: Request<K, S, R>)
    requires Wf(s) && n <= |s.phases| && Chained(s, n)
    ensures Chained(ArriveStep(s, r), n)
  {
    var s' := ArriveStep(s, r);
    var more: seq<Move> := if r.key in s.locks then [] else [Run(|s.requests|)];
    forall a, b | 0 <= a < b < n && b < |s.phases| && s'.requests[a].key == s'.requests[b].key && !s'.phases[a].Done?
      ensures Behind(s', a, b)
    {
      assert s.requests[a].key == s.requests[b].key && !s.phases[a].Done?;
      assert Behind(s, a, b);
      if s.waits[b].None? { BeforeStays(s.jobs, more, Release(a), Run(b)); }
    }
  }

  // The chain of the calls present outlasts everything that follows.
  lemma {:induction false} ChainLasts<K, S, R>(events: seq<Event<K, S, R>>, more: seq<Event<K, S, R>>)
    requires Execute(events).Some? && Execute(events + more).Some?
    requires Chained(Execute(events).value, |Execute(events).value.phases|)
    ensures Chained(Execute(events + more).value, |Execute(events).value.phases|)
  {
    var n := |Execute(events).value.phases|;
    if more == [] {
      assert events + more == events;
    } else {
      var most, e := more[..|more| - 1], more[|more| - 1];
      assert (events + more)[..|events + more| - 1] == events + most;
      ChainLasts(events, most);
      EveryRunIsSound(events + most);
      RunsOnlyExtend(events + most, |events|);
      assert (events + most)[..|events|] == events;
      var s := Execute(events + most).value;
      match e
      case Arrive(r) => ArrivalKeepsEarlierChain(s, n, r);
      case Proceed(m) => MoveKeepsChained(s, n, m);
    }
  }

  lemma RestOfQueue(jobs: seq<Move>, more: seq<Move>, i: nat)
    requires i < |jobs|
    ensures jobs[..i + 1][1..] == (jobs[1..] + more)[..i]
    ensures i > 0 ==> jobs[..i][1..] == (jobs[1..] + more)[..i - 1] && jobs[0] in jobs[..i]
  {
    if i > 0 { assert jobs[..i][0] == jobs[0]; }
  }

  // With the run of `b` due at place `i` and no release of `a` due before it, the queue runs `b` past `a`.
  lemma {:induction false} QueueBreaksOrder<K, S, R>(s: Store<K, S, R>, a: nat, b: nat, i: nat)
    requires Sound(s) && a < b < |s.phases| && s.requests[a].key == s.requests[b].key && !s.phases[a].Done?
    requires i < |s.jobs| && s.jobs[i] == Run(b) && Release(a) !in s.jobs[..i]
    ensures Continue(s, s.jobs[..i + 1]).Some?
    ensures !InOrder(Continue(s, s.jobs[..i + 1]).value, |s.phases|)
    decreases i
  {
    var m := s.jobs[0];
    assert m in s.jobs;
    assert CanMove(s, m);
    var s' := MoveStep(s, m);
    MoveKeepsSound(s, m);
    RestOfQueue(s.jobs, Queued(s, m), i);
    if i == 0 {
      assert Continue(s', []) == Some(s');
      assert s'.requests[a].key == s'.requests[b].key && !s'.phases[a].Done? && !s'.phases[b].Waiting?;
    } else {
      QueueBreaksOrder(s', a, b, i - 1);
    }
  }

  lemma UnchainedPair<K, S, R>(s: Store<K, S, R>, a: nat, b: nat) returns (moves: seq<Move>)
    requires Sound(s) && a < b < |s.phases| && s.requests[a].key == s.requests[b].key && !s.phases[a].Done?
    requires !Behind(s, a, b)
    ensures Continue(s, moves).Some?
    ensures !InOrder(Continue(s, moves).value, |s.phases|)
  {
    if !s.phases[b].Waiting? {
      moves := [];
    } else {
      assert IsDue(s, Run(b));
      var i :| 0 <= i < |s.jobs| && s.jobs[i] == Run(b);
      forall j | 0 <= j < i ensures s.jobs[j] != Release(a) {
        assert s.jobs[j] in s.jobs;
        assert s.jobs[j] == Release(a) ==> IsDue(s, Release(a)) && Before(s.jobs, Release(a), Run(b));
      }
      moves := s.jobs[..i + 1];
      QueueBreaksOrder(s, a, b, i);
    }
  }

  // Where the chain is broken, the queue breaks the order with no further arrival or settlement.
  lemma UnchainedBreaksOrder<K, S, R>(s: Store<K, S, R>) returns (moves: seq<Move>)
    requires Sound(s) && !Chained(s, |s.phases|)
    ensures Continue(s, moves).Some?
    ensures !InOrder(Continue(s, moves).value, |s.phases|)
  {
    var a, b :| 0 <= a < b < |s.phases| && s.requests[a].key == s.requests[b].key && !s.phases[a].Done? &&
                !Behind(s, a, b);
    moves := UnchainedPair(s, a, b);
  }

  function Proceeding<K, S, R>(moves: seq<Move>): (events: seq<Event<K, S, R>>)
    ensures |events| == |moves| && forall i :: 0 <= i < |moves| ==> events[i] == Proceed(moves[i])
  {
    if moves == [] then [] else [Proceed(moves[0])] + Proceeding(moves[1..])
  }

  lemma ExecuteSnoc<K, S, R>(events: seq<Event<K, S, R>>, e: Event<K, S, R>)
    requires Execute(events).Some? && Enabled(Execute(events).value, e)
    ensures Execute(events + [e]) == Some(Next(Execute(events).value, e))
  {
    assert (events + [e])[..|events|] == events;
  }

  lemma Regroup<T>(s: seq<T>, x: T, t: seq<T>)
    ensures s + ([x] + t) == s + [x] + t
  {
  }

  lemma {:induction false} ContinueIsExecute<K, S, R>(events: seq<Event<K, S, R>>, moves: seq<Move>)
    requires Execute(events).Some? && Continue(Execute(events).value, moves).Some?
    ensures Execute(events + Proceeding(moves)) == Continue(Execute(events).value, moves)
    decreases |moves|
  {
    if moves == [] {
      assert events + Proceeding(moves) == events;
    } else {
      var e: Event<K, S, R> := Proceed(moves[0]);
      ExecuteSnoc(events, e);
      ContinueIsExecute(events + [e], moves[1..]);
      Regroup(events, e, Proceeding(moves[1..]));
    }
  }

  // The calls present keep order, whatever arrives and however far it all proceeds, exactly when the reachable state is
  // chained; and exactly when they keep it with no further arrival.
  lemma {:induction false} OrderIffChained<K(!new), S, R>(events: seq<Event<K, S, R>>)
    requires Execute(events).Some?
    ensures
      var s := Execute(events).value;
      Chained(s, |s.phases|) <==>
      forall more: seq<Event<K, S, R>> :: Execute(events + more).Some? ==>
        InOrder(Execute(events + more).value, |s.phases|)
    ensures
      var s := Execute(events).value;
      Chained(s, |s.phases|) <==>
      forall moves: seq<Move> :: Continue(s, moves).Some? ==> InOrder(Continue(s, moves).value, |s.phases|)
  {
    var s := Execute(events).value;
    var n := |s.phases|;
    EveryRunIsSound(events);
    if Chained(s, n) {
      forall more: seq<Event<K, S, R>> | Execute(events + more).Some?
        ensures InOrder(Execute(events + more).value, n)
      {
        ChainLasts(events, more);
        EveryRunIsSound(events + more);
        ChainedIsInOrder(Execute(events + more).value, n);
      }
      forall moves: seq<Move> | Continue(s, moves).Some?
        ensures InOrder(Continue(s, moves).value, n)
      {
        ContinueIsExecute(events, moves);
        assert InOrder(Execute(events + Proceeding(moves)).value, n);
      }
    } else {
      var moves := UnchainedBreaksOrder(s);
      ContinueIsExecute(events, moves);
      assert !InOrder(Execute(events + Proceeding(moves)).value, n);
    }
  }

  // The key has a lock entry, or every call on it is done or about to release.
  ghost predicate KeyIsHeldOrLeaving<K, S, R>(s: Store<K, S, R>, key: K)
    requires Wf(s)
  {
    key in s.locks ||
    forall id :: 0 <= id < |s.requests| && s.requests[id].key == key ==> s.phases[id].Ran? || s.phases[id].Done?
  }

  // An arrival keeps the state chained exactly when it finds a lock entry or every call on its key is done
  // or about to release.
  lemma {:induction false} ArrivalKeepsChainIff<K, S, R>(events: seq<Event<K, S, R>>, r: Request<K, S, R>)
    requires Execute(events).Some?
    requires Chained(Execute(events).value, |Execute(events).value.phases|)
    ensures
      var s := Execute(events).value;
      Chained(ArriveStep(s, r), |s.phases| + 1) <==> KeyIsHeldOrLeaving(s, r.key)
  {
    EveryRunIsSound(events);
    ArrivalChain(Execute(events).value, r);
  }

  // The newcomer stays behind everything unreleased on its key.
  ghost predicate JoinsBehind<K, S, R>(s: Store<K, S, R>, s': Store<K, S, R>, key: K)
    requires Wf(s) && Wf(s') && |s'.phases| == |s.phases| + 1
  {
    forall a :: 0 <= a < |s.phases| && s.requests[a].key == key && !s.phases[a].Done? ==> Behind(s', a, |s.phases|)
  }

  lemma NewcomerIsBehindIff<K, S, R>(s: Store<K, S, R>, r: Request<K, S, R>, a: nat)
    requires Sound(s) && a < |s.phases| && s.requests[a].key == r.key && !s.phases[a].Done?
    ensures Behind(ArriveStep(s, r), a, |s.phases|) <==> r.key in s.locks || s.phases[a].Ran?
  {
    var s', n := ArriveStep(s, r), |s.phases|;
    assert s'.phases[a] == s.phases[a] && s'.phases[n] == Waiting && s'.waits[n].Some? == (r.key in s.locks);
    if r.key !in s.locks && s.phases[a].Ran? {
      assert IsDue(s, Release(a));
      var i :| 0 <= i < |s.jobs| && s.jobs[i] == Release(a);
      assert s'.jobs[i] == Release(a) && s'.jobs[|s.jobs|] == Run(n);
    }
  }

  lemma JoinsBehindIff<K, S, R>(s: Store<K, S, R>, r: Request<K, S, R>)
    requires Sound(s)
    ensures JoinsBehind(s, ArriveStep(s, r), r.key) <==> KeyIsHeldOrLeaving(s, r.key)
  {
    forall a | 0 <= a < |s.phases| && s.requests[a].key == r.key && !s.phases[a].Done?
      ensures Behind(ArriveStep(s, r), a, |s.phases|) <==> r.key in s.locks || s.phases[a].Ran?
    {
      NewcomerIsBehindIff(s, r, a);
    }
  }

  lemma ChainedOfJoining<K, S, R>(s: Store<K, S, R>, r: Request<K, S, R>, s': Store<K, S, R>)
    requires Wf(s) && s' == ArriveStep(s, r) && Chained(s', |s.phases|)
    ensures Chained(s', |s.phases| + 1) <==> JoinsBehind(s, s', r.key)
  {
    var n := |s.phases|;
    assert s'.requests[n] == r;
    assert forall a :: 0 <= a < n ==> s'.requests[a] == s.requests[a] && s'.phases[a] == s.phases[a];
    if Chained(s', n + 1) {
      forall a | 0 <= a < n && s.requests[a].key == r.key && !s.phases[a].Done? ensures Behind(s', a, n) {
        assert s'.requests[a].key == s'.requests[n].key && !s'.phases[a].Done?;
      }
    }
  }

  lemma ArrivalChain<K, S, R>(s: Store<K, S, R>, r: Request<K, S, R>)
    requires Sound(s) && Chained(s, |s.phases|)
    ensures
      Chained(ArriveStep(s, r), |s.phases| + 1) <==> KeyIsHeldOrLeaving(s, r.key)
  {
    ArrivalKeepsEarlierChain(s, |s.phases|, r);
    ChainedOfJoining(s, r, ArriveStep(s, r));
    JoinsBehindIff(s, r);
  }

  // ----- A run that breaks the order -----

  datatype Stage = Yet | Held | Past | Over

  function StageOf<S, R>(phase: Phase<S, R>): Stage {
    match phase
    case Waiting => Yet
    case Adopting(_) => Held
    case Pending(_) => Held
    case Ran(_) => Past
    case Done(_) => Over
  }

  // Its mutation never hands on a promise.
  ghost predicate IsPlain<K, S(!new), R>(r: Request<K, S, R>) {
    forall x: S :: !r.mutation(x).Promised?
  }

  // A store all of whose calls make the same plain request, without states and outcomes.
  datatype View = View(entry: Option<nat>, waits: seq<Option<nat>>, stages: seq<Stage>, jobs: seq<Move>, log: seq<nat>)

  ghost predicate Shows<K, S(!new), R>(s: Store<K, S, R>, r: Request<K, S, R>, v: View) {
    && Wf(s) && |s.phases| == |v.stages| && IsPlain(r)
    && (forall i :: 0 <= i < |s.requests| ==> s.requests[i] == r)
    && (forall i :: 0 <= i < |s.phases| ==> StageOf(s.phases[i]) == v.stages[i])
    && Lookup(s.locks, r.key) == v.entry && s.waits == v.waits && s.jobs == v.jobs && s.log == v.log
  }

  predicate Due(v: View) {
    && v.jobs != [] && v.jobs[0].id < |v.stages| == |v.waits|
    && match v.jobs[0] {
         case Run(id) =>
           && v.stages[id] == Yet
           && (v.waits[id].Some? ==> v.waits[id].value < |v.stages| && v.stages[v.waits[id].value] == Over)
         case Release(id) => v.stages[id] == Past
         case _ => false
       }
  }

  function Arrived(v: View): View {
    var n := |v.stages|;
    View(Some(n), v.waits + [v.entry], v.stages + [Yet], v.jobs + if v.entry.Some? then [] else [Run(n)], v.log)
  }

  function Proceeded(v: View): View
    requires Due(v)
  {
    match v.jobs[0]
    case Run(id) => v.(stages := v.stages[id := Past], jobs := v.jobs[1..] + [Release(id)], log := v.log + [id])
    case Release(id) => v.(entry := None, stages := v.stages[id := Over], jobs := v.jobs[1..] + Woken(v.waits, id))
  }

  lemma ShowsArrived<K, S(!new), R>(s: Store<K, S, R>, r: Request<K, S, R>, v: View)
    requires Shows(s, r, v)
    ensures Shows(ArriveStep(s, r), r, Arrived(v))
  {
  }

  lemma ShowsProceeded<K, S(!new), R>(s: Store<K, S, R>, r: Request<K, S, R>, v: View)
    requires Shows(s, r, v) && Due(v)
    ensures CanMove(s, v.jobs[0]) && Shows(MoveStep(s, v.jobs[0]), r, Proceeded(v))
  {
  }

  // These events lead to a store that looks like this.
  ghost predicate Reaches<K, S(!new), R>(events: seq<Event<K, S, R>>, r: Request<K, S, R>, v: View) {
    Execute(events).Some? && Shows(Execute(events).value, r, v)
  }

  predicate Follows(v: View, v': View) {
    v' == Arrived(v) || (Due(v) && v' == Proceeded(v))
  }

  lemma {:induction false} OneStep<K, S(!new), R>(events: seq<Event<K, S, R>>, r: Request<K, S, R>, v: View, v': View)
    returns (more: seq<Event<K, S, R>>)
    requires Reaches(events, r, v) && Follows(v, v')
    ensures Reaches(more, r, v')
  {
    var e: Event<K, S, R>;
    if v' == Arrived(v) {
      ShowsArrived(Execute(events).value, r, v);
      e := Arrive(r);
    } else {
      ShowsProceeded(Execute(events).value, r, v);
      e := Proceed(v.jobs[0]);
    }
    ExecuteSnoc(events, e);
    more := events + [e];
  }

  lemma {:induction false} AllSteps<K, S(!new), R>(r: Request<K, S, R>, views: seq<View>)
    returns (events: seq<Event<K, S, R>>)
    requires IsPlain(r) && views != [] && views[0] == View(None, [], [], [], [])
    requires forall i :: 0 <= i < |views| - 1 ==> Follows(views[i], views[i + 1])
    ensures Reaches(events, r, views[|views| - 1])
  {
    if |views| == 1 {
      events := [];
      assert Shows(Execute(events).value, r, views[0]);
    } else {
      var n := |views| - 1;
      events := AllSteps(r, views[..n]);
      events := OneStep(events, r, views[n - 1], views[n]);
    }
  }

  lemma WokenSnoc(waits: seq<Option<nat>>, wait: Option<nat>, id: nat)
    ensures Woken(waits + [wait], id) == Woken(waits, id) + if wait == Some(id) then [Run(|waits|)] else []
  {
    assert (waits + [wait])[..|waits|] == waits;
  }

  lemma WokenOfTwo(id: nat)
    ensures Woken([None, Some(0)], id) == if id == 0 then [Run(1)] else []
  {
    var none: seq<Option<nat>> := [];
    WokenSnoc(none, None, id);
    assert none + [None] == [None];
    WokenSnoc([None], Some(0), id);
    assert [None] + [Some(0)] == [None, Some(0)];
  }

  lemma WokenOfThree(id: nat)
    ensures Woken([None, Some(0), Some(1)], id) == if id == 0 then [Run(1)] else if id == 1 then [Run(2)] else []
  {
    WokenOfTwo(id);
    WokenSnoc([None, Some(0)], Some(1), id);
    assert [None, Some(0)] + [Some(1)] == [None, Some(0), Some(1)];
  }

  lemma WokenOfFour(id: nat)
    ensures Woken([None, Some(0), Some(1), None], id) == Woken([None, Some(0), Some(1)], id)
  {
    WokenSnoc([None, Some(0), Some(1)], None, id);
    assert [None, Some(0), Some(1)] + [None] == [None, Some(0), Some(1), None];
  }

  // Three calls arrive; the first one's release deletes the entry of the third.
  const OPENING: seq<View> := [
    View(None, [], [], [], []),
    View(Some(0), [None], [Yet], [Run(0)], []),
    View(Some(1), [None, Some(0)], [Yet, Yet], [Run(0)], []),
    View(Some(2), [None, Some(0), Some(1)], [Yet, Yet, Yet], [Run(0)], []),
    View(Some(2), [None, Some(0), Some(1)], [Past, Yet, Yet], [Release(0)], [0]),
    View(None, [None, Some(0), Some(1)], [Over, Yet, Yet], [Run(1)], [0])]

  // A fourth call that arrives after the second has run finds none, is due before the third, and runs ahead of it.
  const SEQUEL: seq<View> := [
    View(None, [None, Some(0), Some(1)], [Over, Past, Yet], [Release(1)], [0, 1]),
    View(Some(3), [None, Some(0), Some(1), None], [Over, Past, Yet, Yet], [Release(1), Run(3)], [0, 1]),
    View(None, [None, Some(0), Some(1), None], [Over, Over, Yet, Yet], [Run(3), Run(2)], [0, 1]),
    View(None, [None, Some(0), Some(1), None], [Over, Over, Yet, Past], [Run(2), Release(3)], [0, 1, 3]),
    View(None, [None, Some(0), Some(1), None], [Over, Over, Past, Past], [Release(3), Release(2)], [0, 1, 3, 2])]

  lemma CallsArrive()
    ensures Follows(OPENING[0], OPENING[1])
    ensures Follows(OPENING[1], OPENING[2])
    ensures Follows(OPENING[2], OPENING[3])
  {
    assert Arrived(OPENING[0]) == OPENING[1];
    assert Arrived(OPENING[1]) == OPENING[2];
    assert Arrived(OPENING[2]) == OPENING[3];
  }

  lemma EntryIsForgotten()
    ensures Follows(OPENING[3], OPENING[4])
    ensures Follows(OPENING[4], OPENING[5])
  {
    WokenOfThree(0);
    assert Proceeded(OPENING[3]) == OPENING[4];
    assert Proceeded(OPENING[4]) == OPENING[5];
  }

  lemma FourthFindsNoEntry()
    ensures Follows(OPENING[5], SEQUEL[0])
    ensures Follows(SEQUEL[0], SEQUEL[1])
  {
    assert Proceeded(OPENING[5]) == SEQUEL[0];
    assert Arrived(SEQUEL[0]) == SEQUEL[1];
  }

  lemma FourthIsAhead()
    ensures Follows(View(Some(3), [None, Some(0), Some(1), None], [Over, Past, Yet, Yet], [Release(1), Run(3)], [0, 1]),
                    View(None, [None, Some(0), Some(1), None], [Over, Over, Yet, Yet], [Run(3), Run(2)], [0, 1]))
  {
    var before, after := [Over, Past, Yet, Yet], [Over, Over, Yet, Yet];
    assert before[1 := Over] == after;
    WokenOfThree(1);
    WokenOfFour(1);
    ReleaseFollows(Some(3), [None, Some(0), Some(1), None], before, after, 1, [Run(3)], [Run(2)], [0, 1]);
    assert [Release(1)] + [Run(3)] == [Release(1), Run(3)] && [Run(3)] + [Run(2)] == [Run(3), Run(2)];
  }

  lemma ReleaseFollows(entry: Option<nat>, waits: seq<Option<nat>>, before: seq<Stage>, after: seq<Stage>, id: nat,
                       rest: seq<Move>, woken: seq<Move>, log: seq<nat>)
    requires id < |before| == |waits| && before[id] == Past && before[id := Over] == after && Woken(waits, id) == woken
    ensures Follows(View(entry, waits, before, [Release(id)] + rest, log), View(None, waits, after, rest + woken, log))
  {
    assert ([Release(id)] + rest)[1..] == rest;
  }

  lemma FourthIsBeside()
    ensures Follows(SEQUEL[2], SEQUEL[3])
    ensures Follows(SEQUEL[3], SEQUEL[4])
  {
    assert Proceeded(SEQUEL[2]) == SEQUEL[3];
    assert Proceeded(SEQUEL[3]) == SEQUEL[4];
  }

  lemma OpeningFollows()
    ensures forall i :: 0 <= i < |OPENING| - 1 ==> Follows(OPENING[i], OPENING[i + 1])
  {
    CallsArrive();
    EntryIsForgotten();
  }

  lemma SequelFollows()
    ensures Follows(OPENING[|OPENING| - 1], SEQUEL[0])
    ensures forall i :: 0 <= i < |SEQUEL| - 1 ==> Follows(SEQUEL[i], SEQUEL[i + 1])
  {
    FourthFindsNoEntry();
    FourthIsAhead();
    FourthIsBeside();
  }

  lemma JoinFollows(a: seq<View>, b: seq<View>)
    requires a != [] && b != [] && Follows(a[|a| - 1], b[0])
    requires forall i :: 0 <= i < |a| - 1 ==> Follows(a[i], a[i + 1])
    requires forall i :: 0 <= i < |b| - 1 ==> Follows(b[i], b[i + 1])
    ensures forall i :: 0 <= i < |a + b| - 1 ==> Follows((a + b)[i], (a + b)[i + 1])
  {
    forall i | 0 <= i < |a + b| - 1 ensures Follows((a + b)[i], (a + b)[i + 1]) {
      if i >= |a| { assert Follows(b[i - |a|], b[i - |a| + 1]); }
    }
  }

  // With any plain request there is a run in which two calls on one key are past their callback and unreleased, the
  // later arrival having run first.
  lemma LockDoesNotExclude<K, S(!new), R>(r: Request<K, S, R>) returns (events: seq<Event<K, S, R>>)
    requires IsPlain(r)
    ensures Execute(events).Some?
    ensures var s := Execute(events).value;
            |s.phases| == 4 && s.requests == [r, r, r, r] && s.phases[2].Ran? && s.phases[3].Ran? &&
            s.log == [0, 1, 3, 2]
  {
    OpeningFollows();
    SequelFollows();
    JoinFollows(OPENING, SEQUEL);
    events := AllSteps(r, OPENING + SEQUEL);
    assert Shows(Execute(events).value, r, SEQUEL[4]);
  }

  // ----- The class -----

  class MemoryAtomicStateStore<K(==), S, R> {
    var states: map<K, S>
    var locks: map<K, nat>
    // The calls themselves: what was asked, which promise each awaits, and how far it has got.
    var requests: seq<Request<K, S, R>>
    var waits: seq<Option<nat>>
    var phases: seq<Phase<S, R>>
    // The promise jobs that are due.
    var jobs: seq<Move>
    ghost var log: seq<nat>

    ghost function Model(): Store<K, S, R>
      reads this
    {
      Store(states, locks, requests, waits, phases, jobs, log)
    }

    constructor ()
      ensures Model() == Empty()
    {
      states, locks, requests, waits, phases, jobs, log := map[], map[], [], [], [], [], [];
    }

    // Lines 17-22, up to the first await.
    method Arrive(request: Request<K, S, R>) returns (id: nat)
      requires Wf(Model())
      modifies this
      ensures id == |old(requests)|
      ensures Model() == Next(old(Model()), Event.Arrive(request))
    {
      id := |requests|;
      var existing := Lookup(locks, request.key);
      if existing.None? {
        jobs := jobs + [Run(id)];
      }
      locks := locks[request.key := id];
      requests, waits, phases := requests + [request], waits + [existing], phases + [Waiting];
    }

    // Lines 39-42: the callback, which no other call can interrupt.
    method RunCallback(id: nat) returns (outcome: Outcome<S, R>)
      requires Wf(Model()) && CanMove(Model(), Run(id))
      modifies this
      ensures outcome == OutcomeOf(old(Model()), id)
      ensures Model() == Next(old(Model()), Proceed(Run(id)))
    {
      var r := requests[id];
      var current := if r.key in states then states[r.key] else r.initial;
      outcome := r.mutation(current);
      if !outcome.Threw? {
        states := states[r.key := outcome.state];
      }
      if outcome.Promised? {
        phases, jobs := phases[id := Adopting(outcome)], jobs[1..] + [Adopt(id)];
      } else {
        phases, jobs := phases[id := Ran(outcome)], jobs[1..] + [Release(id)];
      }
      log := log + [id];
    }

    // Line 42, for a result that is a promise: the async function waits for it.
    method AdoptResult(id: nat)
      requires Wf(Model()) && CanMove(Model(), Adopt(id))
      modifies this
      ensures Model() == Next(old(Model()), Proceed(Adopt(id)))
    {
      phases, jobs := phases[id := Pending(phases[id].outcome)], jobs[1..];
    }

    // Line 26: the promise has settled, and the await around the callback is due to resume.
    method SettleResult(id: nat)
      requires Wf(Model()) && CanMove(Model(), Settle(id))
      modifies this
      ensures Model() == Next(old(Model()), Proceed(Settle(id)))
    {
      phases, jobs := phases[id := Ran(phases[id].outcome)], jobs + [Release(id)];
    }

    // Lines 28-29: the finally block.
    method ReleaseLock(id: nat)
      requires Wf(Model()) && CanMove(Model(), Release(id))
      modifies this
      ensures Model() == Next(old(Model()), Proceed(Release(id)))
    {
      locks := locks - {requests[id].key};
      phases := phases[id := Done(phases[id].outcome)];
      jobs := jobs[1..] + Woken(waits, id);
    }
  }
}
