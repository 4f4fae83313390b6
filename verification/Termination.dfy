/** The worker pool always gets done: whatever the scheduling, each step of a worker or of the lock
    brings the pool closer to rest, and from everywhere the rest can be reached. */
module Termination {
  import opened Model
  import opened Reconcile
  import opened Ledger
  import opened Serial
  import Pool = WorkerPool
  import Locks = UserLocks
  import Locking = LockedPool

  function Sum(xs: seq<nat>): nat {
    if xs == [] then 0 else Sum(xs[..|xs| - 1]) + xs[|xs| - 1]
  }

  lemma {:induction false} SumUpdate(xs: seq<nat>, i: nat, x: nat)
    requires i < |xs|
    ensures Sum(xs[i := x]) == Sum(xs) - xs[i] + x
  {
    var k := |xs| - 1;
    if i == k {
      assert xs[i := x][..k] == xs[..k];
    } else {
      assert xs[i := x][..k] == xs[..k][i := x];
      SumUpdate(xs[..k], i, x);
    }
  }

  /** How many attempts a job may still get. */
  function TriesLeft(rules: Rules, p: Progress): nat {
    if p.finished then 0 else if p.tries < rules.retries then rules.retries - p.tries else 1
  }

  /** How many phases a worker has before it in its attempt, and calls in its phase. */
  function PhasesLeft(phase: Pool.Phase): nat {
    match phase
    case Idle => 0
    case Waiting(_) => 5
    case Reading(_) => 4
    case Revoking(_, _, _, _) => 3
    case Granting(_, _, _, _) => 2
    case Leaving(_, _) => 1
  }

  function CallsLeft(phase: Pool.Phase): nat {
    match phase
    case Revoking(_, _, todo, _) => |todo|
    case Granting(_, _, todo, _) => |todo|
    case _ => 0
  }

  /** How many steps of the lock a thread has before it until it holds the mutex. */
  function LockStepsLeft(thread: Locks.Thread<nat>): nat {
    match thread
    case Leaving(_, _) => 3
    case Outside => 2
    case Queued(_, _) => 1
    case Inside(_, _) => 0
  }

  /** Attempts, jobs in the queue, phases and calls left of a pool, and steps of the lock. */
  datatype Left = Left(tries: nat, queued: nat, phases: nat, calls: nat, locking: nat)

  predicate Below(a: Left, b: Left) {
    || a.tries < b.tries
    || (a.tries == b.tries && a.queued < b.queued)
    || (a.tries == b.tries && a.queued == b.queued && a.phases < b.phases)
    || (a.tries == b.tries && a.queued == b.queued && a.phases == b.phases && a.calls < b.calls)
    || (a.tries == b.tries && a.queued == b.queued && a.phases == b.phases && a.calls == b.calls && a.locking < b.locking)
  }

  function AllTries(rules: Rules, progress: seq<Progress>): nat {
    Sum(seq(|progress|, j requires 0 <= j < |progress| => TriesLeft(rules, progress[j])))
  }

  function AllPhases(workers: seq<Pool.Phase>): nat {
    Sum(seq(|workers|, w requires 0 <= w < |workers| => PhasesLeft(workers[w])))
  }

  function AllCalls(workers: seq<Pool.Phase>): nat {
    Sum(seq(|workers|, w requires 0 <= w < |workers| => CallsLeft(workers[w])))
  }

  function AllLocking(threads: seq<Locks.Thread<nat>>): nat {
    Sum(seq(|threads|, w requires 0 <= w < |threads| => LockStepsLeft(threads[w])))
  }

  function LeftOf(setup: Pool.Setup, s: Locking.Locked): Left {
    Left(AllTries(setup.rules, s.pool.progress),
         if s.pool.queued < |setup.jobs| then |setup.jobs| - s.pool.queued else 0,
         AllPhases(s.pool.workers), AllCalls(s.pool.workers), AllLocking(s.locks.threads))
  }

  lemma TriesUpdate(rules: Rules, progress: seq<Progress>, j: nat, p: Progress)
    requires j < |progress|
    ensures AllTries(rules, progress[j := p]) == AllTries(rules, progress) - TriesLeft(rules, progress[j]) + TriesLeft(rules, p)
  {
    var left := seq(|progress|, i requires 0 <= i < |progress| => TriesLeft(rules, progress[i]));
    var now := progress[j := p];
    assert seq(|now|, i requires 0 <= i < |now| => TriesLeft(rules, now[i])) == left[j := TriesLeft(rules, p)];
    SumUpdate(left, j, TriesLeft(rules, p));
  }

  lemma WorkersUpdate(workers: seq<Pool.Phase>, w: nat, phase: Pool.Phase)
    requires w < |workers|
    ensures AllPhases(workers[w := phase]) == AllPhases(workers) - PhasesLeft(workers[w]) + PhasesLeft(phase)
    ensures AllCalls(workers[w := phase]) == AllCalls(workers) - CallsLeft(workers[w]) + CallsLeft(phase)
  {
    var now := workers[w := phase];
    var phases := seq(|workers|, i requires 0 <= i < |workers| => PhasesLeft(workers[i]));
    assert seq(|now|, i requires 0 <= i < |now| => PhasesLeft(now[i])) == phases[w := PhasesLeft(phase)];
    SumUpdate(phases, w, PhasesLeft(phase));
    var calls := seq(|workers|, i requires 0 <= i < |workers| => CallsLeft(workers[i]));
    assert seq(|now|, i requires 0 <= i < |now| => CallsLeft(now[i])) == calls[w := CallsLeft(phase)];
    SumUpdate(calls, w, CallsLeft(phase));
  }

  lemma ThreadsUpdate(threads: seq<Locks.Thread<nat>>, w: nat, thread: Locks.Thread<nat>)
    requires w < |threads|
    ensures AllLocking(threads[w := thread]) == AllLocking(threads) - LockStepsLeft(threads[w]) + LockStepsLeft(thread)
  {
    var now := threads[w := thread];
    var left := seq(|threads|, i requires 0 <= i < |threads| => LockStepsLeft(threads[i]));
    assert seq(|now|, i requires 0 <= i < |now| => LockStepsLeft(now[i])) == left[w := LockStepsLeft(thread)];
    SumUpdate(left, w, LockStepsLeft(thread));
  }

  /** What a step leaves to its worker: fewer phases, or the same phase with a call less. */
  lemma ActDescends(setup: Pool.Setup, p: Pool.Pool, a: Pool.Action, env: Env)
    requires Pool.Enabled(setup, p, a) && p.workers[a.w].Holding() && !a.Release? && p.workers[a.w].job < |setup.jobs|
    ensures var before, after := p.workers[a.w], Pool.Act(setup, p, a, env).0;
            || PhasesLeft(after) < PhasesLeft(before)
            || (PhasesLeft(after) == PhasesLeft(before) && CallsLeft(after) < CallsLeft(before))
  {
  }

  lemma PoolStepDescends(setup: Pool.Setup, p: Pool.Pool, a: Pool.Action, locks: Locks.System<nat>, locks': Locks.System<nat>)
    requires Pool.WellFormed(setup, p) && Pool.Enabled(setup, p, a)
    ensures Below(LeftOf(setup, Locking.Locked(Pool.Next(setup, p, a), locks')), LeftOf(setup, Locking.Locked(p, locks)))
  {
    hide Pool.Act, Sum, AllTries, AllPhases, AllCalls, AllLocking;
    var phase, p' := p.workers[a.w], Pool.Next(setup, p, a);
    WorkersUpdate(p.workers, a.w, p'.workers[a.w]);
    match a
    case Take(_) =>
    case Ignore(_) => TriesUpdate(setup.rules, p.progress, phase.job, p'.progress[phase.job]);
    case Acquire(_) =>
    case Release(_) => TriesUpdate(setup.rules, p.progress, phase.job, p'.progress[phase.job]);
    case _ => ActDescends(setup, p, a, Pool.EnvOf(setup, p, phase.job));
  }

  /** Every step of a worker or of the lock leaves less to do. */
  lemma StepDescends(setup: Pool.Setup, s: Locking.Locked, a: Locking.Action)
    requires Locking.Invariant(setup, s) && Locking.Enabled(setup, s, a)
    ensures Below(LeftOf(setup, Locking.Next(setup, s, a)), LeftOf(setup, s))
    ensures |Locking.Next(setup, s, a).pool.workers| == |s.pool.workers|
  {
    hide LeftOf, Below, Pool.Invariant, Pool.Next, Locks.Invariant, Locking.AllLinked;
    var s' := Locking.Next(setup, s, a);
    match a
    case Work(step) =>
      Locking.WorkIsPoolStep(setup, s, step);
      Locking.WellFormed(setup, s);
      PoolStepDescends(setup, s.pool, step, s.locks, s'.locks);
      SameWorkers(setup, s.pool, step);
    case Enter(w, _) => LockingDescends(setup, s, s', w, s'.locks.threads[w]);
    case Leave(w) => LockingDescends(setup, s, s', w, s'.locks.threads[w]);
  }

  lemma SameWorkers(setup: Pool.Setup, p: Pool.Pool, a: Pool.Action)
    requires Pool.WellFormed(setup, p) && Pool.Enabled(setup, p, a)
    ensures |Pool.Next(setup, p, a).workers| == |p.workers|
  {
  }

  lemma LockingDescends(setup: Pool.Setup, s: Locking.Locked, s': Locking.Locked, w: nat, thread: Locks.Thread<nat>)
    requires s'.pool == s.pool && w < |s.locks.threads| && s'.locks.threads == s.locks.threads[w := thread]
    requires LockStepsLeft(thread) < LockStepsLeft(s.locks.threads[w])
    ensures Below(LeftOf(setup, s'), LeftOf(setup, s))
  {
    ThreadsUpdate(s.locks.threads, w, thread);
  }

  function First(steps: nat -> Locking.Action, n: nat): seq<Locking.Action> {
    if n == 0 then [] else First(steps, n - 1) + [steps(n - 1)]
  }

  /** No scheduling keeps a pool busy for ever: of any endless list of steps only finitely many can be
      made in turn. */
  lemma EndlessRunBreaksOff(setup: Pool.Setup, workers: nat, steps: nat -> Locking.Action)
    ensures exists n: nat :: Locking.After(setup, workers, First(steps, n)).None?
  {
    AtStart(setup, workers);
    var n := BreaksOff(setup, workers, steps, 0, Locking.Initial(setup, workers));
  }

  lemma {:induction false} BreaksOff(setup: Pool.Setup, workers: nat, steps: nat -> Locking.Action, n: nat, s: Locking.Locked)
    returns (k: nat)
    requires Locking.After(setup, workers, First(steps, n)) == Some(s)
    ensures Locking.After(setup, workers, First(steps, k)).None?
    decreases LeftOf(setup, s).tries, LeftOf(setup, s).queued, LeftOf(setup, s).phases,
              LeftOf(setup, s).calls, LeftOf(setup, s).locking
  {
    hide LeftOf, Locking.Invariant, Locking.Next, Locking.Enabled;
    var longer := First(steps, n + 1);
    assert longer[..|longer| - 1] == First(steps, n);
    if Locking.Enabled(setup, s, steps(n)) {
      StepDescends(setup, s, steps(n));
      k := BreaksOff(setup, workers, steps, n + 1, Locking.Next(setup, s, steps(n)));
    } else {
      k := n + 1;
    }
  }

  /** And wherever a pool with a worker stands, it can go on to rest. */
  lemma {:induction false} ComesToRest(setup: Pool.Setup, workers: nat, actions: seq<Locking.Action>, s: Locking.Locked)
    returns (more: seq<Locking.Action>, s': Locking.Locked)
    requires Locking.After(setup, workers, actions) == Some(s) && |s.pool.workers| >= 1
    ensures Locking.After(setup, workers, actions + more) == Some(s') && Pool.AtRest(setup, s'.pool)
    decreases LeftOf(setup, s).tries, LeftOf(setup, s).queued, LeftOf(setup, s).phases,
              LeftOf(setup, s).calls, LeftOf(setup, s).locking
  {
    hide LeftOf, Locking.Invariant, Locking.Next, Locking.Enabled, Pool.AtRest;
    if Pool.AtRest(setup, s.pool) {
      more, s' := [], s;
      assert actions + [] == actions;
    } else {
      var a := Locking.LockedNotStuck(setup, workers, actions, s);
      StepDescends(setup, s, a);
      assert (actions + [a])[..|actions|] == actions;
      more, s' := ComesToRest(setup, workers, actions + [a], Locking.Next(setup, s, a));
      assert actions + [a] + more == actions + ([a] + more);
      more := [a] + more;
    }
  }

  /** So the messages of a bulk are all applied: from the start, some interleaving ends in a complete
      schedule of attempts at them, and with distinct ids in the one state of the list applied in order. */
  lemma BulkIsApplied(setup: Pool.Setup, workers: nat) returns (actions: seq<Locking.Action>, s: Locking.Locked)
    requires workers >= 1
    ensures Locking.After(setup, workers, actions) == Some(s) && Pool.AtRest(setup, s.pool)
    ensures Serialised(setup.rules, setup.jobs, setup.st, s.pool.st)
    ensures DistinctIds(setup.jobs) ==> s.pool.st == InOrder(setup.rules, setup.st, setup.jobs)
  {
    hide Pool.Invariant, Locks.Invariant, Pool.AtRest, Serialised, DistinctIds;
    AtStart(setup, workers);
    actions, s := ComesToRest(setup, workers, [], Locking.Initial(setup, workers));
    assert [] + actions == actions;
    Locking.LockedPoolIsSerialised(setup, workers, actions, s);
    if DistinctIds(setup.jobs) {
      SerialisedDistinct(setup.rules, setup.jobs, setup.st, s.pool.st);
    }
  }

  lemma AtStart(setup: Pool.Setup, workers: nat)
    ensures Locking.After(setup, workers, []) == Some(Locking.Initial(setup, workers))
  {
  }
}
