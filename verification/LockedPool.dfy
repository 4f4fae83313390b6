/** The worker pool with the lock it uses: before an attempt a worker registers in the lock table and
    takes the mutex it finds there, afterwards it gives it back and leaves the table, each as a step
    of its own. That one attempt per user runs at a time is not assumed here but proved. */
module LockedPool {
  import opened Model
  import opened Reconcile
  import opened Ledger
  import opened Serial
  import Pool = WorkerPool
  import Locks = UserLocks

  /** Worker `w` of the pool is thread `w` of the locks; mutexes are numbers. */
  datatype Locked = Locked(pool: Pool.Pool, locks: Locks.System<nat>)

  /** `Work` is a step of the pool; its `Acquire` takes the mutex and its `Release` gives it back. */
  datatype Action = Enter(w: nat, created: nat) | Work(a: Pool.Action) | Leave(w: nat)

  function UidOf(setup: Pool.Setup, phase: Pool.Phase): Option<Uid> {
    if !phase.Idle? && phase.job < |setup.jobs| && setup.jobs[phase.job].msg.Valid()
    then Some(setup.jobs[phase.job].msg.id) else None
  }

  /** A worker that is waiting to attempt a valid message, which is when it asks for the lock. */
  predicate Wants(setup: Pool.Setup, s: Locked, w: nat) {
    w < |s.pool.workers| && s.pool.workers[w].Waiting? && UidOf(setup, s.pool.workers[w]).Some?
  }

  predicate Enabled(setup: Pool.Setup, s: Locked, a: Action) {
    match a
    case Enter(w, created) =>
      && Wants(setup, s, w) && w < |s.locks.threads|
      && Locks.Enabled(s.locks, Locks.Register(w, UidOf(setup, s.pool.workers[w]).value, created))
    case Leave(w) => Locks.Enabled(s.locks, Locks.Deregister(w))
    case Work(step) =>
      match step
      case Acquire(w) => Wants(setup, s, w) && Locks.Enabled(s.locks, Locks.Acquire(w))
      case Release(w) => Pool.Enabled(setup, s.pool, step) && Locks.Enabled(s.locks, Locks.Release(w))
      case Take(w) => Pool.Enabled(setup, s.pool, step) && w < |s.locks.threads| && s.locks.threads[w].Outside?
      case Ignore(w) => Pool.Enabled(setup, s.pool, step) && w < |s.locks.threads| && s.locks.threads[w].Outside?
      case _ => Pool.Enabled(setup, s.pool, step)
  }

  /** Each worker is where its thread is, and both are about the same user. */
  predicate Linked(setup: Pool.Setup, phase: Pool.Phase, thread: Locks.Thread<nat>) {
    match thread
    case Outside => !phase.Holding()
    case Queued(uid, _) => phase.Waiting? && UidOf(setup, phase) == Some(uid)
    case Inside(uid, _) => phase.Holding() && UidOf(setup, phase) == Some(uid)
    case Leaving(_, _) => !phase.Holding()
  }

  predicate AllLinked(setup: Pool.Setup, s: Locked) {
    && |s.locks.threads| == |s.pool.workers|
    && forall w :: 0 <= w < |s.pool.workers| ==> Linked(setup, s.pool.workers[w], s.locks.threads[w])
  }

  ghost predicate Invariant(setup: Pool.Setup, s: Locked) {
    Pool.Invariant(setup, s.pool) && Locks.Invariant(s.locks) && AllLinked(setup, s)
  }

  /** Whoever can take the mutex of a user finds no attempt for that user under way. */
  lemma LockMeansFree(setup: Pool.Setup, s: Locked, w: nat)
    requires Invariant(setup, s) && Enabled(setup, s, Work(Pool.Acquire(w)))
    ensures Pool.Enabled(setup, s.pool, Pool.Acquire(w))
  {
    hide Pool.Invariant;
    var uid := UidOf(setup, s.pool.workers[w]).value;
    assert Linked(setup, s.pool.workers[w], s.locks.threads[w]);
    forall v | 0 <= v < |s.pool.workers| ensures !Pool.HoldsUser(setup, s.pool.workers[v], uid) {
      assert Linked(setup, s.pool.workers[v], s.locks.threads[v]);
    }
  }

  lemma WorkIsPoolStep(setup: Pool.Setup, s: Locked, step: Pool.Action)
    requires Invariant(setup, s) && Enabled(setup, s, Work(step))
    ensures Pool.Enabled(setup, s.pool, step) && |s.pool.progress| == |setup.jobs|
    ensures s.pool.workers[step.w].Holding() ==> s.pool.workers[step.w].job < |setup.jobs|
  {
    if step.Acquire? {
      LockMeansFree(setup, s, step.w);
    }
  }

  /** The step of the locks that goes with a step, if any. */
  function LockStep(setup: Pool.Setup, s: Locked, a: Action): Option<Locks.Action<nat>>
    requires Enabled(setup, s, a)
  {
    match a
    case Enter(w, created) => Some(Locks.Register(w, UidOf(setup, s.pool.workers[w]).value, created))
    case Leave(w) => Some(Locks.Deregister(w))
    case Work(step) =>
      match step
      case Acquire(w) => Some(Locks.Acquire(w))
      case Release(w) => Some(Locks.Release(w))
      case _ => None
  }

  ghost function Next(setup: Pool.Setup, s: Locked, a: Action): Locked
    requires Invariant(setup, s) && Enabled(setup, s, a)
  {
    var locks := match LockStep(setup, s, a) case None => s.locks case Some(l) => Locks.Next(s.locks, l);
    match a
    case Work(step) =>
      WorkIsPoolStep(setup, s, step);
      Locked(Pool.Next(setup, s.pool, step), locks)
    case _ => Locked(s.pool, locks)
  }

  function Initial(setup: Pool.Setup, workers: nat): Locked {
    Locked(Pool.Initial(setup, workers), Locks.Start<nat>(workers))
  }

  lemma InitialInvariant(setup: Pool.Setup, workers: nat)
    ensures Invariant(setup, Initial(setup, workers))
  {
    Pool.InitialInvariant(setup, workers);
    Locks.StartInvariant<nat>(workers);
  }

  lemma StepKeeps(setup: Pool.Setup, s: Locked, a: Action)
    requires Invariant(setup, s) && Enabled(setup, s, a)
    ensures Invariant(setup, Next(setup, s, a))
  {
    hide Pool.Invariant, Locks.Invariant, Pool.Next, Locks.Next, AllLinked;
    if a.Work? {
      WorkIsPoolStep(setup, s, a.a);
      Pool.StepKeeps(setup, s.pool, a.a);
    }
    if LockStep(setup, s, a).Some? {
      LocksKeep(setup, s, a);
    }
    LinksKept(setup, s, a);
  }

  lemma LocksKeep(setup: Pool.Setup, s: Locked, a: Action)
    requires Locks.Invariant(s.locks) && Enabled(setup, s, a) && LockStep(setup, s, a).Some?
    ensures Locks.Enabled(s.locks, LockStep(setup, s, a).value)
    ensures Locks.Invariant(Locks.Next(s.locks, LockStep(setup, s, a).value))
  {
    Locks.CountedKept(s.locks, LockStep(setup, s, a).value);
    Locks.HeldKept(s.locks, LockStep(setup, s, a).value);
  }

  lemma InsideStays(setup: Pool.Setup, s: Locked, step: Pool.Action)
    requires Invariant(setup, s) && Enabled(setup, s, Work(step))
    requires s.pool.workers[step.w].Holding() && !step.Release?
    ensures var s' := Next(setup, s, Work(step));
            && |s'.pool.workers| == |s.pool.workers|
            && s'.pool.workers[step.w].Holding() && s'.pool.workers[step.w].job == s.pool.workers[step.w].job
  {
    hide Pool.Act, Pool.Rest, Locks.Invariant;
    var j := s.pool.workers[step.w].job;
    WorkIsPoolStep(setup, s, step);
    Pool.ActKeepsRest(setup, s.pool, step, Pool.EnvOf(setup, s.pool, j), setup.jobs[j].msg.id);
  }

  lemma LinksKept(setup: Pool.Setup, s: Locked, a: Action)
    requires Invariant(setup, s) && Enabled(setup, s, a)
    ensures AllLinked(setup, Next(setup, s, a))
  {
    hide Pool.Invariant, Locks.Invariant, Pool.Act;
    var s' := Next(setup, s, a);
    if a.Work? && a.a.w < |s.pool.workers| && s.pool.workers[a.a.w].Holding() && !a.a.Release? {
      InsideStays(setup, s, a.a);
    }
    forall w | 0 <= w < |s'.pool.workers| ensures Linked(setup, s'.pool.workers[w], s'.locks.threads[w]) {
      assert Linked(setup, s.pool.workers[w], s.locks.threads[w]);
    }
  }

  /** The state after one interleaving, if each step was possible when its turn came. */
  ghost function After(setup: Pool.Setup, workers: nat, actions: seq<Action>): (r: Option<Locked>)
    ensures r.Some? ==> Invariant(setup, r.value)
  {
    if actions == [] then
      InitialInvariant(setup, workers);
      Some(Initial(setup, workers))
    else
      var a := actions[|actions| - 1];
      match After(setup, workers, actions[..|actions| - 1])
      case None => None
      case Some(s) =>
        if Enabled(setup, s, a) then
          StepKeeps(setup, s, a);
          Some(Next(setup, s, a))
        else None
  }

  /** The steps of the pool among these. */
  function PoolSteps(actions: seq<Action>): seq<Pool.Action> {
    if actions == [] then []
    else
      var a := actions[|actions| - 1];
      PoolSteps(actions[..|actions| - 1]) + if a.Work? then [a.a] else []
  }

  /** With the lock as it is, the pool makes no step that it could not make if attempts for one user
      never overlapped; the guard of `WorkerPool` is what the lock provides. */
  lemma {:induction false} RunsAsPool(setup: Pool.Setup, workers: nat, actions: seq<Action>, s: Locked)
    requires After(setup, workers, actions) == Some(s)
    ensures Pool.Reached(setup, workers, PoolSteps(actions), s.pool)
  {
    hide Invariant, Pool.Next, Pool.Invariant, Pool.Enabled, Enabled;
    if actions == [] {
    } else {
      var init, a := actions[..|actions| - 1], actions[|actions| - 1];
      var before := After(setup, workers, init).value;
      RunsAsPool(setup, workers, init, before);
      if a.Work? {
        WorkIsPoolStep(setup, before, a.a);
        var steps := PoolSteps(actions);
        assert steps[..|steps| - 1] == PoolSteps(init) && steps[|steps| - 1] == a.a;
        assert s.pool == Pool.Next(setup, before.pool, a.a);
      } else {
        assert PoolSteps(actions) == PoolSteps(init);
      }
    }
  }

  /** In every interleaving of any number of workers, with all steps of the lock among them, a pool
      that has come to rest has made whole attempts at its messages one at a time. */
  lemma LockedPoolIsSerialised(setup: Pool.Setup, workers: nat, actions: seq<Action>, s: Locked)
    requires After(setup, workers, actions) == Some(s) && Pool.AtRest(setup, s.pool)
    ensures Serialised(setup.rules, setup.jobs, setup.st, s.pool.st)
  {
    RunsAsPool(setup, workers, actions, s);
    Pool.PoolIsSerialised(setup, workers, PoolSteps(actions), s.pool);
  }

  /** Nor does the lock ever hold the pool up: until it is at rest, a pool with a worker can take a
      step. */
  lemma LockedNotStuck(setup: Pool.Setup, workers: nat, actions: seq<Action>, s: Locked) returns (a: Action)
    requires After(setup, workers, actions) == Some(s) && !Pool.AtRest(setup, s.pool) && |s.pool.workers| >= 1
    ensures Enabled(setup, s, a)
  {
    hide Pool.Invariant, After, Pool.AtRest;
    var threads := s.locks.threads;
    WellFormed(setup, s);
    assert forall w :: 0 <= w < |threads| ==> Linked(setup, s.pool.workers[w], threads[w]);
    if w: nat :| w < |threads| && s.pool.workers[w].Holding() {
      var step := Pool.HolderCanStep(setup, s.pool, w);
      a := Work(step);
    } else if w: nat :| w < |threads| && threads[w].Queued? {
      a := Work(Pool.Acquire(w));
    } else if w: nat :| w < |threads| && threads[w].Leaving? {
      a := Leave(w);
    } else {
      a := OutsideCanStep(setup, s);
    }
  }

  lemma WellFormed(setup: Pool.Setup, s: Locked)
    requires Invariant(setup, s)
    ensures Pool.WellFormed(setup, s.pool)
  {
  }

  lemma OutsideCanStep(setup: Pool.Setup, s: Locked) returns (a: Action)
    requires Pool.WellFormed(setup, s.pool) && !Pool.AtRest(setup, s.pool) && |s.pool.workers| >= 1
    requires |s.locks.threads| == |s.pool.workers| && forall w :: 0 <= w < |s.locks.threads| ==> s.locks.threads[w].Outside?
    requires forall w :: 0 <= w < |s.pool.workers| ==> !s.pool.workers[w].Holding()
    ensures Enabled(setup, s, a)
  {
    if w: nat :| w < |s.pool.workers| && s.pool.workers[w].Waiting? {
      var created := Unused(s.locks.table.refs.Keys);
      a := if setup.jobs[s.pool.workers[w].job].msg.Valid() then Enter(w, created) else Work(Pool.Ignore(w));
    } else {
      assert s.pool.workers[0].Idle?;
      a := Work(Pool.Take(0));
    }
  }

  lemma {:induction false} Unused(used: set<nat>) returns (n: nat)
    ensures forall m :: m in used ==> m < n
    decreases |used|
  {
    if used == {} {
      n := 0;
    } else {
      var m :| m in used;
      var rest := Unused(used - {m});
      n := if rest <= m then m + 1 else rest;
      assert forall k :: k in used ==> k == m || k in used - {m};
    }
  }

  /** From `st` to `now` by some interleaving of some number of workers. */
  ghost predicate Turned(rules: Rules, jobs: seq<Job>, st: State, now: State) {
    exists workers, actions, s ::
      After(Pool.Setup(rules, jobs, st), workers, actions) == Some(s)
      && Pool.AtRest(Pool.Setup(rules, jobs, st), s.pool) && s.pool.st == now
  }

  function Joined(chunks: seq<seq<Job>>): seq<Job> {
    if chunks == [] then [] else Joined(chunks[..|chunks| - 1]) + chunks[|chunks| - 1]
  }

  /** The chunks one after the other, each through the workers or message by message. */
  ghost predicate InChunks(rules: Rules, chunks: seq<seq<Job>>, states: seq<State>) {
    && |states| == |chunks| + 1
    && forall i :: 0 <= i < |chunks| ==>
         || Turned(rules, chunks[i], states[i], states[i + 1])
         || states[i + 1] == InOrder(rules, states[i], chunks[i])
  }

  lemma {:induction false} ChunksAreSerialised(rules: Rules, chunks: seq<seq<Job>>, states: seq<State>)
    requires InChunks(rules, chunks, states)
    ensures Serialised(rules, Joined(chunks), states[0], states[|chunks|])
  {
    hide Turned, Serialised;
    if chunks == [] {
      InOrderIsSerial(rules, states[0], []);
    } else {
      var k := |chunks| - 1;
      assert forall i :: 0 <= i < k ==> chunks[..k][i] == chunks[i];
      ChunksAreSerialised(rules, chunks[..k], states[..k + 1]);
      ChunkIsSerialised(rules, chunks[k], states[k], states[k + 1]);
      SerialisedConcat(rules, Joined(chunks[..k]), chunks[k], states[0], states[k], states[k + 1]);
    }
  }

  lemma ChunkIsSerialised(rules: Rules, jobs: seq<Job>, st: State, now: State)
    requires Turned(rules, jobs, st, now) || now == InOrder(rules, st, jobs)
    ensures Serialised(rules, jobs, st, now)
  {
    hide After, Serialised, Pool.AtRest;
    if Turned(rules, jobs, st, now) {
      var workers, actions, s :| After(Pool.Setup(rules, jobs, st), workers, actions) == Some(s)
        && Pool.AtRest(Pool.Setup(rules, jobs, st), s.pool) && s.pool.st == now;
      LockedPoolIsSerialised(Pool.Setup(rules, jobs, st), workers, actions, s);
    } else {
      InOrderIsSerial(rules, st, jobs);
    }
  }

  /** A repopulation with distinct ids ends, after its cleanup, in one and the same state however its
      messages are cut into chunks, whichever chunks go through the workers, and whatever the
      workers' number and interleaving; the whole list as one chunk is the unary call. */
  lemma RepopulationsEndAlike(rules: Rules, chunks: seq<seq<Job>>, states: seq<State>, env: CleanupEnv)
    requires InChunks(rules, chunks, states) && DistinctIds(Joined(chunks))
    ensures Cleanup(rules.node, states[|chunks|], Ids(Joined(chunks)), env)
         == Repopulate(rules, states[0], Joined(chunks), env)
  {
    hide Cleanup, DistinctIds, Serialised, Turned, InOrder;
    ChunksAreSerialised(rules, chunks, states);
    SerialisedDistinct(rules, Joined(chunks), states[0], states[|chunks|]);
  }
}
