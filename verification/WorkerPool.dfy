/** The worker pool of a bulk repopulation, step by step. Workers take messages from a
    shared queue and apply them with retries; each store access and each backend call is
    its own step, so calls for different users interleave freely. A worker enters an
    attempt only when no other worker is inside one for the same user, which is what the
    per-user lock provides (module `UserLocks`). */
module WorkerPool {
  import opened Model
  import opened Reconcile
  import opened Ledger
  import opened Serial

  datatype Phase =
    | Idle
    | Waiting(job: nat)
    | Reading(job: nat)
    | Revoking(job: nat, plan: Plan, todo: set<Tag>, failed: bool)
    | Granting(job: nat, plan: Plan, todo: set<Tag>, failed: bool)
    | Leaving(job: nat, ok: bool)
  {
    /** Inside an attempt: the user's lock is held. */
    predicate Holding() { !Idle? && !Waiting? }
  }

  /** `log` records the job of each attempt in the order in which locks were acquired. */
  datatype Pool = Pool(st: State, queued: nat, workers: seq<Phase>, progress: seq<Progress>, log: seq<nat>)

  datatype Action =
    | Take(w: nat)
    | Ignore(w: nat)
    | Acquire(w: nat)
    | Read(w: nat)
    | RevokeOne(w: nat, tag: Tag)
    | RevokesDone(w: nat)
    | GrantOne(w: nat, tag: Tag)
    | GrantsDone(w: nat)
    | Release(w: nat)

  /** What every run of one pool shares. */
  datatype Setup = Setup(rules: Rules, jobs: seq<Job>, st: State)

  function Initial(setup: Setup, workers: nat): Pool {
    Pool(setup.st, 0, seq(workers, _ => Idle), Fresh(setup.st, setup.jobs).progress, [])
  }

  predicate HoldsUser(setup: Setup, phase: Phase, uid: Uid) {
    phase.Holding() && phase.job < |setup.jobs| && setup.jobs[phase.job].msg.id == uid
  }

  predicate Free(setup: Setup, p: Pool, uid: Uid) {
    forall w :: 0 <= w < |p.workers| ==> !HoldsUser(setup, p.workers[w], uid)
  }

  predicate Enabled(setup: Setup, p: Pool, a: Action) {
    && a.w < |p.workers|
    && var phase := p.workers[a.w];
       match a
       case Take(_) => phase.Idle? && p.queued < |setup.jobs|
       case Ignore(_) => phase.Waiting? && phase.job < |setup.jobs| && !setup.jobs[phase.job].msg.Valid()
       case Acquire(_) =>
         && phase.Waiting? && phase.job < |setup.jobs|
         && setup.jobs[phase.job].msg.Valid() && Free(setup, p, setup.jobs[phase.job].msg.id)
       case Read(_) => phase.Reading?
       case RevokeOne(_, t) => phase.Revoking? && t in phase.todo
       case RevokesDone(_) => phase.Revoking? && phase.todo == {}
       case GrantOne(_, t) => phase.Granting? && t in phase.todo
       case GrantsDone(_) => phase.Granting? && phase.todo == {}
       case Release(_) => phase.Leaving?
  }

  /** A call for a tag without a backend is skipped. */
  predicate Fails(node: Node, tag: Tag, call: Tag -> Outcome) {
    tag in node.covered && call(tag) != Done
  }

  predicate TakesEffect(node: Node, tag: Tag, call: Tag -> Outcome) {
    tag in node.covered && call(tag) != FailedUntouched
  }

  /** The worker's new phase and the new store and memberships. */
  function Act(setup: Setup, p: Pool, a: Action, env: Env): (Phase, State)
    requires Enabled(setup, p, a) && p.workers[a.w].Holding() && p.workers[a.w].job < |setup.jobs|
  {
    var phase, st, node := p.workers[a.w], p.st, setup.rules.node;
    var msg := setup.jobs[phase.job].msg;
    match a
    case Read(_) =>
      var plan := PlanFor(node, Get(st, msg.id).stored, msg, setup.rules.force);
      (Revoking(phase.job, plan, plan.revoke, false), st)
    case RevokeOne(_, t) =>
      var revoked := if TakesEffect(node, t, env.remove) then {Member(msg.id, Grant(t, phase.plan.name))} else {};
      (Revoking(phase.job, phase.plan, phase.todo - {t}, phase.failed || Fails(node, t, env.remove)),
       st.(members := st.members - revoked))
    case RevokesDone(_) =>
      (if phase.failed then Leaving(phase.job, false)
       else Granting(phase.job, phase.plan, phase.plan.grant, false), st)
    case GrantOne(_, t) =>
      var granted := if TakesEffect(node, t, env.add) then {Member(msg.id, Grant(t, phase.plan.name))} else {};
      (Granting(phase.job, phase.plan, phase.todo - {t}, phase.failed || Fails(node, t, env.add)),
       st.(members := st.members + granted))
    case GrantsDone(_) =>
      if phase.failed then (Leaving(phase.job, false), st)
      else
        (Leaving(phase.job, true),
         st.(users := if phase.plan.after.Some? then st.users[msg.id := phase.plan.after.value] else st.users - {msg.id}))
    case _ => (phase, st)
  }

  function Next(setup: Setup, p: Pool, a: Action): Pool
    requires Enabled(setup, p, a)
    requires |p.progress| == |setup.jobs|
    requires p.workers[a.w].Holding() ==> p.workers[a.w].job < |setup.jobs|
  {
    var phase := p.workers[a.w];
    match a
    case Take(w) => p.(queued := p.queued + 1, workers := p.workers[w := Waiting(p.queued)])
    case Ignore(w) =>
      p.(workers := p.workers[w := Idle], log := p.log + [phase.job],
         progress := p.progress[phase.job := Progress(p.progress[phase.job].tries + 1, true)])
    case Acquire(w) =>
      p.(workers := p.workers[w := Reading(phase.job)], log := p.log + [phase.job])
    case Release(w) =>
      var tries := p.progress[phase.job].tries + 1;
      var through := Through(setup.rules, setup.jobs[phase.job], tries, phase.ok);
      p.(workers := p.workers[w := if through then Idle else Waiting(phase.job)],
         progress := p.progress[phase.job := Progress(tries, through)])
    case _ =>
      var (phase', st') := Act(setup, p, a, EnvOf(setup, p, phase.job));
      p.(st := st', workers := p.workers[a.w := phase'])
  }

  function EnvOf(setup: Setup, p: Pool, j: nat): Env
    requires j < |p.progress| == |setup.jobs|
  {
    setup.jobs[j].env(p.progress[j].tries + 1)
  }

  /** What the rest of an attempt in this phase will do to its user, left to itself. */
  function Rest(rules: Rules, phase: Phase, s: Slice, msg: UserData, env: Env): (Slice, bool)
    requires phase.Holding()
  {
    match phase
    case Reading(_) => Attempt(rules.node, s, msg, rules.force, env)
    case Revoking(_, plan, todo, failed) =>
      var s' := s.(on := s.on - Grants(rules.node, plan.name, Effective(todo, env.remove)));
      if failed || !AllDone(rules.node, todo, env.remove) then (s', false)
      else RunGrants(rules.node, s', plan, env)
    case Granting(_, plan, todo, failed) =>
      var on := s.on + Grants(rules.node, plan.name, Effective(todo, env.add));
      if failed || !AllDone(rules.node, todo, env.add) then (Slice(s.stored, on), false)
      else (Slice(plan.after, on), true)
    case Leaving(_, ok) => (s, ok)
  }

  /** The state in which every attempt begun so far has run to its end at once. */
  function Ahead(setup: Setup, p: Pool): Serial {
    Run(setup.rules, setup.jobs, setup.st, p.log)
  }

  predicate WellFormed(setup: Setup, p: Pool) {
    && |p.progress| == |setup.jobs| && p.queued <= |setup.jobs|
    && (forall w :: 0 <= w < |p.workers| && !p.workers[w].Idle? ==>
          p.workers[w].job < p.queued && !p.progress[p.workers[w].job].finished)
    && (forall w, v :: 0 <= w < v < |p.workers| && !p.workers[w].Idle? && !p.workers[v].Idle? ==>
          p.workers[w].job != p.workers[v].job)
    && (forall j :: p.queued <= j < |setup.jobs| ==> !p.progress[j].finished)
    && (forall w :: 0 <= w < |p.workers| && p.workers[w].Holding() ==> setup.jobs[p.workers[w].job].msg.Valid())
  }

  /** Every job taken from the queue is either through or in some worker's hands. */
  predicate InHand(p: Pool, j: nat) {
    exists w :: 0 <= w < |p.workers| && !p.workers[w].Idle? && p.workers[w].job == j
  }

  predicate NoneLost(p: Pool) {
    forall j :: 0 <= j < p.queued && j < |p.progress| && !p.progress[j].finished ==> InHand(p, j)
  }

  /** At most one attempt per user at a time. */
  predicate Exclusive(setup: Setup, p: Pool)
    requires WellFormed(setup, p)
  {
    forall w, v :: 0 <= w < v < |p.workers| && p.workers[w].Holding() && p.workers[v].Holding() ==>
      setup.jobs[p.workers[w].job].msg.id != setup.jobs[p.workers[v].job].msg.id
  }

  predicate HeldJob(p: Pool, j: nat) {
    exists w :: 0 <= w < |p.workers| && p.workers[w].Holding() && p.workers[w].job == j
  }

  /** What each worker that is inside an attempt has left to do to its user. */
  function RestOf(setup: Setup, p: Pool): nat -> (Slice, bool) {
    (w: nat) =>
      if w < |p.workers| && p.workers[w].Holding() && p.workers[w].job < |setup.jobs| == |p.progress| then
        var j := p.workers[w].job;
        Rest(setup.rules, p.workers[w], Get(p.st, setup.jobs[j].msg.id), setup.jobs[j].msg, EnvOf(setup, p, j))
      else (Slice(None, {}), false)
  }

  predicate Shape(setup: Setup, p: Pool) {
    WellFormed(setup, p) && NoneLost(p) && Exclusive(setup, p)
  }

  /** The pool against a serial run `ahead` of it: the rest of each attempt inside, given as
      `rest`, will bring its user and its job to where `ahead` is; all others are there. */
  ghost predicate Follows(setup: Setup, p: Pool, ahead: Serial, rest: nat -> (Slice, bool)) {
    && Shape(setup, p)
    && |ahead.progress| == |setup.jobs|
    && (forall w :: 0 <= w < |p.workers| && p.workers[w].Holding() ==> CatchesUp(setup, p, ahead, rest(w), w))
    && (forall uid :: Free(setup, p, uid) ==> Get(p.st, uid) == Get(ahead.st, uid))
    && (forall j :: 0 <= j < |setup.jobs| && !HeldJob(p, j) ==> p.progress[j] == ahead.progress[j])
  }

  predicate CatchesUp(setup: Setup, p: Pool, ahead: Serial, outcome: (Slice, bool), w: nat)
    requires Shape(setup, p) && |ahead.progress| == |setup.jobs|
    requires w < |p.workers| && p.workers[w].Holding()
  {
    var j := p.workers[w].job;
    && outcome.0 == Get(ahead.st, setup.jobs[j].msg.id)
    && ahead.progress[j] == Attempted(setup, p, j, outcome.1)
  }

  /** Job `j`'s progress once the attempt under way has ended with `ok`. */
  function Attempted(setup: Setup, p: Pool, j: nat, ok: bool): Progress
    requires j < |setup.jobs| == |p.progress|
  {
    var tries := p.progress[j].tries + 1;
    Progress(tries, Through(setup.rules, setup.jobs[j], tries, ok))
  }

  ghost predicate Invariant(setup: Setup, p: Pool) {
    Follows(setup, p, Ahead(setup, p), RestOf(setup, p))
  }

  lemma MemberSlice(st: State, uid: Uid, g: Grant)
    ensures g in Get(st, uid).on <==> Member(uid, g) in st.members
  {
  }

  /** A step inside an attempt touches no other user and leaves the attempt's outcome fixed. */
  lemma ActKeepsRest(setup: Setup, p: Pool, a: Action, env: Env, other: Uid)
    requires Enabled(setup, p, a) && p.workers[a.w].Holding() && !a.Release?
    requires p.workers[a.w].job < |setup.jobs| && setup.jobs[p.workers[a.w].job].msg.Valid()
    ensures var (phase', st') := Act(setup, p, a, env);
            var phase, msg := p.workers[a.w], setup.jobs[p.workers[a.w].job].msg;
            && phase'.Holding() && phase'.job == phase.job
            && (other != msg.id ==> Get(st', other) == Get(p.st, other))
            && (Rest(setup.rules, phase', Get(st', msg.id), msg, env)
                == Rest(setup.rules, phase, Get(p.st, msg.id), msg, env))
  {
    var (phase', st') := Act(setup, p, a, env);
    var phase, msg, node := p.workers[a.w], setup.jobs[p.workers[a.w].job].msg, setup.rules.node;
    forall g ensures g in Get(st', other).on <==> Member(other, g) in st'.members
             ensures g in Get(p.st, other).on <==> Member(other, g) in p.st.members
             ensures g in Get(st', msg.id).on <==> Member(msg.id, g) in st'.members
             ensures g in Get(p.st, msg.id).on <==> Member(msg.id, g) in p.st.members
    {
      MemberSlice(st', other, g);
      MemberSlice(p.st, other, g);
      MemberSlice(st', msg.id, g);
      MemberSlice(p.st, msg.id, g);
    }
    if other != msg.id {
      assert Get(st', other).on == Get(p.st, other).on;
    }
    var s, s' := Get(p.st, msg.id), Get(st', msg.id);
    match a
    case RevokeOne(_, t) =>
      RevokeOneRest(node, s, s', phase, t, env);
    case GrantOne(_, t) =>
      GrantOneRest(node, s, s', phase, t, env);
    case GrantsDone(_) =>
      assert Grants(node, phase.plan.name, Effective(phase.todo, env.add)) == {};
      assert s.on + {} == s.on == s'.on;
    case RevokesDone(_) =>
      assert Grants(node, phase.plan.name, Effective(phase.todo, env.remove)) == {};
      assert s.(on := s.on - {}) == s;
    case _ =>
  }

  lemma RevokeOneRest(node: Node, s: Slice, s': Slice, phase: Phase, t: Tag, env: Env)
    requires phase.Revoking? && t in phase.todo
    requires s'.stored == s.stored
    requires s'.on == if TakesEffect(node, t, env.remove) then s.on - {Grant(t, phase.plan.name)} else s.on
    ensures var todo := phase.todo - {t};
            && (s'.on - Grants(node, phase.plan.name, Effective(todo, env.remove))
                == s.on - Grants(node, phase.plan.name, Effective(phase.todo, env.remove)))
            && ((Fails(node, t, env.remove) || !AllDone(node, todo, env.remove))
                <==> !AllDone(node, phase.todo, env.remove))
  {
  }

  lemma GrantOneRest(node: Node, s: Slice, s': Slice, phase: Phase, t: Tag, env: Env)
    requires phase.Granting? && t in phase.todo
    requires s'.stored == s.stored
    requires s'.on == if TakesEffect(node, t, env.add) then s.on + {Grant(t, phase.plan.name)} else s.on
    ensures var todo := phase.todo - {t};
            && (s'.on + Grants(node, phase.plan.name, Effective(todo, env.add))
                == s.on + Grants(node, phase.plan.name, Effective(phase.todo, env.add)))
            && ((Fails(node, t, env.add) || !AllDone(node, todo, env.add))
                <==> !AllDone(node, phase.todo, env.add))
  {
  }

  lemma InitialInvariant(setup: Setup, workers: nat)
    ensures Invariant(setup, Initial(setup, workers))
  {
  }

  /** From `p` to `p'`, no worker but `w` changed. */
  predicate Only(p: Pool, p': Pool, w: nat) {
    && |p'.workers| == |p.workers| && w < |p.workers|
    && forall v :: 0 <= v < |p.workers| && v != w ==> p'.workers[v] == p.workers[v]
  }

  lemma FreeBefore(setup: Setup, p: Pool, p': Pool, w: nat, uid: Uid)
    requires Only(p, p', w) && Free(setup, p', uid)
    requires HoldsUser(setup, p.workers[w], uid) ==> HoldsUser(setup, p'.workers[w], uid)
    ensures Free(setup, p, uid)
  {
  }

  lemma UnheldBefore(p: Pool, p': Pool, w: nat, j: nat)
    requires Only(p, p', w)
    requires p.workers[w].Holding() && p.workers[w].job == j ==> p'.workers[w].Holding() && p'.workers[w].job == j
    ensures HeldJob(p, j) ==> HeldJob(p', j)
  {
  }

  /** When worker `w` alone changes and drops its job only when through, no job is lost. */
  lemma NoneLostAfter(p: Pool, p': Pool, w: nat)
    requires NoneLost(p) && Only(p, p', w) && !p.workers[w].Idle?
    requires p'.queued == p.queued && |p'.progress| == |p.progress|
    requires forall k :: 0 <= k < |p.progress| && k != p.workers[w].job ==> p'.progress[k] == p.progress[k]
    requires p.workers[w].job < |p.progress|
    requires !p'.progress[p.workers[w].job].finished ==>
               !p'.workers[w].Idle? && p'.workers[w].job == p.workers[w].job
    ensures NoneLost(p')
  {
  }

  lemma TakeShape(setup: Setup, p: Pool, p': Pool, w: nat)
    requires Shape(setup, p) && Only(p, p', w)
    requires p.workers[w].Idle? && p.queued < |setup.jobs| && p'.workers[w] == Waiting(p.queued)
    requires p' == p.(queued := p.queued + 1, workers := p'.workers)
    ensures Shape(setup, p')
  {
  }

  lemma TakeKeeps(setup: Setup, p: Pool, p': Pool, w: nat, ahead: Serial, rest: nat -> (Slice, bool), rest': nat -> (Slice, bool))
    requires Follows(setup, p, ahead, rest) && Only(p, p', w)
    requires p.workers[w].Idle? && p.queued < |setup.jobs| && p'.workers[w] == Waiting(p.queued)
    requires p' == p.(queued := p.queued + 1, workers := p'.workers)
    requires forall v :: 0 <= v < |p.workers| && p.workers[v].Holding() ==> rest'(v) == rest(v)
    ensures Follows(setup, p', ahead, rest')
  {
    TakeShape(setup, p, p', w);
    forall v | 0 <= v < |p'.workers| && p'.workers[v].Holding() ensures CatchesUp(setup, p', ahead, rest'(v), v) {
      assert CatchesUp(setup, p, ahead, rest(v), v);
    }
    forall uid | Free(setup, p', uid) ensures Get(p'.st, uid) == Get(ahead.st, uid) {
      FreeBefore(setup, p, p', w, uid);
    }
    forall j | 0 <= j < |setup.jobs| && !HeldJob(p', j) ensures p'.progress[j] == ahead.progress[j] {
      UnheldBefore(p, p', w, j);
    }
  }

  lemma IgnoreShape(setup: Setup, p: Pool, p': Pool, w: nat)
    requires Shape(setup, p) && Only(p, p', w) && p.workers[w].Waiting? && p'.workers[w].Idle?
    requires var j := p.workers[w].job;
             p' == p.(workers := p'.workers, log := p'.log,
                      progress := p.progress[j := Progress(p.progress[j].tries + 1, true)])
    ensures Shape(setup, p')
  {
  }

  lemma IgnoreKeeps(setup: Setup, p: Pool, p': Pool, w: nat, ahead: Serial, ahead': Serial, rest: nat -> (Slice, bool), rest': nat -> (Slice, bool))
    requires Follows(setup, p, ahead, rest) && Only(p, p', w) && p.workers[w].Waiting? && p'.workers[w].Idle?
    requires var j := p.workers[w].job;
             && p' == p.(workers := p'.workers, log := p'.log,
                         progress := p.progress[j := Progress(p.progress[j].tries + 1, true)])
             && ahead'.progress == ahead.progress[j := Progress(ahead.progress[j].tries + 1, true)]
    requires forall uid :: Get(ahead'.st, uid) == Get(ahead.st, uid)
    requires forall v :: 0 <= v < |p.workers| && p.workers[v].Holding() ==> rest'(v) == rest(v)
    ensures Follows(setup, p', ahead', rest')
  {
    var j := p.workers[w].job;
    IgnoreShape(setup, p, p', w);
    assert !HeldJob(p, j);
    forall v | 0 <= v < |p'.workers| && p'.workers[v].Holding() ensures CatchesUp(setup, p', ahead', rest'(v), v) {
      assert CatchesUp(setup, p, ahead, rest(v), v);
    }
    forall uid | Free(setup, p', uid) ensures Get(p'.st, uid) == Get(ahead'.st, uid) {
      FreeBefore(setup, p, p', w, uid);
    }
    forall k | 0 <= k < |setup.jobs| && !HeldJob(p', k) ensures p'.progress[k] == ahead'.progress[k] {
      UnheldBefore(p, p', w, k);
    }
  }

  lemma AcquireShape(setup: Setup, p: Pool, p': Pool, w: nat)
    requires Shape(setup, p) && Only(p, p', w) && p.workers[w].Waiting?
    requires var j := p.workers[w].job;
             && setup.jobs[j].msg.Valid() && Free(setup, p, setup.jobs[j].msg.id)
             && p'.workers[w] == Reading(j) && p' == p.(workers := p'.workers, log := p'.log)
    ensures Shape(setup, p')
    ensures forall v :: 0 <= v < |p.workers| && v != w && p.workers[v].Holding() ==>
              setup.jobs[p.workers[v].job].msg.id != setup.jobs[p.workers[w].job].msg.id
  {
  }

  lemma AcquireKeeps(setup: Setup, p: Pool, p': Pool, w: nat, ahead: Serial, ahead': Serial, rest: nat -> (Slice, bool), rest': nat -> (Slice, bool))
    requires Follows(setup, p, ahead, rest) && Only(p, p', w) && p.workers[w].Waiting?
    requires var j := p.workers[w].job;
             && setup.jobs[j].msg.Valid() && Free(setup, p, setup.jobs[j].msg.id)
             && p'.workers[w] == Reading(j)
             && p' == p.(workers := p'.workers, log := p'.log)
             && ahead'.progress == ahead.progress[j := Attempted(setup, p, j, rest'(w).1)]
             && forall uid :: Get(ahead'.st, uid) == if uid == setup.jobs[j].msg.id then rest'(w).0 else Get(ahead.st, uid)
    requires forall v :: 0 <= v < |p.workers| && p.workers[v].Holding() ==> rest'(v) == rest(v)
    ensures Follows(setup, p', ahead', rest')
  {
    var j := p.workers[w].job;
    AcquireShape(setup, p, p', w);
    forall v | 0 <= v < |p'.workers| && p'.workers[v].Holding() ensures CatchesUp(setup, p', ahead', rest'(v), v) {
      if v != w {
        assert CatchesUp(setup, p, ahead, rest(v), v);
      }
    }
    forall u | Free(setup, p', u) ensures Get(p'.st, u) == Get(ahead'.st, u) {
      assert !HoldsUser(setup, p'.workers[w], u);
      FreeBefore(setup, p, p', w, u);
    }
    forall k | 0 <= k < |setup.jobs| && !HeldJob(p', k) ensures p'.progress[k] == ahead'.progress[k] {
      assert p'.workers[w].Holding() && p'.workers[w].job == j;
      UnheldBefore(p, p', w, k);
    }
  }

  lemma ReleaseShape(setup: Setup, p: Pool, p': Pool, w: nat)
    requires Shape(setup, p) && Only(p, p', w) && p.workers[w].Leaving?
    requires var j := p.workers[w].job;
             var done := Attempted(setup, p, j, p.workers[w].ok);
             && p'.workers[w] == (if done.finished then Idle else Waiting(j))
             && p' == p.(workers := p'.workers, progress := p.progress[j := done])
    ensures Shape(setup, p')
    ensures forall v :: 0 <= v < |p.workers| && v != w && p.workers[v].Holding() ==>
              && p.workers[v].job != p.workers[w].job
              && setup.jobs[p.workers[v].job].msg.id != setup.jobs[p.workers[w].job].msg.id
  {
  }

  lemma ReleaseKeeps(setup: Setup, p: Pool, p': Pool, w: nat, ahead: Serial, rest: nat -> (Slice, bool), rest': nat -> (Slice, bool))
    requires Follows(setup, p, ahead, rest) && Only(p, p', w) && p.workers[w].Leaving?
    requires var j := p.workers[w].job;
             var done := Attempted(setup, p, j, p.workers[w].ok);
             && rest(w) == (Get(p.st, setup.jobs[j].msg.id), p.workers[w].ok)
             && p'.workers[w] == (if done.finished then Idle else Waiting(j))
             && p' == p.(workers := p'.workers, progress := p.progress[j := done])
    requires forall v :: 0 <= v < |p.workers| && v != w && p.workers[v].Holding() ==> rest'(v) == rest(v)
    ensures Follows(setup, p', ahead, rest')
  {
    var j := p.workers[w].job;
    assert CatchesUp(setup, p, ahead, rest(w), w);
    ReleaseShape(setup, p, p', w);
    forall v | 0 <= v < |p'.workers| && p'.workers[v].Holding() ensures CatchesUp(setup, p', ahead, rest'(v), v) {
      assert CatchesUp(setup, p, ahead, rest(v), v);
    }
    forall u | Free(setup, p', u) ensures Get(p'.st, u) == Get(ahead.st, u) {
      if u != setup.jobs[j].msg.id {
        FreeBefore(setup, p, p', w, u);
      }
    }
    forall k | 0 <= k < |setup.jobs| && !HeldJob(p', k) ensures p'.progress[k] == ahead.progress[k] {
      if k != j {
        UnheldBefore(p, p', w, k);
      }
    }
  }

  lemma InsideKeeps(setup: Setup, p: Pool, p': Pool, w: nat, ahead: Serial, rest: nat -> (Slice, bool), rest': nat -> (Slice, bool))
    requires Follows(setup, p, ahead, rest) && Only(p, p', w) && p.workers[w].Holding()
    requires p' == p.(workers := p'.workers, st := p'.st)
    requires p'.workers[w].Holding() && p'.workers[w].job == p.workers[w].job
    requires forall u :: u != setup.jobs[p.workers[w].job].msg.id ==> Get(p'.st, u) == Get(p.st, u)
    requires forall v :: 0 <= v < |p.workers| && p.workers[v].Holding() ==> rest'(v) == rest(v)
    ensures Follows(setup, p', ahead, rest')
  {
    NoneLostAfter(p, p', w);
    assert Shape(setup, p');
    forall v | 0 <= v < |p'.workers| && p'.workers[v].Holding() ensures CatchesUp(setup, p', ahead, rest'(v), v) {
      assert CatchesUp(setup, p, ahead, rest(v), v);
    }
    forall u | Free(setup, p', u) ensures Get(p'.st, u) == Get(ahead.st, u) {
      assert !HoldsUser(setup, p'.workers[w], u);
      FreeBefore(setup, p, p', w, u);
    }
    forall k | 0 <= k < |setup.jobs| && !HeldJob(p', k) ensures p'.progress[k] == ahead.progress[k] {
      UnheldBefore(p, p', w, k);
    }
  }

  lemma LogExtends(setup: Setup, p: Pool, p': Pool, j: nat)
    requires p'.log == p.log + [j] && j < |setup.jobs| && CanTry(Ahead(setup, p), j)
    ensures Ahead(setup, p') == Try(setup.rules, setup.jobs, Ahead(setup, p), j)
  {
  }

  lemma IgnoreAhead(setup: Setup, p: Pool, a: Action, uid: Uid)
    requires Invariant(setup, p) && Enabled(setup, p, a) && a.Ignore?
    ensures var p', j, ahead := Next(setup, p, a), p.workers[a.w].job, Ahead(setup, p);
            && Ahead(setup, p').progress == ahead.progress[j := Progress(ahead.progress[j].tries + 1, true)]
            && Get(Ahead(setup, p').st, uid) == Get(ahead.st, uid)
  {
    hide Attempt, Get, Put;
    var j := p.workers[a.w].job;
    IgnoreReady(setup, p, a);
    LogExtends(setup, p, Next(setup, p, a), j);
    TryOthers(setup.rules, setup.jobs, Ahead(setup, p), j, uid);
    InvalidSucceeds(setup.rules, Get(Ahead(setup, p).st, setup.jobs[j].msg.id), setup.jobs[j], Ahead(setup, p).progress[j].tries + 1);
  }

  lemma IgnoreReady(setup: Setup, p: Pool, a: Action)
    requires Invariant(setup, p) && Enabled(setup, p, a) && a.Ignore?
    ensures CanTry(Ahead(setup, p), p.workers[a.w].job)
  {
    hide Rest, RestOf, Run;
    assert !HeldJob(p, p.workers[a.w].job);
  }

  lemma InvalidSucceeds(rules: Rules, s: Slice, job: Job, n: nat)
    requires !job.msg.Valid()
    ensures Attempt(rules.node, s, job.msg, rules.force, job.env(n)).1
  {
  }

  lemma RestUnchanged(setup: Setup, p: Pool, p': Pool, v: nat)
    requires v < |p.workers| == |p'.workers| && p.workers[v].Holding() && p.workers[v].job < |p.progress| == |p'.progress|
    requires p'.workers[v] == p.workers[v] && p'.st == p.st
    requires p'.progress[p.workers[v].job] == p.progress[p.workers[v].job]
    ensures RestOf(setup, p')(v) == RestOf(setup, p)(v)
  {
  }

  lemma IgnoreStep(setup: Setup, p: Pool, a: Action)
    requires Invariant(setup, p) && Enabled(setup, p, a) && a.Ignore?
    ensures Invariant(setup, Next(setup, p, a))
  {
    hide Attempt, Get, RestOf, Ahead;
    var p', ahead := Next(setup, p, a), Ahead(setup, p);
    forall uid ensures Get(Ahead(setup, p').st, uid) == Get(ahead.st, uid) {
      IgnoreAhead(setup, p, a, uid);
    }
    IgnoreAhead(setup, p, a, 0);
    forall v | 0 <= v < |p.workers| && p.workers[v].Holding() ensures RestOf(setup, p')(v) == RestOf(setup, p)(v) {
      RestUnchanged(setup, p, p', v);
    }
    IgnoreKeeps(setup, p, p', a.w, ahead, Ahead(setup, p'), RestOf(setup, p), RestOf(setup, p'));
  }

  lemma AcquireReady(setup: Setup, p: Pool, a: Action)
    requires Invariant(setup, p) && Enabled(setup, p, a) && a.Acquire?
    ensures var j := p.workers[a.w].job;
            && CanTry(Ahead(setup, p), j) && Ahead(setup, p).progress[j] == p.progress[j]
            && Get(p.st, setup.jobs[j].msg.id) == Get(Ahead(setup, p).st, setup.jobs[j].msg.id)
  {
  }

  lemma AcquireRest(setup: Setup, p: Pool, a: Action)
    requires Shape(setup, p) && Enabled(setup, p, a) && a.Acquire?
    ensures var j := p.workers[a.w].job;
            var msg := setup.jobs[j].msg;
            RestOf(setup, Next(setup, p, a))(a.w)
              == Attempt(setup.rules.node, Get(p.st, msg.id), msg, setup.rules.force, EnvOf(setup, p, j))
  {
  }

  /** Entering an attempt sends the serial run through the whole of it. */
  lemma AcquireAhead(setup: Setup, p: Pool, a: Action, uid: Uid)
    requires Invariant(setup, p) && Enabled(setup, p, a) && a.Acquire?
    ensures var p', j := Next(setup, p, a), p.workers[a.w].job;
            var (s, ok) := RestOf(setup, p')(a.w);
            && Ahead(setup, p').progress == Ahead(setup, p).progress[j := Attempted(setup, p, j, ok)]
            && Get(Ahead(setup, p').st, uid) == if uid == setup.jobs[j].msg.id then s else Get(Ahead(setup, p).st, uid)
  {
    hide Attempt, Rest, Get;
    AcquireReady(setup, p, a);
    AcquireRest(setup, p, a);
    LogExtends(setup, p, Next(setup, p, a), p.workers[a.w].job);
    TryOthers(setup.rules, setup.jobs, Ahead(setup, p), p.workers[a.w].job, uid);
  }

  lemma AcquireStep(setup: Setup, p: Pool, a: Action)
    requires Invariant(setup, p) && Enabled(setup, p, a) && a.Acquire?
    ensures Invariant(setup, Next(setup, p, a))
  {
    hide Attempt, Get, RestOf, Ahead;
    var p', j, ahead := Next(setup, p, a), p.workers[a.w].job, Ahead(setup, p);
    forall uid ensures Get(Ahead(setup, p').st, uid)
        == if uid == setup.jobs[j].msg.id then RestOf(setup, p')(a.w).0 else Get(ahead.st, uid) {
      AcquireAhead(setup, p, a, uid);
    }
    AcquireAhead(setup, p, a, 0);
    forall v | 0 <= v < |p.workers| && p.workers[v].Holding() ensures RestOf(setup, p')(v) == RestOf(setup, p)(v) {
      RestUnchanged(setup, p, p', v);
    }
    AcquireKeeps(setup, p, p', a.w, ahead, Ahead(setup, p'), RestOf(setup, p), RestOf(setup, p'));
  }

  lemma ReleaseStep(setup: Setup, p: Pool, a: Action)
    requires Invariant(setup, p) && Enabled(setup, p, a) && a.Release?
    ensures Invariant(setup, Next(setup, p, a))
  {
    hide Attempt, Get, Run;
    var p' := Next(setup, p, a);
    ReleaseShape(setup, p, p', a.w);
    forall v | 0 <= v < |p.workers| && v != a.w && p.workers[v].Holding()
      ensures RestOf(setup, p')(v) == RestOf(setup, p)(v)
    {
      RestUnchanged(setup, p, p', v);
    }
    ReleaseKeeps(setup, p, p', a.w, Ahead(setup, p), RestOf(setup, p), RestOf(setup, p'));
  }

  lemma InsideRest(setup: Setup, p: Pool, a: Action, v: nat)
    requires Shape(setup, p) && Enabled(setup, p, a)
    requires a.Read? || a.RevokeOne? || a.RevokesDone? || a.GrantOne? || a.GrantsDone?
    requires v < |p.workers| && p.workers[v].Holding()
    ensures RestOf(setup, Next(setup, p, a))(v) == RestOf(setup, p)(v)
  {
    hide Act, Rest, Get;
    var j := p.workers[a.w].job;
    ActKeepsRest(setup, p, a, EnvOf(setup, p, j), setup.jobs[p.workers[v].job].msg.id);
  }

  lemma InsideStep(setup: Setup, p: Pool, a: Action)
    requires Invariant(setup, p) && Enabled(setup, p, a)
    requires a.Read? || a.RevokeOne? || a.RevokesDone? || a.GrantOne? || a.GrantsDone?
    ensures Invariant(setup, Next(setup, p, a))
  {
    hide Act, Rest, Get;
    var p', j, w := Next(setup, p, a), p.workers[a.w].job, a.w;
    forall u | u != setup.jobs[j].msg.id ensures Get(p'.st, u) == Get(p.st, u) {
      ActKeepsRest(setup, p, a, EnvOf(setup, p, j), u);
    }
    forall v | 0 <= v < |p.workers| && p.workers[v].Holding()
      ensures RestOf(setup, p')(v) == RestOf(setup, p)(v)
    {
      InsideRest(setup, p, a, v);
    }
    assert p'.workers[w].Holding() && p'.workers[w].job == j by {
      ActKeepsRest(setup, p, a, EnvOf(setup, p, j), setup.jobs[j].msg.id);
    }
    InsideKeeps(setup, p, p', w, Ahead(setup, p), RestOf(setup, p), RestOf(setup, p'));
  }

  lemma StepKeeps(setup: Setup, p: Pool, a: Action)
    requires Invariant(setup, p) && Enabled(setup, p, a)
    ensures Invariant(setup, Next(setup, p, a))
  {
    match a
    case Take(_) =>
      var p' := Next(setup, p, a);
      TakeKeeps(setup, p, p', a.w, Ahead(setup, p), RestOf(setup, p), RestOf(setup, p'));
    case Ignore(_) => IgnoreStep(setup, p, a);
    case Acquire(_) => AcquireStep(setup, p, a);
    case Release(_) => ReleaseStep(setup, p, a);
    case _ => InsideStep(setup, p, a);
  }

  /** The pool after the steps of one interleaving, if each was possible when its turn came. */
  ghost function After(setup: Setup, workers: nat, actions: seq<Action>): (r: Option<Pool>)
    ensures r.Some? ==> Invariant(setup, r.value)
  {
    if actions == [] then
      InitialInvariant(setup, workers);
      Some(Initial(setup, workers))
    else
      var a := actions[|actions| - 1];
      match After(setup, workers, actions[..|actions| - 1])
      case None => None
      case Some(p) =>
        if Enabled(setup, p, a) then
          StepKeeps(setup, p, a);
          Some(Next(setup, p, a))
        else None
  }

  /** `p` is reached by this interleaving of the steps of `workers` workers. */
  ghost predicate Reached(setup: Setup, workers: nat, actions: seq<Action>, p: Pool) {
    After(setup, workers, actions) == Some(p)
  }

  /** The queue is drained and every worker is back to idle. */
  predicate AtRest(setup: Setup, p: Pool) {
    p.queued == |setup.jobs| && forall w :: 0 <= w < |p.workers| ==> p.workers[w].Idle?
  }

  /** Serialisability: whatever the interleaving and the number of workers, a pool that has
      come to rest has done exactly what running the same attempts one at a time, in the
      order in which their locks were acquired, would do, and has got through every job. */
  lemma PoolIsSerial(setup: Setup, workers: nat, actions: seq<Action>, p: Pool)
    requires Reached(setup, workers, actions, p) && AtRest(setup, p)
    ensures p.st == Run(setup.rules, setup.jobs, setup.st, p.log).st
    ensures AllFinished(Run(setup.rules, setup.jobs, setup.st, p.log))
  {
    forall uid ensures Get(p.st, uid) == Get(Ahead(setup, p).st, uid) {
      assert Free(setup, p, uid);
    }
    SameSlices(p.st, Ahead(setup, p).st);
    forall j | 0 <= j < |setup.jobs| ensures Ahead(setup, p).progress[j].finished {
      assert !InHand(p, j) && !HeldJob(p, j);
    }
  }

  lemma {:induction false} LogNames(setup: Setup, workers: nat, actions: seq<Action>, p: Pool)
    requires After(setup, workers, actions) == Some(p)
    ensures Names(p.log, |setup.jobs|)
  {
    hide Act, Invariant;
    if actions == [] {
    } else {
      LogNames(setup, workers, actions[..|actions| - 1], After(setup, workers, actions[..|actions| - 1]).value);
    }
  }

  /** So the steps of a pool amount to whole attempts at its messages one at a time, and to nothing
      else: what the chunks of a stream are put together from. */
  lemma PoolIsSerialised(setup: Setup, workers: nat, actions: seq<Action>, p: Pool)
    requires Reached(setup, workers, actions, p) && AtRest(setup, p)
    ensures Serialised(setup.rules, setup.jobs, setup.st, p.st)
  {
    hide Invariant, Run, AllFinished;
    PoolIsSerial(setup, workers, actions, p);
    LogNames(setup, workers, actions, p);
    assert Completes(setup.rules, setup.jobs, setup.st, p.log);
  }

  /** With distinct ids the number of workers and the interleaving do not matter: the pool
      ends where applying the messages one by one, in order, ends. */
  lemma PoolIsInOrder(setup: Setup, workers: nat, actions: seq<Action>, p: Pool)
    requires Reached(setup, workers, actions, p) && AtRest(setup, p)
    requires DistinctIds(setup.jobs)
    ensures p.st == InOrder(setup.rules, setup.st, setup.jobs)
  {
    PoolIsSerial(setup, workers, actions, p);
    ScheduleIrrelevant(setup.rules, setup.jobs, setup.st, p.log);
  }

  /** No deadlock: until it is at rest, a pool with at least one worker can take a step. */
  lemma PoolNotStuck(setup: Setup, workers: nat, actions: seq<Action>, p: Pool) returns (a: Action)
    requires Reached(setup, workers, actions, p) && !AtRest(setup, p) && |p.workers| >= 1
    ensures Enabled(setup, p, a)
  {
    if w :| 0 <= w < |p.workers| && p.workers[w].Holding() {
      a := HolderCanStep(setup, p, w);
    } else if w :| 0 <= w < |p.workers| && p.workers[w].Waiting? {
      var j := p.workers[w].job;
      a := if setup.jobs[j].msg.Valid() then Acquire(w) else Ignore(w);
    } else {
      assert p.workers[0].Idle?;
      a := Take(0);
    }
  }

  lemma HolderCanStep(setup: Setup, p: Pool, w: nat) returns (a: Action)
    requires w < |p.workers| && p.workers[w].Holding()
    ensures Enabled(setup, p, a) && a.w == w && !a.Take? && !a.Ignore? && !a.Acquire?
  {
    match p.workers[w]
    case Reading(_) => a := Read(w);
    case Revoking(_, _, todo, _) =>
      if t :| t in todo { a := RevokeOne(w, t); } else { a := RevokesDone(w); }
    case Granting(_, _, todo, _) =>
      if t :| t in todo { a := GrantOne(w, t); } else { a := GrantsDone(w); }
    case Leaving(_, _) => a := Release(w);
  }
}
