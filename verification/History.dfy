/** Runs of the service over any number of attempts and cleanups, under any backend answers
    and while inbounds come and go: what stays true of every stored user. */
module History {
  import opened Model
  import opened Reconcile
  import opened Ledger

  /** One attempt at a message, or the cleanup of one user, with the node as it is then. */
  datatype Op =
    | Try(node: Node, msg: UserData, force: bool, env: Env)
    | Sweep(node: Node, uid: Uid, answers: Tag -> Outcome)
  {
    function Subject(): Uid {
      match this
      case Try(_, msg, _, _) => msg.id
      case Sweep(_, uid, _) => uid
    }
  }

  function Step(st: State, op: Op): State {
    match op
    case Try(node, msg, force, env) => Put(st, msg.id, Attempt(node, Get(st, msg.id), msg, force, env).0)
    case Sweep(node, uid, answers) => Put(st, uid, CleanupSlice(node, Get(st, uid), answers))
  }

  /** The name under which the operation calls the backends, if it calls them at all. */
  function CallName(st: State, op: Op): Option<string> {
    var stored := Get(st, op.Subject()).stored;
    var plan :=
      match op
      case Try(node, msg, force, _) => PlanFor(node, stored, msg, force)
      case Sweep(_, _, _) => if stored.Some? then CleanupPlan(stored.value) else Plan("", {}, {}, None);
    if plan.revoke == plan.grant == {} then None else Some(plan.name)
  }

  const EMPTY: State := State(map[], {})

  /** `states` are the states of a run of `ops` from the empty node. */
  ghost predicate IsRun(ops: seq<Op>, states: seq<State>) {
    && |states| == |ops| + 1 && states[0] == EMPTY
    && (forall i :: 0 <= i < |ops| ==> ops[i].node.Valid() && states[i + 1] == Step(states[i], ops[i]))
  }

  predicate OneInboundPerTag(inbounds: set<Inbound>) {
    forall i, j :: i in inbounds && j in inbounds && i.tag == j.tag ==> i == j
  }

  predicate WellKept(st: State) {
    forall uid :: uid in st.users ==>
      && st.users[uid].id == uid && uid != 0 && st.users[uid].username != ""
      && OneInboundPerTag(st.users[uid].inbounds)
  }

  /** What an operation can do to the entry of a user: leave its id, name and key, drop it,
      or insert it as a valid message names it. */
  lemma StepEntry(st: State, op: Op, uid: Uid)
    requires op.node.Valid() && WellKept(st)
    ensures var before, after := Get(st, uid).stored, Get(Step(st, op), uid).stored;
            && (before.Some? && after.Some? ==>
                  && after.value.id == before.value.id && after.value.username == before.value.username
                  && after.value.key == before.value.key)
            && (before.None? && after.Some? ==>
                  && op.Try? && op.msg.Valid() && op.msg.id == uid == after.value.id
                  && after.value.username == op.msg.username && after.value.key == op.msg.key)
            && (after.Some? ==> OneInboundPerTag(after.value.inbounds))
  {
  }

  /** In every run every stored user has its non-zero id as key, a username, and at most one
      inbound per tag. */
  lemma {:induction false} AlwaysWellKept(ops: seq<Op>, states: seq<State>, k: nat)
    requires IsRun(ops, states) && k < |states|
    ensures WellKept(states[k])
  {
    if k == 0 {
    } else {
      AlwaysWellKept(ops, states, k - 1);
      var st, op := states[k - 1], ops[k - 1];
      forall uid | uid in Step(st, op).users
        ensures var a := Step(st, op).users[uid];
                a.id == uid && uid != 0 && a.username != "" && OneInboundPerTag(a.inbounds)
      {
        StepEntry(st, op, uid);
        assert Get(Step(st, op), uid).stored == Some(Step(st, op).users[uid]);
        if uid in st.users {
          assert Get(st, uid).stored == Some(st.users[uid]);
        }
      }
    }
  }

  predicate StoredThroughout(states: seq<State>, uid: Uid, from: nat, to: nat) {
    from <= to < |states| && forall i :: from <= i <= to ==> uid in states[i].users
  }

  /** A user's name and key are fixed from its insertion until its removal. */
  lemma {:induction false} NameAndKeyFixed(ops: seq<Op>, states: seq<State>, uid: Uid, from: nat, to: nat)
    requires IsRun(ops, states) && StoredThroughout(states, uid, from, to)
    ensures states[to].users[uid].username == states[from].users[uid].username
    ensures states[to].users[uid].key == states[from].users[uid].key
  {
    if from == to {
    } else {
      assert StoredThroughout(states, uid, from, to - 1);
      NameAndKeyFixed(ops, states, uid, from, to - 1);
      AlwaysWellKept(ops, states, to - 1);
      StepEntry(states[to - 1], ops[to - 1], uid);
      assert Get(states[to - 1], uid).stored == Some(states[to - 1].users[uid]);
      assert Get(states[to], uid).stored == Some(states[to].users[uid]);
    }
  }

  /** From the operation that inserted a user up to and including the one that removes it,
      every backend call about that user names it as the inserting message did. */
  lemma CallsNameTheInserted(ops: seq<Op>, states: seq<State>, uid: Uid, inserted: nat, later: nat)
    requires IsRun(ops, states) && inserted < |ops| && uid !in states[inserted].users
    requires later < |ops| && StoredThroughout(states, uid, inserted + 1, later)
    requires ops[later].Subject() == uid
    ensures ops[inserted].Try? && ops[inserted].msg.id == uid
    ensures CallName(states[later], ops[later]).Some? ==>
              CallName(states[later], ops[later]).value == ops[inserted].msg.username
  {
    AlwaysWellKept(ops, states, inserted);
    StepEntry(states[inserted], ops[inserted], uid);
    assert uid in states[inserted + 1].users;
    assert Get(states[inserted + 1], uid).stored == Some(states[inserted + 1].users[uid]);
    NameAndKeyFixed(ops, states, uid, inserted + 1, later);
    assert Get(states[later], uid).stored == Some(states[later].users[uid]);
  }

  /** A message with all its retries, or the cleanup of one user. */
  datatype Call = Message(job: Job, force: bool) | CleanUp(uid: Uid, answers: Tag -> Outcome)
  {
    function Subject(): Uid {
      match this
      case Message(job, _) => job.msg.id
      case CleanUp(uid, _) => uid
    }
  }

  /** What a call does to the slice of its user, and whether it succeeds. */
  function Answered(node: Node, retries: nat, s: Slice, call: Call): (Slice, bool) {
    match call
    case Message(job, force) => Retry(node, s, job, force, retries, 1)
    case CleanUp(_, answers) =>
      if s.stored.None? then (s, true) else RunPlan(node, s, CleanupPlan(s.stored.value), Env(_ => Done, answers, false))
  }

  function Perform(node: Node, retries: nat, st: State, call: Call): State {
    Put(st, call.Subject(), Answered(node, retries, Get(st, call.Subject()), call).0)
  }

  /** A message is applied as a stream applies it, and a user cleaned up as a repopulation does it. */
  lemma CallsAsElsewhere(node: Node, retries: nat, st: State, call: Call)
    ensures call.Message? ==> Perform(node, retries, st, call) == Apply(Rules(node, call.force, retries), st, call.job)
    ensures call.CleanUp? ==> Perform(node, retries, st, call) == Step(st, Sweep(node, call.uid, call.answers))
  {
  }

  predicate Succeeds(node: Node, retries: nat, st: State, call: Call) {
    Answered(node, retries, Get(st, call.Subject()), call).1
  }

  /** A call is safe unless it is an incremental update that fails `IncrementalSafe`. */
  predicate Safe(node: Node, st: State, call: Call) {
    var s := Get(st, call.Subject());
    call.Message? && OnlyTheNew(s, call.job.msg, call.force) ==>
      IncrementalSafe(node, s.stored.value, Elements(call.job.msg.tags))
  }

  lemma CallAgreesIff(node: Node, retries: nat, s: Slice, call: Call)
    requires node.Valid() && Agrees(node, s) && Answered(node, retries, s, call).1
    ensures Agrees(node, Answered(node, retries, s, call).0)
       <==> (call.Message? && OnlyTheNew(s, call.job.msg, call.force) ==>
               IncrementalSafe(node, s.stored.value, Elements(call.job.msg.tags)))
  {
    if call.Message? {
      hide Attempt, Agrees, IncrementalSafe;
      var msg := call.job.msg;
      RetryConverges(node, s, s, call.job, call.force, retries, 1);
      FaultlessAttempt(node, s, msg, call.force);
      if OnlyTheNew(s, msg, call.force) {
        IncrementalReconcilesIff(node, s, msg, FAULTLESS);
      } else {
        Reconciles(node, s, msg, call.force, FAULTLESS);
      }
    }
  }

  lemma CallKeepsAgreementIff(node: Node, retries: nat, st: State, call: Call)
    requires node.Valid() && AgreesEverywhere(node, st) && Succeeds(node, retries, st, call)
    ensures AgreesEverywhere(node, Perform(node, retries, st, call)) <==> Safe(node, st, call)
  {
    hide Get, Put, Agrees, Answered;
    var uid := call.Subject();
    var s' := Answered(node, retries, Get(st, uid), call).0;
    CallAgreesIff(node, retries, Get(st, uid), call);
    forall v ensures Get(Perform(node, retries, st, call), v) == if v == uid then s' else Get(st, v) {
      GetPut(st, uid, s', v);
    }
  }

  function Performed(node: Node, retries: nat, st: State, calls: seq<Call>): State {
    if calls == [] then st
    else Perform(node, retries, Performed(node, retries, st, calls[..|calls| - 1]), calls[|calls| - 1])
  }

  /** Agreement over whole runs: when all calls succeed, however many attempts each needed, store
      and backends agree after every one of them if and only if every incremental update was safe
      when its turn came. */
  lemma {:induction false} AgreementOverRuns(node: Node, retries: nat, st: State, calls: seq<Call>)
    requires node.Valid() && AgreesEverywhere(node, st)
    requires forall i :: 0 <= i < |calls| ==> Succeeds(node, retries, Performed(node, retries, st, calls[..i]), calls[i])
    ensures (forall i :: 0 <= i <= |calls| ==> AgreesEverywhere(node, Performed(node, retries, st, calls[..i])))
       <==> (forall i :: 0 <= i < |calls| ==> Safe(node, Performed(node, retries, st, calls[..i]), calls[i]))
  {
    hide AgreesEverywhere, Safe, Succeeds, Perform;
    assert calls[..|calls|] == calls;
    if calls == [] {
    } else {
      var n := |calls| - 1;
      var init := calls[..n];
      assert forall i :: 0 <= i <= n ==> init[..i] == calls[..i];
      assert forall i :: 0 <= i < n ==> init[i] == calls[i];
      AgreementOverRuns(node, retries, st, init);
      var before := Performed(node, retries, st, init);
      assert Succeeds(node, retries, Performed(node, retries, st, calls[..n]), calls[n]);
      if AgreesEverywhere(node, before) {
        CallKeepsAgreementIff(node, retries, before, calls[n]);
      } else {
        assert !AgreesEverywhere(node, Performed(node, retries, st, calls[..n]));
      }
    }
  }

  function PlanOf(node: Node, stored: Option<Account>, call: Call): Plan {
    match call
    case Message(job, force) => PlanFor(node, stored, job.msg, force)
    case CleanUp(_, _) => if stored.Some? then CleanupPlan(stored.value) else Plan("", {}, {}, None)
  }

  lemma CallCompletes(node: Node, retries: nat, s: Slice, call: Call)
    ensures var (s', ok) := Answered(node, retries, s, call);
            if ok then s' == Complete(node, s, PlanOf(node, s.stored, call))
            else Partly(node, PlanOf(node, s.stored, call), s, s')
  {
    match call
    case Message(job, force) =>
      assert job == Job(job.msg, job.env);
      RetryCompletes(node, s, Ask(job.msg, force), job.env, retries);
    case CleanUp(_, answers) =>
      if s.stored.Some? {
        var plan := CleanupPlan(s.stored.value);
        assert AllDone(node, plan.revoke, answers) ==>
          Grants(node, plan.name, Effective(plan.revoke, answers)) == Grants(node, plan.name, plan.revoke);
      }
  }

  /** A user's slice after the last call about it that succeeded, and the grants that calls given up
      since may have changed. */
  datatype Track = Track(base: Slice, loose: set<Grant>)

  function Tracked(node: Node, retries: nat, st: State, calls: seq<Call>, uid: Uid): Track {
    if calls == [] then Track(Get(st, uid), {})
    else
      var init, call := calls[..|calls| - 1], calls[|calls| - 1];
      var track := Tracked(node, retries, st, init, uid);
      if call.Subject() != uid then track
      else if Succeeds(node, retries, Performed(node, retries, st, init), call) then
        Track(Get(Performed(node, retries, st, calls), uid), {})
      else Track(track.base, track.loose + MayChange(node, track.base, PlanOf(node, track.base.stored, call)))
  }

  /** The call is safe for the slice the user had at its last success, and makes a call about
      everything that may have changed since. */
  predicate Mends(node: Node, track: Track, call: Call) {
    var base := track.base;
    && (call.Message? && OnlyTheNew(base, call.job.msg, call.force) ==>
          IncrementalSafe(node, base.stored.value, Elements(call.job.msg.tags)))
    && track.loose <= CallsOf(node, PlanOf(node, base.stored, call))
  }

  /** `now` is the tracked slice up to what may have changed. */
  predicate Within(track: Track, now: Slice) {
    now.stored == track.base.stored && (now.on - track.base.on) + (track.base.on - now.on) <= track.loose
  }

  lemma MendingCall(node: Node, retries: nat, track: Track, now: Slice, call: Call)
    requires node.Valid() && Agrees(node, track.base) && Within(track, now)
    ensures var (s', ok) := Answered(node, retries, now, call);
            if ok then Mends(node, track, call) ==> Agrees(node, s')
            else Within(Track(track.base, track.loose + MayChange(node, track.base, PlanOf(node, now.stored, call))), s')
  {
    hide Answered, Agrees, IncrementalSafe, PlanFor, OnlyTheNew, Grants;
    CallCompletes(node, retries, now, call);
    if Mends(node, track, call) {
      SafeCallAgrees(node, track.base, call);
      CompleteElsewhere(node, track.base, now, PlanOf(node, now.stored, call));
    }
  }

  lemma SafeCallAgrees(node: Node, s: Slice, call: Call)
    requires node.Valid() && Agrees(node, s)
    requires call.Message? && OnlyTheNew(s, call.job.msg, call.force) ==>
               IncrementalSafe(node, s.stored.value, Elements(call.job.msg.tags))
    ensures Agrees(node, Complete(node, s, PlanOf(node, s.stored, call)))
  {
    if call.Message? {
      CompleteAgreesIff(node, s, Ask(call.job.msg, call.force));
    }
  }

  /** Agreement is lost only for a while: in any run, calls given up among them, a user strays from
      agreement by no more than what the calls given up since its last success may have changed, and
      agrees after every success, if every success about it was safe and made a call about all of
      that. That nothing less will do for all answers of the backends is `GivenUpHealsIff`. */
  lemma {:induction false} AgreementRegained(node: Node, retries: nat, st: State, calls: seq<Call>, uid: Uid)
    requires node.Valid() && Agrees(node, Get(st, uid))
    requires forall k :: 0 <= k < |calls| && calls[k].Subject() == uid
               && Succeeds(node, retries, Performed(node, retries, st, calls[..k]), calls[k])
               ==> Mends(node, Tracked(node, retries, st, calls[..k], uid), calls[k])
    ensures var track, now := Tracked(node, retries, st, calls, uid), Get(Performed(node, retries, st, calls), uid);
            && Agrees(node, track.base) && Within(track, now)
            && (track.loose == {} ==> Agrees(node, now))
  {
    hide Get, Put, Agrees, Answered, Mends;
    if calls == [] {
    } else {
      var k := |calls| - 1;
      var init, call := calls[..k], calls[k];
      assert forall i :: 0 <= i <= k ==> init[..i] == calls[..i];
      assert forall i :: 0 <= i < k ==> init[i] == calls[i];
      AgreementRegained(node, retries, st, init, uid);
      var before := Performed(node, retries, st, init);
      GetPut(before, call.Subject(), Answered(node, retries, Get(before, call.Subject()), call).0, uid);
      MendingCall(node, retries, Tracked(node, retries, st, init, uid), Get(before, uid), call);
    }
    if Tracked(node, retries, st, calls, uid).loose == {} {
      SameWithin(Tracked(node, retries, st, calls, uid), Get(Performed(node, retries, st, calls), uid));
    }
  }

  lemma SameWithin(track: Track, now: Slice)
    requires Within(track, now) && track.loose == {}
    ensures now == track.base
  {
  }
}
