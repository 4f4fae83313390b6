/** The store and the backends' memberships together, messages applied in order, and the
    repopulation, which makes the node hold exactly what the panel sent unless calls given up
    before have left grants behind that it makes no call about. */
module Ledger {
  import opened Model
  import opened Reconcile

  datatype Member = Member(uid: Uid, grant: Grant)

  datatype State = State(users: map<Uid, Account>, members: set<Member>)

  function Get(st: State, uid: Uid): Slice {
    Slice(if uid in st.users then Some(st.users[uid]) else None,
          set m | m in st.members && m.uid == uid :: m.grant)
  }

  function Put(st: State, uid: Uid, s: Slice): State {
    State(if s.stored.Some? then st.users[uid := s.stored.value] else st.users - {uid},
          (set m | m in st.members && m.uid != uid) + (set g | g in s.on :: Member(uid, g)))
  }

  lemma GetPut(st: State, uid: Uid, s: Slice, other: Uid)
    ensures Get(Put(st, uid, s), other) == if other == uid then s else Get(st, other)
  {
  }

  /** A state is determined by its slices. */
  lemma SameSlices(a: State, b: State)
    requires forall uid :: Get(a, uid) == Get(b, uid)
    ensures a == b
  {
    forall uid: Uid ensures uid in a.users <==> uid in b.users
                    ensures uid in a.users ==> a.users[uid] == b.users[uid] {
      assert Get(a, uid).stored == Get(b, uid).stored;
    }
    assert a.users == b.users;
    forall m ensures m in a.members <==> m in b.members {
      assert m in a.members <==> m.grant in Get(a, m.uid).on by {
        if m.grant in Get(a, m.uid).on {
          var m' :| m' in a.members && m'.uid == m.uid && m'.grant == m.grant;
          assert m' == m;
        }
      }
      assert m in b.members <==> m.grant in Get(b, m.uid).on by {
        if m.grant in Get(b, m.uid).on {
          var m' :| m' in b.members && m'.uid == m.uid && m'.grant == m.grant;
          assert m' == m;
        }
      }
    }
  }

  /** What stays fixed while messages are applied. */
  datatype Rules = Rules(node: Node, force: bool, retries: nat)

  function Retried(rules: Rules, s: Slice, job: Job): Slice {
    Retry(rules.node, s, job, rules.force, rules.retries, 1).0
  }

  /** One message applied, with its retries. */
  function Apply(rules: Rules, st: State, job: Job): State {
    Put(st, job.msg.id, Retried(rules, Get(st, job.msg.id), job))
  }

  /** The messages applied one after the other, in the order of the list. */
  function InOrder(rules: Rules, st: State, jobs: seq<Job>): State {
    if jobs == [] then st
    else Apply(rules, InOrder(rules, st, jobs[..|jobs| - 1]), jobs[|jobs| - 1])
  }

  /** No two messages that the node would act on are about the same user. */
  predicate DistinctIds(jobs: seq<Job>) {
    forall i, j :: 0 <= i < j < |jobs| && jobs[i].msg.Valid() && jobs[j].msg.Valid()
      ==> jobs[i].msg.id != jobs[j].msg.id
  }

  predicate Concerns(jobs: seq<Job>, uid: Uid) {
    exists i :: 0 <= i < |jobs| && jobs[i].msg.Valid() && jobs[i].msg.id == uid
  }

  /** A message that is not valid is answered with success and no effect. */
  lemma InvalidIgnored(rules: Rules, s: Slice, job: Job)
    requires !job.msg.Valid()
    ensures Retried(rules, s, job) == s
  {
  }

  lemma {:induction false} InOrderOthers(rules: Rules, st: State, jobs: seq<Job>, uid: Uid)
    requires !Concerns(jobs, uid)
    ensures Get(InOrder(rules, st, jobs), uid) == Get(st, uid)
  {
    if jobs == [] {
    } else {
      var init, last := jobs[..|jobs| - 1], jobs[|jobs| - 1];
      assert !Concerns(init, uid);
      InOrderOthers(rules, st, init, uid);
      var before := InOrder(rules, st, init);
      GetPut(before, last.msg.id, Retried(rules, Get(before, last.msg.id), last), uid);
      if last.msg.id == uid {
        InvalidIgnored(rules, Get(before, uid), last);
      }
    }
  }

  lemma {:induction false} InOrderSlice(rules: Rules, st: State, jobs: seq<Job>, j: nat)
    requires DistinctIds(jobs) && j < |jobs| && jobs[j].msg.Valid()
    ensures Get(InOrder(rules, st, jobs), jobs[j].msg.id) == Retried(rules, Get(st, jobs[j].msg.id), jobs[j])
  {
    var init, last := jobs[..|jobs| - 1], jobs[|jobs| - 1];
    var uid := jobs[j].msg.id;
    var before := InOrder(rules, st, init);
    GetPut(before, last.msg.id, Retried(rules, Get(before, last.msg.id), last), uid);
    if j == |jobs| - 1 {
      assert !Concerns(init, uid);
      InOrderOthers(rules, st, init, uid);
    } else {
      assert init[j] == jobs[j];
      InOrderSlice(rules, st, init, j);
      if last.msg.id == uid {
        InvalidIgnored(rules, Get(before, uid), last);
      }
    }
  }

  /** The backends' answers to the removals of a cleanup, which is not retried. */
  type CleanupEnv = Uid -> (Tag -> Outcome)

  function CleanupPlan(user: Account): Plan {
    Plan(user.username, TagsOf(user.inbounds), {}, None)
  }

  function CleanupSlice(node: Node, s: Slice, answers: Tag -> Outcome): Slice {
    if s.stored.None? then s
    else RunPlan(node, s, CleanupPlan(s.stored.value), Env(_ => Done, answers, false)).0
  }

  predicate Swept(node: Node, st: State, keep: set<Uid>, env: CleanupEnv, uid: Uid) {
    uid in st.users && uid !in keep && AllDone(node, TagsOf(st.users[uid].inbounds), env(uid))
  }

  predicate Revoked(node: Node, st: State, keep: set<Uid>, env: CleanupEnv, m: Member) {
    && m.uid in st.users && m.uid !in keep
    && m.grant in Grants(node, st.users[m.uid].username,
                         Effective(TagsOf(st.users[m.uid].inbounds), env(m.uid)))
  }

  /** Every stored user outside `keep` is taken off its inbounds; its entry goes when all
      of those calls succeeded. */
  function Cleanup(node: Node, st: State, keep: set<Uid>, env: CleanupEnv): State {
    State(map uid | uid in st.users && !Swept(node, st, keep, env, uid) :: st.users[uid],
          set m | m in st.members && !Revoked(node, st, keep, env, m))
  }

  lemma CleanupSlices(node: Node, st: State, keep: set<Uid>, env: CleanupEnv, uid: Uid)
    ensures Get(Cleanup(node, st, keep, env), uid)
         == if uid in keep then Get(st, uid) else CleanupSlice(node, Get(st, uid), env(uid))
  {
  }

  /** Under all answers: a user stays stored just if it is kept or a call about it fails, and then as
      it was; and exactly the memberships go that a user not kept was entitled to and whose call takes
      effect. */
  lemma CleanupExactly(node: Node, st: State, keep: set<Uid>, env: CleanupEnv)
    ensures var st' := Cleanup(node, st, keep, env);
            && (forall uid :: uid in st'.users
                  <==> && uid in st.users
                       && (uid in keep || exists i :: i in st.users[uid].inbounds && i.tag in node.covered && env(uid)(i.tag) != Done))
            && (forall uid :: uid in st'.users ==> st'.users[uid] == st.users[uid])
            && (forall m :: m in st'.members
                  <==> && m in st.members
                       && !(&& m.uid in st.users && m.uid !in keep && m.grant.name == st.users[m.uid].username
                            && m.grant.tag in node.covered && env(m.uid)(m.grant.tag) != FailedUntouched
                            && exists i :: i in st.users[m.uid].inbounds && i.tag == m.grant.tag))
  {
    forall uid | uid in st.users
      ensures AllDone(node, TagsOf(st.users[uid].inbounds), env(uid))
         <==> forall i :: i in st.users[uid].inbounds && i.tag in node.covered ==> env(uid)(i.tag) == Done
    {
      assert forall i :: i in st.users[uid].inbounds ==> i.tag in TagsOf(st.users[uid].inbounds);
    }
  }

  function Ids(jobs: seq<Job>): set<Uid> {
    set i | 0 <= i < |jobs| :: jobs[i].msg.id
  }

  /** What a repopulation with this message list leaves behind. */
  function Repopulate(rules: Rules, st: State, jobs: seq<Job>, env: CleanupEnv): State {
    Cleanup(rules.node, InOrder(rules, st, jobs), Ids(jobs), env)
  }

  ghost predicate AgreesEverywhere(node: Node, st: State) {
    forall uid :: Agrees(node, Get(st, uid))
  }

  /** Every message the node acts on succeeds in the end, however often it fails before, and so does
      every call of the cleanup. */
  ghost predicate Settles(rules: Rules, st: State, jobs: seq<Job>, env: CleanupEnv) {
    && (forall j :: 0 <= j < |jobs| && jobs[j].msg.Valid() ==>
          Retry(rules.node, Get(st, jobs[j].msg.id), jobs[j], rules.force, rules.retries, 1).1)
    && (forall uid :: uid in st.users && uid !in Ids(jobs) ==>
          AllDone(rules.node, TagsOf(st.users[uid].inbounds), env(uid)))
  }

  /** The slice a repopulation that settles ends with. */
  ghost function Repopulated(rules: Rules, s: Slice, jobs: seq<Job>, uid: Uid): Slice {
    if Concerns(jobs, uid) then
      var j :| 0 <= j < |jobs| && jobs[j].msg.Valid() && jobs[j].msg.id == uid;
      Complete(rules.node, s, PlanFor(rules.node, s.stored, jobs[j].msg, rules.force))
    else if uid in Ids(jobs) then s
    else Slice(None, s.on - Entitled(rules.node, s.stored))
  }

  /** From any state and in any mode: a user a message is about has that message's plan done, one
      named only by a message without a username is left alone, and every other one is dropped with
      the grants it was entitled to. */
  lemma RepopulateSlice(rules: Rules, st: State, jobs: seq<Job>, env: CleanupEnv, uid: Uid)
    requires DistinctIds(jobs) && Settles(rules, st, jobs, env)
    ensures Get(Repopulate(rules, st, jobs, env), uid) == Repopulated(rules, Get(st, uid), jobs, uid)
  {
    hide Retry, PlanFor;
    var s := Get(st, uid);
    CleanupSlices(rules.node, InOrder(rules, st, jobs), Ids(jobs), env, uid);
    if Concerns(jobs, uid) {
      var j :| 0 <= j < |jobs| && jobs[j].msg.Valid() && jobs[j].msg.id == uid
            && Repopulated(rules, s, jobs, uid) == Complete(rules.node, s, PlanFor(rules.node, s.stored, jobs[j].msg, rules.force));
      InOrderSlice(rules, st, jobs, j);
      assert jobs[j] == Job(jobs[j].msg, jobs[j].env);
      RetryCompletes(rules.node, s, Ask(jobs[j].msg, rules.force), jobs[j].env, rules.retries);
    } else {
      InOrderOthers(rules, st, jobs, uid);
      if uid !in Ids(jobs) && s.stored.Some? {
        AllEffective(rules.node, TagsOf(s.stored.value.inbounds), env(uid));
      }
    }
  }

  lemma AllEffective(node: Node, tags: set<Tag>, call: Tag -> Outcome)
    requires AllDone(node, tags, call)
    ensures forall name :: Grants(node, name, Effective(tags, call)) == Grants(node, name, tags)
  {
  }

  /** Repopulation is exact: from any agreeing state, if it settles, every user a message is about
      ends as that message asks, in the store and on the backends; a user named only by a message
      without a username is left alone; every other user is gone. */
  lemma RepopulateExact(rules: Rules, st: State, jobs: seq<Job>, env: CleanupEnv)
    requires rules.node.Valid() && rules.force && AgreesEverywhere(rules.node, st)
    requires DistinctIds(jobs) && Settles(rules, st, jobs, env)
    ensures var st' := Repopulate(rules, st, jobs, env);
            && AgreesEverywhere(rules.node, st')
            && (forall j :: 0 <= j < |jobs| && jobs[j].msg.Valid() ==>
                  Get(st', jobs[j].msg.id).stored == Wanted(rules.node, Get(st, jobs[j].msg.id).stored, jobs[j].msg))
            && (forall uid: Uid :: (forall j :: 0 <= j < |jobs| ==> jobs[j].msg.id != uid) ==> Get(st', uid) == Slice(None, {}))
            && (forall k :: 0 <= k < |jobs| && (forall j :: 0 <= j < |jobs| && jobs[j].msg.id == jobs[k].msg.id ==>
                                                  jobs[j].msg.id == 0 || jobs[j].msg.username == "") ==>
                  Get(st', jobs[k].msg.id) == Get(st, jobs[k].msg.id))
  {
    hide Get, Repopulate, Agrees, Settles, Wanted, DistinctIds;
    var st' := Repopulate(rules, st, jobs, env);
    forall uid ensures Agrees(rules.node, Get(st', uid))
               ensures (forall j :: 0 <= j < |jobs| ==> jobs[j].msg.id != uid) ==> Get(st', uid) == Slice(None, {})
    {
      RepopulateExactSlice(rules, st, jobs, env, uid);
    }
    forall k | 0 <= k < |jobs| && (forall j :: 0 <= j < |jobs| && jobs[j].msg.id == jobs[k].msg.id ==>
                                     jobs[j].msg.id == 0 || jobs[j].msg.username == "")
      ensures Get(st', jobs[k].msg.id) == Get(st, jobs[k].msg.id)
    {
      RepopulateExactSlice(rules, st, jobs, env, jobs[k].msg.id);
    }
    forall j | 0 <= j < |jobs| && jobs[j].msg.Valid()
      ensures Get(st', jobs[j].msg.id).stored == Wanted(rules.node, Get(st, jobs[j].msg.id).stored, jobs[j].msg)
    {
      RepopulateStored(rules, st, jobs, env, j);
    }
  }

  lemma RepopulateExactSlice(rules: Rules, st: State, jobs: seq<Job>, env: CleanupEnv, uid: Uid)
    requires rules.node.Valid() && rules.force && Agrees(rules.node, Get(st, uid))
    requires DistinctIds(jobs) && Settles(rules, st, jobs, env)
    ensures var st' := Repopulate(rules, st, jobs, env);
            && Agrees(rules.node, Get(st', uid))
            && (!Concerns(jobs, uid) ==> Get(st', uid) == if uid in Ids(jobs) then Get(st, uid) else Slice(None, {}))
  {
    hide Get, Repopulate, Settles, PlanFor, DistinctIds;
    var s := Get(st, uid);
    RepopulateSlice(rules, st, jobs, env, uid);
    if Concerns(jobs, uid) {
      var j :| 0 <= j < |jobs| && jobs[j].msg.Valid() && jobs[j].msg.id == uid
            && Repopulated(rules, s, jobs, uid) == Complete(rules.node, s, PlanFor(rules.node, s.stored, jobs[j].msg, rules.force));
      FaultlessAttempt(rules.node, s, jobs[j].msg, true);
      Reconciles(rules.node, s, jobs[j].msg, true, FAULTLESS);
    }
  }

  lemma RepopulateStored(rules: Rules, st: State, jobs: seq<Job>, env: CleanupEnv, j: nat)
    requires DistinctIds(jobs) && Settles(rules, st, jobs, env) && j < |jobs| && jobs[j].msg.Valid()
    ensures Get(Repopulate(rules, st, jobs, env), jobs[j].msg.id).stored
         == Wanted(rules.node, Get(st, jobs[j].msg.id).stored, jobs[j].msg)
  {
    hide Get, Repopulate, Settles;
    RepopulateSlice(rules, st, jobs, env, jobs[j].msg.id);
    assert Concerns(jobs, jobs[j].msg.id);
  }

  lemma NoneBeyond(held: set<Grant>, entitled: set<Grant>)
    ensures held - entitled == {} <==> held <= entitled
  {
    forall g | g in held && g !in entitled ensures held - entitled != {} {
      assert g in held - entitled;
    }
  }

  /** Whom a repopulation that settles brings into agreement, from any state: a user a message is
      about just if all its grants are among those the message makes a call about; one named only by
      a message without a username just if it agreed before; and any other just if it held no grant
      beyond what its entry entitled it to. */
  lemma RepopulateAgreesIff(rules: Rules, st: State, jobs: seq<Job>, env: CleanupEnv, uid: Uid)
    requires rules.node.Valid() && rules.force && DistinctIds(jobs) && Settles(rules, st, jobs, env)
    ensures var s := Get(st, uid);
            && (forall j :: 0 <= j < |jobs| && jobs[j].msg.Valid() && jobs[j].msg.id == uid ==>
                  (Agrees(rules.node, Get(Repopulate(rules, st, jobs, env), uid))
                   <==> s.on <= CallsOf(rules.node, PlanFor(rules.node, s.stored, jobs[j].msg, true))))
            && (!Concerns(jobs, uid) ==>
                  (Agrees(rules.node, Get(Repopulate(rules, st, jobs, env), uid))
                   <==> if exists j :: 0 <= j < |jobs| && jobs[j].msg.id == uid then Agrees(rules.node, s)
                        else s.on <= Entitled(rules.node, s.stored)))
  {
    hide Get, Repopulate, Settles, PlanFor;
    var s := Get(st, uid);
    RepopulateSlice(rules, st, jobs, env, uid);
    forall j | 0 <= j < |jobs| && jobs[j].msg.Valid() && jobs[j].msg.id == uid
      ensures Agrees(rules.node, Get(Repopulate(rules, st, jobs, env), uid))
         <==> s.on <= CallsOf(rules.node, PlanFor(rules.node, s.stored, jobs[j].msg, true))
    {
      assert Concerns(jobs, uid);
      FaultlessAttempt(rules.node, s, jobs[j].msg, true);
      ForceHealsIff(rules.node, s, jobs[j].msg, FAULTLESS);
    }
    NoneBeyond(s.on, Entitled(rules.node, s.stored));
  }

  /** In particular a grant left to a user who is not stored, by a message that was given up, outlives
      every repopulation that does not name that user. */
  lemma OrphanSurvives(rules: Rules, st: State, jobs: seq<Job>, env: CleanupEnv, uid: Uid)
    requires uid !in st.users && !Concerns(jobs, uid)
    ensures Get(Repopulate(rules, st, jobs, env), uid) == Get(st, uid)
  {
    InOrderOthers(rules, st, jobs, uid);
    CleanupSlices(rules.node, InOrder(rules, st, jobs), Ids(jobs), env, uid);
  }

  /** Which users are stored afterwards, and on which tags, depends on the message list and
      the registered inbounds alone, not on what was there before. */
  lemma RepopulateTagTable(rules: Rules, st: State, jobs: seq<Job>, env: CleanupEnv, uid: Uid)
    requires rules.node.Valid() && DistinctIds(jobs) && Settles(rules, st, jobs, env)
    requires forall j :: 0 <= j < |jobs| ==> jobs[j].msg.Valid()
    ensures var users := Repopulate(rules, st, jobs, env).users;
            && (uid in users <==> exists j :: 0 <= j < |jobs| && jobs[j].msg.id == uid && jobs[j].msg.tags != [])
            && (uid in users ==>
                  forall j :: 0 <= j < |jobs| && jobs[j].msg.id == uid ==>
                    TagsOf(users[uid].inbounds)
                    == if Elements(jobs[j].msg.tags) <= {""} then rules.node.inbounds.Keys
                       else Elements(jobs[j].msg.tags) * rules.node.inbounds.Keys)
  {
    hide Repopulate, Settles, PlanFor, DistinctIds, Resolve, TagsOf;
    var st' := Repopulate(rules, st, jobs, env);
    assert uid in st'.users <==> Get(st', uid).stored.Some?;
    forall j | 0 <= j < |jobs| && jobs[j].msg.id == uid
      ensures uid in st'.users <==> jobs[j].msg.tags != []
      ensures uid in st'.users ==>
                TagsOf(st'.users[uid].inbounds)
                == if Elements(jobs[j].msg.tags) <= {""} then rules.node.inbounds.Keys
                   else Elements(jobs[j].msg.tags) * rules.node.inbounds.Keys
    {
      RepopulateStored(rules, st, jobs, env, j);
      ResolvesTo(rules.node, Elements(jobs[j].msg.tags));
    }
    RepopulateSlice(rules, st, jobs, env, uid);
  }

  /** Repeating the same repopulation changes nothing, if it settles again. */
  lemma RepopulateIdempotent(rules: Rules, st: State, jobs: seq<Job>, env: CleanupEnv)
    requires rules.node.Valid() && rules.force && AgreesEverywhere(rules.node, st) && DistinctIds(jobs)
    requires Settles(rules, st, jobs, env) && Settles(rules, Repopulate(rules, st, jobs, env), jobs, env)
    ensures var st' := Repopulate(rules, st, jobs, env);
            Repopulate(rules, st', jobs, env) == st'
  {
    hide Get, Repopulate, Settles, DistinctIds, Wanted;
    var st' := Repopulate(rules, st, jobs, env);
    var st'' := Repopulate(rules, st', jobs, env);
    RepopulateExact(rules, st, jobs, env);
    RepopulateExact(rules, st', jobs, env);
    forall uid ensures Get(st'', uid) == Get(st', uid) {
      if Concerns(jobs, uid) {
        var j :| 0 <= j < |jobs| && jobs[j].msg.Valid() && jobs[j].msg.id == uid;
        WantedAgain(rules.node, Get(st, uid).stored, jobs[j].msg);
        assert Agrees(rules.node, Get(st', uid)) && Agrees(rules.node, Get(st'', uid));
      }
    }
    SameSlices(st'', st');
  }

  lemma WantedAgain(node: Node, stored: Option<Account>, msg: UserData)
    ensures Wanted(node, Wanted(node, stored, msg), msg) == Wanted(node, stored, msg)
  {
  }

  /** Id 0 is never stored, so a cleanup may or may not be told to keep it. */
  lemma CleanupIgnoresZero(node: Node, st: State, keep: set<Uid>, env: CleanupEnv)
    requires 0 !in st.users
    ensures Cleanup(node, st, keep, env) == Cleanup(node, st, keep - {0}, env)
  {
  }
}
