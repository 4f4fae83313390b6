/** The service that turns panel messages into store updates and backend calls. Each method
    runs by itself here; `WorkerPool` justifies running the workers' attempts one at a time. */
module NodeService {
  import opened Model
  import opened Reconcile
  import opened Ledger
  import opened Serial
  import opened Storage

  /** All backends together: the tags they answer for and the users they let in. A call
      for a user who already is where it should be succeeds like any other. */
  class Backends {
    const covered: set<Tag>
    var members: set<Member>

    constructor (covered: set<Tag>)
      ensures this.covered == covered && members == {}
    {
      this.covered, members := covered, {};
    }

    predicate ContainsTag(tag: Tag) { tag in covered }

    method AddUser(user: User, inbound: Inbound, answer: Outcome) returns (ok: bool)
      modifies this`members
      ensures ok == (answer == Done)
      ensures members == old(members)
                + if answer == FailedUntouched then {} else {Member(user.id, Grant(inbound.tag, user.username))}
    {
      if answer != FailedUntouched {
        members := members + {Member(user.id, Grant(inbound.tag, user.username))};
      }
      return answer == Done;
    }

    method RemoveUser(user: User, inbound: Inbound, answer: Outcome) returns (ok: bool)
      modifies this`members
      ensures ok == (answer == Done)
      ensures members == old(members)
                - if answer == FailedUntouched then {} else {Member(user.id, Grant(inbound.tag, user.username))}
    {
      if answer != FailedUntouched {
        members := members - {Member(user.id, Grant(inbound.tag, user.username))};
      }
      return answer == Done;
    }
  }

  /** The memberships touched by calls for one user on `tags`. */
  function Touched(node: Node, uid: Uid, name: string, tags: set<Tag>, call: Tag -> Outcome): set<Member> {
    set g | g in Grants(node, name, Effective(tags, call)) :: Member(uid, g)
  }

  lemma PrefixTags(inbounds: seq<Inbound>, k: nat)
    requires k < |inbounds|
    ensures TagsOf(Elements(inbounds[..k + 1])) == TagsOf(Elements(inbounds[..k])) + {inbounds[k].tag}
  {
  }

  lemma NoCalls(node: Node, uid: Uid, name: string, inbounds: seq<Inbound>, call: Tag -> Outcome)
    ensures Touched(node, uid, name, TagsOf(Elements(inbounds[..0])), call) == {}
    ensures AllDone(node, TagsOf(Elements(inbounds[..0])), call)
  {
  }

  /** One more inbound: no call is made for a tag that no backend covers. */
  lemma CallsMore(node: Node, uid: Uid, name: string, inbounds: seq<Inbound>, k: nat, call: Tag -> Outcome)
    requires k < |inbounds|
    ensures var before, after := TagsOf(Elements(inbounds[..k])), TagsOf(Elements(inbounds[..k + 1]));
            var tag := inbounds[k].tag;
            && (AllDone(node, after, call) <==> AllDone(node, before, call) && (tag in node.covered ==> call(tag) == Done))
            && Touched(node, uid, name, after, call)
               == Touched(node, uid, name, before, call)
                  + if tag in node.covered && call(tag) != FailedUntouched then {Member(uid, Grant(tag, name))} else {}
  {
  }

  lemma PutSame(st: State, uid: Uid)
    ensures Put(st, uid, Get(st, uid)) == st
  {
  }

  /** The slice after calls on `tags` for the user called `name`. */
  function Called(node: Node, s: Slice, name: string, tags: set<Tag>, call: Tag -> Outcome, grant: bool): Slice {
    var touched := Grants(node, name, Effective(tags, call));
    s.(on := if grant then s.on + touched else s.on - touched)
  }

  lemma CalledSlices(node: Node, st: State, st': State, user: User, tags: set<Tag>, call: Tag -> Outcome, grant: bool)
    requires st'.users == st.users
    requires var touched := Touched(node, user.id, user.username, tags, call);
             st'.members == if grant then st.members + touched else st.members - touched
    ensures st' == Put(st, user.id, Called(node, Get(st, user.id), user.username, tags, call, grant))
  {
  }

  /** How the reception of a stream ends. */
  datatype StreamEnd = Eof | Canceled | Broken

  const REPOPULATE_MARKER: string := "__marznode_repopulate__"

  predicate IsRepopulateMarker(msg: UserData) {
    msg.id == 0 && msg.username == REPOPULATE_MARKER
  }

  method CollectIds(jobs: seq<Job>) returns (keep: set<Uid>)
    ensures keep == Ids(jobs)
  {
    keep := {};
    for k := 0 to |jobs|
      invariant keep == Ids(jobs[..k])
    {
      assert jobs[..k + 1] == jobs[..k] + [jobs[k]];
      IdsMore(jobs[..k], jobs[k]);
      keep := keep + {jobs[k].msg.id};
    }
    assert jobs[..|jobs|] == jobs;
  }

  lemma IdsMore(jobs: seq<Job>, job: Job)
    ensures Ids(jobs + [job]) == Ids(jobs) + {job.msg.id}
    ensures Ids(jobs + [job]) - {0} == if job.msg.id != 0 then Ids(jobs) - {0} + {job.msg.id} else Ids(jobs) - {0}
  {
    var more := jobs + [job];
    assert more[|jobs|] == job;
    forall i | 0 <= i < |jobs| ensures more[i] == jobs[i] {
    }
  }

  /** The whole chunks among the messages received. */
  lemma WholeChunks(applied: nat, buffered: nat, chunk: nat)
    requires 0 < chunk && applied % chunk == 0 && buffered < chunk
    ensures (applied + buffered) / chunk * chunk == applied
  {
    var q := applied / chunk;
    assert applied == chunk * q;
    assert chunk * q <= applied + buffered < chunk * (q + 1);
    QuotientUnique(applied + buffered, chunk, q);
  }

  lemma QuotientUnique(n: nat, d: nat, q: nat)
    requires 0 < d && d * q <= n < d * (q + 1)
    ensures n / d == q
  {
    var p := n / d;
    assert d * p <= n < d * (p + 1);
    Monotone(d, p + 1, q);
    Monotone(d, q + 1, p);
  }

  lemma ChunkAdded(applied: nat, chunk: nat)
    requires 0 < chunk && applied % chunk == 0
    ensures (applied + chunk) % chunk == 0
  {
    var q := applied / chunk;
    assert applied + chunk == chunk * (q + 1);
    QuotientUnique(applied + chunk, chunk, q + 1);
  }

  lemma Monotone(d: nat, a: nat, b: nat)
    ensures a <= b ==> d * a <= d * b
  {
  }

  /** The users that a cleanup has yet to look at. */
  function Pending(users: seq<User>, k: nat): set<Uid> {
    set j | k <= j < |users| :: users[j].id
  }

  lemma PendingNone(users: seq<User>)
    ensures Pending(users, |users|) == {}
  {
  }

  lemma CleanupStarts(node: Node, st: State, keep: set<Uid>, users: seq<User>, env: CleanupEnv)
    requires forall id :: id in st.users ==> exists u :: u in users && u.id == id
    ensures Cleanup(node, st, keep + Pending(users, 0), env) == st
  {
  }

  lemma CleanupNext(node: Node, st: State, keep: set<Uid>, users: seq<User>, k: nat, env: CleanupEnv)
    requires k < |users| && forall i, j :: 0 <= i < j < |users| ==> users[i].id != users[j].id
    ensures var before := Cleanup(node, st, keep + Pending(users, k), env);
            var id := users[k].id;
            Cleanup(node, st, keep + Pending(users, k + 1), env)
              == if id in keep then before else Put(before, id, CleanupSlice(node, Get(before, id), env(id)))
  {
    var id, rest := users[k].id, keep + Pending(users, k + 1);
    if id in keep {
      assert keep + Pending(users, k) == rest;
    } else {
      assert keep + Pending(users, k) == {id} + rest;
      CleanupOneMore(node, st, rest, env, id);
    }
  }

  method CollectTags(inbounds: seq<Inbound>) returns (current: set<Tag>)
    ensures current == TagsOf(Elements(inbounds))
  {
    current := {};
    for k := 0 to |inbounds|
      invariant current == TagsOf(Elements(inbounds[..k]))
    {
      PrefixTags(inbounds, k);
      current := current + {inbounds[k].tag};
    }
    assert inbounds[..|inbounds|] == inbounds;
  }

  method CollectStrings(tags: seq<Tag>) returns (desired: set<Tag>)
    ensures desired == Elements(tags)
  {
    desired := {};
    for k := 0 to |tags|
      invariant desired == Elements(tags[..k])
    {
      assert tags[..k + 1] == tags[..k] + [tags[k]];
      desired := desired + {tags[k]};
    }
    assert tags[..|tags|] == tags;
  }

  /** The tags of `a` that are not in `b`, in any order. */
  method Difference(a: set<Tag>, b: set<Tag>) returns (out: seq<Tag>)
    ensures Elements(out) == a - b
  {
    out := [];
    var left := a;
    while left != {}
      invariant left <= a && Elements(out) == a - left - b
      decreases |left|
    {
      var tag :| tag in left;
      left := left - {tag};
      assert Elements(out + [tag]) == Elements(out) + {tag};
      if tag !in b {
        out := out + [tag];
      }
    }
  }

  /** Storing or dropping a user's account after its slice became `s`. */
  lemma ThenStored(st: State, uid: Uid, s: Slice, stored: Option<Account>, now: State)
    requires now.members == Put(st, uid, s).members
    requires now.users == if stored.Some? then Put(st, uid, s).users[uid := stored.value] else Put(st, uid, s).users - {uid}
    ensures now == Put(st, uid, s.(stored := stored))
  {
  }

  lemma PutPut(st: State, uid: Uid, s1: Slice, s2: Slice)
    ensures Put(Put(st, uid, s1), uid, s2) == Put(st, uid, s2)
  {
  }

  /** A plan without calls succeeds and only stores its result. */
  lemma PlanNothing(node: Node, s: Slice, plan: Plan, env: Env)
    requires plan.revoke == plan.grant == {}
    ensures RunPlan(node, s, plan, env) == (Slice(plan.after, s.on), true)
  {
    assert s.on - Grants(node, plan.name, Effective({}, env.remove)) + Grants(node, plan.name, Effective({}, env.add)) == s.on;
  }

  lemma NothingCalled(node: Node, s: Slice, plan: Plan, env: Env)
    requires plan.grant == {}
    ensures RunGrants(node, s, plan, env) == (Slice(plan.after, s.on), true)
  {
    assert s.on + Grants(node, plan.name, Effective({}, env.add)) == s.on;
  }

  /** Cleaning up one more user is one more step on that user's slice. */
  lemma CleanupOneMore(node: Node, st: State, keep: set<Uid>, env: CleanupEnv, uid: Uid)
    requires uid !in keep
    ensures var before := Cleanup(node, st, {uid} + keep, env);
            Cleanup(node, st, keep, env) == Put(before, uid, CleanupSlice(node, Get(before, uid), env(uid)))
  {
  }

  /** The messages taken from the queue and not yet through are those in the workers' hands. */
  ghost predicate InHands(progress: seq<Progress>, queued: nat, inHand: seq<nat>) {
    && queued <= |progress|
    && NoRepeats(inHand)
    && (forall j :: j in inHand <==> 0 <= j < queued && !progress[j].finished)
    && (forall j :: queued <= j < |progress| ==> !progress[j].finished)
  }

  lemma HandsStart(n: nat)
    ensures InHands(seq(n, _ => Progress(0, false)), 0, [])
  {
  }

  lemma HandsTake(progress: seq<Progress>, queued: nat, inHand: seq<nat>)
    requires InHands(progress, queued, inHand) && queued < |progress|
    ensures InHands(progress, queued + 1, inHand + [queued])
  {
    assert forall i :: 0 <= i < |inHand| ==> inHand[i] in inHand;
  }

  lemma HandsHold(progress: seq<Progress>, queued: nat, inHand: seq<nat>, k: nat)
    requires InHands(progress, queued, inHand) && k < |inHand|
    ensures inHand[k] < |progress| && !progress[inHand[k]].finished
  {
  }

  lemma TakeOut(inHand: seq<nat>, k: nat)
    requires k < |inHand| && NoRepeats(inHand)
    ensures var left := inHand[..k] + inHand[k + 1..];
            NoRepeats(left) && forall j :: j in left <==> j in inHand && j != inHand[k]
  {
  }

  lemma HandsTry(progress: seq<Progress>, queued: nat, inHand: seq<nat>, k: nat, p: Progress)
    requires InHands(progress, queued, inHand) && k < |inHand| && inHand[k] < |progress|
    ensures InHands(progress[inHand[k] := p], queued, if p.finished then inHand[..k] + inHand[k + 1..] else inHand)
  {
    TakeOut(inHand, k);
    assert inHand[k] in inHand;
  }

  lemma HandsDone(progress: seq<Progress>, queued: nat)
    requires InHands(progress, queued, []) && queued == |progress|
    ensures forall j :: 0 <= j < |progress| ==> progress[j].finished
  {
  }

  /** How many attempts at most are still to come. */
  function AttemptsLeft(progress: seq<Progress>, retries: nat): nat {
    if progress == [] then 0
    else
      var last := progress[|progress| - 1];
      AttemptsLeft(progress[..|progress| - 1], retries)
      + (if last.finished then 0 else if last.tries < retries then 1 + retries - last.tries else 1)
  }

  lemma {:induction false} AttemptSpent(progress: seq<Progress>, retries: nat, j: nat, p: Progress)
    requires j < |progress| && !progress[j].finished
    requires p.finished || progress[j].tries < p.tries < retries
    ensures AttemptsLeft(progress[j := p], retries) < AttemptsLeft(progress, retries)
  {
    var init := progress[..|progress| - 1];
    if j == |progress| - 1 {
      assert progress[j := p][..|progress| - 1] == init;
    } else {
      assert progress[j := p][..|progress| - 1] == init[j := p];
      AttemptSpent(init, retries, j, p);
    }
  }

  class Service {
    const store: Memory
    const backends: Backends
    const bulkThreshold: nat
    const chunkSize: nat
    const workers: nat
    const retries: nat

    constructor (store: Memory, backends: Backends, bulkThreshold: int, chunkSize: int, workers: int, retries: int)
      requires store.Valid() && store.users == map[] && Node(store.inbounds, backends.covered).Valid()
      ensures Valid() && this.store == store && this.backends == backends
    {
      this.store, this.backends := store, backends;
      this.workers := if workers < 1 then 1 else workers;
      this.bulkThreshold := if bulkThreshold < 1 then 1 else bulkThreshold;
      this.chunkSize := if chunkSize < 1 then 1 else chunkSize;
      this.retries := if retries < 1 then 1 else retries;
    }

    /** Every stored user has its non-zero id as key, a username, and distinct inbounds. */
    ghost predicate Valid()
      reads this, store
    {
      && chunkSize >= 1 && workers >= 1 && bulkThreshold >= 1 && retries >= 1
      && store.Valid()
      && Node(store.inbounds, backends.covered).Valid()
      && (forall id :: id in store.users ==>
            && id != 0 && store.users[id].username != "" && DistinctTags(store.users[id].inbounds))
    }

    ghost function TheNode(): Node
      reads store
    {
      Node(store.inbounds, backends.covered)
    }

    ghost function Now(): State
      reads store, backends
    {
      State(store.Accounts(), backends.members)
    }

    ghost function TheRules(force: bool): Rules
      reads store
    {
      Rules(TheNode(), force, retries)
    }

    method AddUser(user: User, inbounds: seq<Inbound>, env: Env) returns (ok: bool)
      modifies backends`members
      ensures ok == AllDone(TheNode(), TagsOf(Elements(inbounds)), env.add)
      ensures Now() == Put(old(Now()), user.id,
                           Called(TheNode(), Get(old(Now()), user.id), user.username, TagsOf(Elements(inbounds)), env.add, true))
    {
      hide Put, Get, Touched, AllDone, Elements, TagsOf, Effective;
      ok := true;
      NoCalls(TheNode(), user.id, user.username, inbounds, env.add);
      for k := 0 to |inbounds|
        invariant ok == AllDone(TheNode(), TagsOf(Elements(inbounds[..k])), env.add)
        invariant backends.members == old(backends.members)
          + Touched(TheNode(), user.id, user.username, TagsOf(Elements(inbounds[..k])), env.add)
      {
        var tag := inbounds[k].tag;
        CallsMore(TheNode(), user.id, user.username, inbounds, k, env.add);
        if !backends.ContainsTag(tag) { continue; }
        var done := backends.AddUser(user, inbounds[k], env.add(tag));
        ok := ok && done;
      }
      assert inbounds[..|inbounds|] == inbounds;
      CalledSlices(TheNode(), old(Now()), Now(), user, TagsOf(Elements(inbounds)), env.add, true);
    }

    method RemoveUser(user: User, inbounds: seq<Inbound>, env: Env) returns (ok: bool)
      modifies backends`members
      ensures ok == AllDone(TheNode(), TagsOf(Elements(inbounds)), env.remove)
      ensures Now() == Put(old(Now()), user.id,
                           Called(TheNode(), Get(old(Now()), user.id), user.username, TagsOf(Elements(inbounds)), env.remove, false))
    {
      hide Put, Get, Touched, AllDone, Elements, TagsOf, Effective;
      ok := true;
      NoCalls(TheNode(), user.id, user.username, inbounds, env.remove);
      for k := 0 to |inbounds|
        invariant ok == AllDone(TheNode(), TagsOf(Elements(inbounds[..k])), env.remove)
        invariant backends.members == old(backends.members)
          - Touched(TheNode(), user.id, user.username, TagsOf(Elements(inbounds[..k])), env.remove)
      {
        var tag := inbounds[k].tag;
        CallsMore(TheNode(), user.id, user.username, inbounds, k, env.remove);
        if !backends.ContainsTag(tag) { continue; }
        var done := backends.RemoveUser(user, inbounds[k], env.remove(tag));
        ok := ok && done;
      }
      assert inbounds[..|inbounds|] == inbounds;
      CalledSlices(TheNode(), old(Now()), Now(), user, TagsOf(Elements(inbounds)), env.remove, false);
    }

    /** Blank and repeated tags are dropped before the store is asked. */
    method ResolveInbounds(tags: seq<Tag>) returns (out: seq<Inbound>)
      requires Valid()
      ensures Elements(out) == Resolve(TheNode(), Elements(tags)) && DistinctTags(out)
    {
      var unique: seq<Tag>, seen: set<Tag> := [], {};
      for k := 0 to |tags|
        invariant seen == Elements(unique) == Elements(tags[..k]) - {""}
        invariant NoRepeats(unique)
      {
        assert tags[..k + 1] == tags[..k] + [tags[k]];
        if tags[k] == "" { continue; }
        if tags[k] in seen { continue; }
        seen := seen + {tags[k]};
        assert forall i :: 0 <= i < |unique| ==> unique[i] in Elements(unique);
        unique := unique + [tags[k]];
      }
      assert tags[..|tags|] == tags;
      out := store.ListInbounds(unique);
      if unique != [] {
        assert unique[0] in Elements(unique);
        ListedElements(store.inbounds, unique);
        ListedDistinct(store.inbounds, unique);
      }
    }

    /** One attempt at one message. The per-user lock is held from before the store is read
        until the method returns; see `UserLocks`. */
    method ApplyUserData(msg: UserData, forceAdd: bool, env: Env) returns (ok: bool)
      requires Valid()
      modifies store`users, backends`members
      ensures Valid()
      ensures (Now(), ok) == (Put(old(Now()), msg.id, Attempt(TheNode(), Get(old(Now()), msg.id), msg, forceAdd, env).0),
                              Attempt(TheNode(), Get(old(Now()), msg.id), msg, forceAdd, env).1)
    {
      ghost var st, s := Now(), Get(Now(), msg.id);
      if msg.id == 0 || msg.username == "" {
        PutSame(st, msg.id);
        PlanNothing(TheNode(), s, Plan("", {}, {}, s.stored), env);
        return true;
      }
      var stored := store.GetUser(msg.id);
      if stored.None? && |msg.tags| > 0 {
        ok := ApplyNew(msg, forceAdd, env);
      } else if stored.Some? && |msg.tags| == 0 {
        ok := ApplyGone(msg, stored.value, forceAdd, env);
      } else if stored.None? {
        PutSame(st, msg.id);
        PlanNothing(TheNode(), s, Plan("", {}, {}, None), env);
        ok := true;
      } else {
        ok := ApplyChanged(msg, stored.value, forceAdd, env);
      }
    }

    method ApplyNew(msg: UserData, forceAdd: bool, env: Env) returns (ok: bool)
      requires Valid() && msg.Valid() && msg.id !in store.users && msg.tags != []
      modifies store`users, backends`members
      ensures Valid()
      ensures (Now(), ok) == (Put(old(Now()), msg.id, Attempt(TheNode(), Get(old(Now()), msg.id), msg, forceAdd, env).0),
                              Attempt(TheNode(), Get(old(Now()), msg.id), msg, forceAdd, env).1)
    {
      ghost var st, s := Now(), Get(Now(), msg.id);
      var user := User(msg.id, msg.username, msg.key, []);
      var additions := ResolveInbounds(msg.tags);
      ghost var plan := PlanFor(TheNode(), s.stored, msg, forceAdd);
      assert Called(TheNode(), s, plan.name, plan.revoke, env.remove, false) == s;
      ok := AddUser(user, additions, env);
      ghost var s2 := Called(TheNode(), s, plan.name, plan.grant, env.add, true);
      if !ok { return false; }
      store.UpdateUserInbounds(user, additions);
      ThenStored(st, msg.id, s2, plan.after, Now());
    }

    method ApplyGone(msg: UserData, stored: User, forceAdd: bool, env: Env) returns (ok: bool)
      requires Valid() && msg.Valid() && msg.id in store.users && stored == store.users[msg.id] && msg.tags == []
      modifies store`users, backends`members
      ensures Valid()
      ensures (Now(), ok) == (Put(old(Now()), msg.id, Attempt(TheNode(), Get(old(Now()), msg.id), msg, forceAdd, env).0),
                              Attempt(TheNode(), Get(old(Now()), msg.id), msg, forceAdd, env).1)
    {
      ghost var st, s := Now(), Get(Now(), msg.id);
      ghost var plan := PlanFor(TheNode(), s.stored, msg, forceAdd);
      ok := RemoveUser(stored, stored.inbounds, env);
      ghost var s1 := Called(TheNode(), s, plan.name, plan.revoke, env.remove, false);
      if !ok { return false; }
      assert Called(TheNode(), s1, plan.name, plan.grant, env.add, true) == s1;
      store.RemoveUser(msg.id);
      ThenStored(st, msg.id, s1, None, Now());
    }

    /** Where a user is and where it is asked to be, the inbounds asked for, and those to leave. */
    method Compare(inbounds: seq<Inbound>, tags: seq<Tag>)
      returns (current: set<Tag>, desired: set<Tag>, newInbounds: seq<Inbound>, removedInbounds: seq<Inbound>)
      requires Valid()
      ensures current == TagsOf(Elements(inbounds)) && desired == Elements(tags)
      ensures Elements(newInbounds) == Resolve(TheNode(), desired) && DistinctTags(newInbounds)
      ensures Elements(removedInbounds) == Resolve(TheNode(), current - desired)
    {
      current := CollectTags(inbounds);
      desired := CollectStrings(tags);
      var removedTags := Difference(current, desired);
      newInbounds := ResolveInbounds(tags);
      removedInbounds := ResolveInbounds(removedTags);
    }

    method ApplyChanged(msg: UserData, stored: User, forceAdd: bool, env: Env) returns (ok: bool)
      requires Valid() && msg.Valid() && msg.id in store.users && stored == store.users[msg.id] && msg.tags != []
      modifies store`users, backends`members
      ensures Valid()
      ensures (Now(), ok) == (Put(old(Now()), msg.id, Attempt(TheNode(), Get(old(Now()), msg.id), msg, forceAdd, env).0),
                              Attempt(TheNode(), Get(old(Now()), msg.id), msg, forceAdd, env).1)
    {
      hide Put, AllDone, Grants, Effective, Resolve;
      ghost var st, s := Now(), Get(Now(), msg.id);
      ghost var plan := PlanFor(TheNode(), s.stored, msg, forceAdd);
      var current, desired, newInbounds, removedInbounds := Compare(stored.inbounds, msg.tags);
      ok := RemoveUser(stored, removedInbounds, env);
      ghost var s1 := Called(TheNode(), s, plan.name, plan.revoke, env.remove, false);
      if !ok { return false; }

      var added := newInbounds;
      if !forceAdd {
        var addedTags := Difference(desired, current);
        added := ResolveInbounds(addedTags);
      }
      ok := AddUser(stored, added, env);
      ghost var s2 := Called(TheNode(), s1, plan.name, plan.grant, env.add, true);
      GetPut(st, msg.id, s1, msg.id);
      PutPut(st, msg.id, s1, s2);
      if !ok { return false; }
      store.UpdateUserInbounds(stored, newInbounds);
      ThenStored(st, msg.id, s2, plan.after, Now());
    }

    /** The attempts of one message, up to the first success, the last allowed one, or a
        cancelled context. */
    method ApplyUserDataWithRetry(job: Job, forceAdd: bool) returns (ok: bool)
      requires Valid()
      modifies store`users, backends`members
      ensures Valid()
      ensures Now() == Apply(TheRules(forceAdd), old(Now()), job)
      ensures ok == Retry(TheNode(), Get(old(Now()), job.msg.id), job, forceAdd, retries, 1).1
    {
      hide Put, Get, Attempt;
      ghost var st, s, uid := Now(), Get(Now(), job.msg.id), job.msg.id;
      ok := false;
      var attempt := 1;
      PutSame(st, uid);
      while true
        invariant Valid() && attempt >= 1
        invariant Put(st, uid, Get(Now(), uid)) == Now()
        invariant Retry(TheNode(), Get(Now(), uid), job, forceAdd, retries, attempt)
          == Retry(TheNode(), s, job, forceAdd, retries, 1)
        decreases retries - attempt
      {
        ghost var before := Now();
        ok := ApplyUserData(job.msg, forceAdd, job.env(attempt));
        ghost var s' := Attempt(TheNode(), Get(before, uid), job.msg, forceAdd, job.env(attempt)).0;
        GetPut(before, uid, s', uid);
        PutPut(st, uid, Get(before, uid), s');
        if ok || job.env(attempt).cancelled || attempt >= retries { return; }
        attempt := attempt + 1;
      }
    }

    method CleanupUser(user: User, answers: Tag -> Outcome)
      requires Valid() && user.id in store.users && store.users[user.id] == user
      modifies store`users, backends`members
      ensures Valid()
      ensures Now() == Put(old(Now()), user.id, CleanupSlice(TheNode(), Get(old(Now()), user.id), answers))
      ensures store.users == old(store.users) || store.users == old(store.users) - {user.id}
    {
      hide Put, AllDone, Effective;
      ghost var st, s := Now(), Get(Now(), user.id);
      ghost var plan := CleanupPlan(s.stored.value);
      var env := Env(_ => Done, answers, false);
      var ok := RemoveUser(user, user.inbounds, env);
      ghost var s1 := Called(TheNode(), s, plan.name, plan.revoke, answers, false);
      if !ok { return; }
      NothingCalled(TheNode(), s1, plan, env);
      store.RemoveUser(user.id);
      ThenStored(st, user.id, s1, None, Now());
    }

    /** Users outside `keep` are taken off their inbounds and, when that succeeded, dropped. */
    method CleanupRepopulateUsers(keep: set<Uid>, env: CleanupEnv)
      requires Valid()
      modifies store`users, backends`members
      ensures Valid()
      ensures Now() == Cleanup(TheNode(), old(Now()), keep, env)
    {
      hide Put, Get, CleanupSlice, Cleanup, Pending;
      ghost var st := Now();
      var existing := store.ListUsers();
      CleanupStarts(TheNode(), st, keep, existing, env);
      for k := 0 to |existing|
        invariant Valid()
        invariant Now() == Cleanup(TheNode(), st, keep + Pending(existing, k), env)
        invariant forall j :: k <= j < |existing| ==>
          existing[j].id in store.users && store.users[existing[j].id] == existing[j]
      {
        var user := existing[k];
        CleanupNext(TheNode(), st, keep, existing, k, env);
        if user.id in keep { continue; }
        CleanupUser(user, env(user.id));
      }
      PendingNone(existing);
      assert keep + {} == keep;
    }

    /** One attempt of a worker at its message, and whether the worker is through with it. */
    method AttemptJob(job: Job, tries: nat) returns (through: bool)
      requires Valid()
      modifies store`users, backends`members
      ensures Valid()
      ensures var (s, ok) := Attempt(TheNode(), Get(old(Now()), job.msg.id), job.msg, true, job.env(tries));
              Now() == Put(old(Now()), job.msg.id, s) && through == Through(TheRules(true), job, tries, ok)
      ensures !through ==> tries < retries
    {
      hide Attempt, Get, Put;
      var ok := ApplyUserData(job.msg, true, job.env(tries));
      through := ok || job.env(tries).cancelled || tries >= retries;
    }

    /** The worker pool of a bulk repopulation, one attempt at a time: idle workers take the
        next message from the queue, and the attempts of the messages in hand run in any
        order. `log` lists the messages in the order of their attempts. */
    method ApplyRepopulateBulk(jobs: seq<Job>) returns (log: seq<nat>)
      requires Valid()
      modifies store`users, backends`members
      ensures Valid()
      ensures Completes(TheRules(true), jobs, old(Now()), log)
      ensures Now() == Run(TheRules(true), jobs, old(Now()), log).st
    {
      hide Attempt, Get, Put, Through, Run, InHands, AttemptsLeft;
      log := [];
      RunNone(TheRules(true), jobs, Now());
      HandsStart(|jobs|);
      var pool := if workers > |jobs| then |jobs| else workers;
      ghost var st, rules := Now(), TheRules(true);
      var queued := 0;
      var inHand: seq<nat> := [];
      var progress := seq(|jobs|, _ => Progress(0, false));
      while queued < |jobs| || inHand != []
        invariant Valid() && TheRules(true) == rules
        invariant |progress| == |jobs| && queued <= |jobs|
        invariant Serial(Now(), progress) == Run(rules, jobs, st, log) && Names(log, |jobs|)
        invariant pool == 0 ==> |jobs| == 0
        invariant InHands(progress, queued, inHand)
        decreases |jobs| - queued + AttemptsLeft(progress, retries)
      {
        var take := inHand == [];
        if queued < |jobs| && |inHand| < pool && !take {
          take := *;
        }
        if queued < |jobs| && |inHand| < pool && take {
          HandsTake(progress, queued, inHand);
          inHand := inHand + [queued];
          queued := queued + 1;
        } else {
          var k: nat :| k < |inHand|;
          var j := inHand[k];
          HandsHold(progress, queued, inHand, k);
          var tries := progress[j].tries + 1;
          RunOneMore(rules, jobs, st, log, j);
          var through := AttemptJob(jobs[j], tries);
          AttemptSpent(progress, retries, j, Progress(tries, through));
          HandsTry(progress, queued, inHand, k, Progress(tries, through));
          progress := progress[j := Progress(tries, through)];
          log := log + [j];
          if through {
            inHand := inHand[..k] + inHand[k + 1..];
          }
        }
      }
      HandsDone(progress, queued);
    }

    /** A chunk of messages: through the pool when it is long enough, else one by one. */
    method ApplyRepopulateChunk(jobs: seq<Job>)
      requires Valid()
      modifies store`users, backends`members
      ensures Valid()
      ensures Serialised(TheRules(true), jobs, old(Now()), Now())
    {
      hide Get, Put, Run, Retried;
      ghost var st, rules := Now(), TheRules(true);
      InOrderIsSerial(rules, st, jobs);
      if |jobs| == 0 {
        return;
      }
      if |jobs| >= bulkThreshold {
        var log := ApplyRepopulateBulk(jobs);
        return;
      }
      for k := 0 to |jobs|
        invariant Valid() && TheRules(true) == rules
        invariant Now() == InOrder(rules, st, jobs[..k])
      {
        assert jobs[..k + 1][..k] == jobs[..k];
        var _ := ApplyUserDataWithRetry(jobs[k], true);
      }
      assert jobs[..|jobs|] == jobs;
    }

    /** In a repopulation stream that started in state `st`: every message received was either
        applied, in whole chunks and once, or is still buffered. */
    ghost predicate Buffered(st: State, received: seq<Job>, applied: seq<Job>, buffer: seq<Job>)
      requires chunkSize >= 1
      reads store, backends
    {
      && applied + buffer == received
      && |buffer| < chunkSize && |applied| % chunkSize == 0
      && Serialised(TheRules(true), applied, st, Now())
    }

    /** One more message into the buffer, and the buffer applied once it holds a chunk. */
    method Buffer(job: Job, data: seq<Job>, ghost st: State, ghost received: seq<Job>, ghost applied: seq<Job>)
      returns (data': seq<Job>, ghost applied': seq<Job>)
      requires Valid() && Buffered(st, received, applied, data)
      modifies store`users, backends`members
      ensures Valid() && Buffered(st, received + [job], applied', data')
    {
      hide Serialised;
      ghost var mid := Now();
      data', applied' := data + [job], applied;
      assert applied + data' == received + [job];
      if |data'| >= chunkSize {
        ApplyRepopulateChunk(data');
        SerialisedConcat(TheRules(true), applied, data', st, mid, Now());
        ChunkAdded(|applied|, chunkSize);
        applied' := applied + data';
        data' := [];
      }
    }

    lemma BufferStarts(st: State)
      requires st == Now() && chunkSize >= 1
      ensures Buffered(st, [], [], []) && Ids([]) == {}
    {
      InOrderIsSerial(TheRules(true), st, []);
    }

    /** A stream that broke off: the whole chunks of what was received are applied. */
    lemma BrokenOff(st: State, received: seq<Job>, applied: seq<Job>, buffer: seq<Job>)
      requires chunkSize >= 1 && Buffered(st, received, applied, buffer)
      ensures Serialised(TheRules(true), received[..|received| / chunkSize * chunkSize], st, Now())
      ensures KeptOthers(received, st, Now())
    {
      hide Serialised, KeptOthers;
      WholeChunks(|applied|, |buffer|, chunkSize);
      assert applied == received[..|applied|];
      PrefixKeepsOthers(TheRules(true), received, |applied|, st, Now());
    }

    /** The end of a repopulation stream: the rest of the buffer, then the cleanup. */
    method FinishRepopulate(data: seq<Job>, keep: set<Uid>, cleanup: CleanupEnv,
                            ghost st: State, ghost received: seq<Job>, ghost applied: seq<Job>)
      requires Valid() && Buffered(st, received, applied, data) && keep == Ids(received) - {0}
      modifies store`users, backends`members
      ensures Valid()
      ensures Repopulates(TheRules(true), received, cleanup, st, Now())
    {
      hide Cleanup, Serialised;
      ghost var mid := Now();
      ApplyRepopulateChunk(data);
      SerialisedConcat(TheRules(true), applied, data, st, mid, Now());
      CleanupIgnoresZero(TheNode(), Now(), Ids(received), cleanup);
      CleanupRepopulateUsers(keep, cleanup);
    }

    /** The streaming call. `stream` holds the messages received before it ended as `end` says.
        A stream that opens with the repopulation marker and reaches its end repopulates; one
        that breaks off has applied its whole chunks and sweeps nobody; any other stream, one that
        opens with a message without a user included, applies its messages in order, in incremental
        mode, and touches nobody it does not name. */
    method SyncUsers(stream: seq<Job>, end: StreamEnd, cleanup: CleanupEnv)
      requires Valid()
      modifies store`users, backends`members
      ensures Valid()
      ensures stream != [] && stream[0].msg.id == 0 && stream[0].msg.username == "__marznode_repopulate__" ==>
                if end.Eof? then Repopulates(TheRules(true), stream[1..], cleanup, old(Now()), Now())
                else
                  && Serialised(TheRules(true), stream[1..][..(|stream| - 1) / chunkSize * chunkSize], old(Now()), Now())
                  && KeptOthers(stream[1..], old(Now()), Now())
      ensures !(stream != [] && stream[0].msg.id == 0 && stream[0].msg.username == "__marznode_repopulate__") ==>
                Now() == InOrder(TheRules(false), old(Now()), stream) && KeptOthers(stream, old(Now()), Now())
    {
      hide Get, Put, Repopulates, Serialised, KeptOthers, Retried, Ids, Buffered;
      ghost var st := Now();
      var repopulateMode := false;
      var first := true;
      var keep: set<Uid> := {};
      var repopulateData: seq<Job> := [];
      ghost var applied: seq<Job> := [];
      ghost var received: seq<Job> := [];
      for i := 0 to |stream|
        invariant Valid() && TheNode() == old(TheNode())
        invariant first <==> i == 0
        invariant repopulateMode <==> i > 0 && IsRepopulateMarker(stream[0].msg)
        invariant received == if repopulateMode then stream[1..i] else stream[..i]
        invariant !repopulateMode ==> Now() == InOrder(TheRules(false), st, received)
        invariant repopulateMode ==> Buffered(st, received, applied, repopulateData)
        invariant !repopulateMode ==> keep == {} && repopulateData == applied == []
        invariant repopulateMode ==> keep == Ids(received) - {0}
      {
        var job := stream[i];
        if first {
          first := false;
          if IsRepopulateMarker(job.msg) {
            repopulateMode := true;
            BufferStarts(st);
            assert received == [] == stream[1..1];
            continue;
          }
        }
        if repopulateMode {
          if job.msg.id != 0 {
            keep := keep + {job.msg.id};
          }
          IdsMore(received, job);
          repopulateData, applied := Buffer(job, repopulateData, st, received, applied);
          received := received + [job];
          continue;
        }
        assert (received + [job])[..|received|] == received;
        var _ := ApplyUserDataWithRetry(job, false);
        received := received + [job];
      }
      assert stream[..|stream|] == stream;
      if end.Eof? && repopulateMode {
        FinishRepopulate(repopulateData, keep, cleanup, st, received, applied);
      } else if repopulateMode {
        assert received == stream[1..];
        BrokenOff(st, received, applied, repopulateData);
      } else {
        InOrderIsSerial(TheRules(false), st, stream);
        PrefixKeepsOthers(TheRules(false), stream, |stream|, st, Now());
      }
    }

    /** The unary call: the whole list through the pool, then the cleanup. */
    method RepopulateUsers(usersData: seq<Job>, cleanup: CleanupEnv)
      requires Valid()
      modifies store`users, backends`members
      ensures Valid()
      ensures Repopulates(TheRules(true), usersData, cleanup, old(Now()), Now())
    {
      hide Run, Cleanup;
      InOrderIsSerial(TheRules(true), Now(), usersData);
      if |usersData| > 0 {
        var log := ApplyRepopulateBulk(usersData);
      }
      var keep := CollectIds(usersData);
      CleanupRepopulateUsers(keep, cleanup);
    }
  }
}
