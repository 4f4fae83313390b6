/** What one message does to one user, stated on values: the plan an attempt follows, the
    effect of a partly failed plan, and the laws of force and incremental mode. */
module Reconcile {
  import opened Model

  /** What the node currently serves: the registered inbounds, and the tags that some
      backend answers for. */
  datatype Node = Node(inbounds: map<Tag, Inbound>, covered: set<Tag>)
  {
    /** Inbounds are registered under their own non-empty tag, and a backend only answers
        for tags it has registered. */
    ghost predicate Valid() {
      && (forall t :: t in inbounds ==> inbounds[t].tag == t)
      && "" !in inbounds
      && covered <= inbounds.Keys
    }
  }

  /** Permission on one inbound under one username. */
  datatype Grant = Grant(tag: Tag, name: string)

  /** Everything the node holds about one user id. */
  datatype Slice = Slice(stored: Option<Account>, on: set<Grant>)

  /** The calls an attempt will make under `name`, and the store entry it ends with. */
  datatype Plan = Plan(name: string, revoke: set<Tag>, grant: set<Tag>, after: Option<Account>)

  /** The inbounds a tag list stands for. The list that is empty once blank tags are dropped
      stands for every registered inbound. */
  function Resolve(node: Node, tags: set<Tag>): set<Inbound> {
    var unique := tags - {""};
    if unique == {} then node.inbounds.Values
    else set t | t in unique && t in node.inbounds :: node.inbounds[t]
  }

  function ResolveTags(node: Node, tags: set<Tag>): set<Tag> {
    var unique := tags - {""};
    if unique == {} then node.inbounds.Keys else unique * node.inbounds.Keys
  }

  function PlanFor(node: Node, stored: Option<Account>, msg: UserData, force: bool): Plan {
    var desired := Elements(msg.tags);
    if !msg.Valid() then Plan("", {}, {}, stored)
    else if stored.None? && msg.tags == [] then Plan("", {}, {}, None)
    else if stored.None? then
      var additions := Resolve(node, desired);
      Plan(msg.username, {}, TagsOf(additions), Some(Account(msg.id, msg.username, msg.key, additions)))
    else if msg.tags == [] then
      Plan(stored.value.username, TagsOf(stored.value.inbounds), {}, None)
    else
      var current := TagsOf(stored.value.inbounds);
      var target := Resolve(node, desired);
      var removed := TagsOf(Resolve(node, current - desired));
      var added := if force then TagsOf(target) else TagsOf(Resolve(node, desired - current));
      Plan(stored.value.username, removed, added, Some(stored.value.(inbounds := target)))
  }

  /** The grants a call on each of `tags` touches; tags without a backend are skipped. */
  function Grants(node: Node, name: string, tags: set<Tag>): set<Grant> {
    set t | t in tags && t in node.covered :: Grant(t, name)
  }

  /** The tags on which the call takes effect, be it reported as a success or not. */
  function Effective(tags: set<Tag>, call: Tag -> Outcome): set<Tag> {
    set t | t in tags && call(t) != FailedUntouched
  }

  predicate AllDone(node: Node, tags: set<Tag>, call: Tag -> Outcome) {
    forall t :: t in tags && t in node.covered ==> call(t) == Done
  }

  function RunGrants(node: Node, s: Slice, plan: Plan, env: Env): (Slice, bool) {
    var on := s.on + Grants(node, plan.name, Effective(plan.grant, env.add));
    if AllDone(node, plan.grant, env.add) then (Slice(plan.after, on), true)
    else (Slice(s.stored, on), false)
  }

  /** Every removal is tried; additions are tried only when no removal failed; the store is
      written only when no addition failed. */
  function RunPlan(node: Node, s: Slice, plan: Plan, env: Env): (Slice, bool) {
    var revoked := s.(on := s.on - Grants(node, plan.name, Effective(plan.revoke, env.remove)));
    if AllDone(node, plan.revoke, env.remove) then RunGrants(node, revoked, plan, env)
    else (revoked, false)
  }

  /** One attempt to apply `msg` to the slice of its user id. */
  function Attempt(node: Node, s: Slice, msg: UserData, force: bool, env: Env): (Slice, bool) {
    RunPlan(node, s, PlanFor(node, s.stored, msg, force), env)
  }

  /** Attempts `attempt`, `attempt + 1`, ... until one succeeds, the context is cancelled,
      or `retries` attempts have been made. */
  function Retry(node: Node, s: Slice, job: Job, force: bool, retries: nat, attempt: nat): (Slice, bool)
    decreases retries - attempt
  {
    var (s', ok) := Attempt(node, s, job.msg, force, job.env(attempt));
    if ok || job.env(attempt).cancelled || attempt >= retries then (s', ok)
    else Retry(node, s', job, force, retries, attempt + 1)
  }

  /** The answers of backends that never fail. */
  const FAULTLESS: Env := Env(_ => Done, _ => Done, false)

  /** The plan carried out completely. */
  function Complete(node: Node, s: Slice, plan: Plan): Slice {
    Slice(plan.after, s.on - Grants(node, plan.name, plan.revoke) + Grants(node, plan.name, plan.grant))
  }

  /** `s` is `s0` with any part of the plan's calls carried out and the store not yet written. */
  predicate Partly(node: Node, plan: Plan, s0: Slice, s: Slice) {
    && s.stored == s0.stored
    && s.on <= s0.on + Grants(node, plan.name, plan.grant)
    && s0.on - Grants(node, plan.name, plan.revoke) <= s.on
  }

  /** A failed attempt leaves the store alone and any part of its calls done; a successful
      one carries out the whole plan, whatever part earlier attempts already did. */
  lemma AttemptCases(node: Node, s0: Slice, s: Slice, msg: UserData, force: bool, env: Env)
    requires Partly(node, PlanFor(node, s0.stored, msg, force), s0, s)
    ensures var plan := PlanFor(node, s0.stored, msg, force);
            var (s', ok) := Attempt(node, s, msg, force, env);
            if ok then s' == Complete(node, s0, plan) else Partly(node, plan, s0, s')
  {
    var plan := PlanFor(node, s0.stored, msg, force);
    var revoked := s.on - Grants(node, plan.name, Effective(plan.revoke, env.remove));
    if AllDone(node, plan.revoke, env.remove) {
      assert Grants(node, plan.name, Effective(plan.revoke, env.remove)) == Grants(node, plan.name, plan.revoke);
      if AllDone(node, plan.grant, env.add) {
        assert Grants(node, plan.name, Effective(plan.grant, env.add)) == Grants(node, plan.name, plan.grant);
        assert revoked + Grants(node, plan.name, plan.grant)
            == s0.on - Grants(node, plan.name, plan.revoke) + Grants(node, plan.name, plan.grant);
      }
    }
  }

  /** With backends that never fail, one attempt always succeeds and does the whole plan. */
  lemma FaultlessAttempt(node: Node, s: Slice, msg: UserData, force: bool)
    ensures Attempt(node, s, msg, force, FAULTLESS) == (Complete(node, s, PlanFor(node, s.stored, msg, force)), true)
  {
    AttemptCases(node, s, s, msg, force, FAULTLESS);
  }

  /** Retry convergence, in both modes and from every slice: after any number of failed
      attempts, each leaving any part of its calls done, a retried apply that succeeds ends
      exactly where one faultless attempt would have, and one that gives up has left the
      store alone and stayed within the plan's calls. */
  lemma {:induction false} RetryConverges(
    node: Node, s0: Slice, s: Slice, job: Job, force: bool, retries: nat, attempt: nat)
    requires Partly(node, PlanFor(node, s0.stored, job.msg, force), s0, s)
    ensures var (s', ok) := Retry(node, s, job, force, retries, attempt);
            if ok then s' == Attempt(node, s0, job.msg, force, FAULTLESS).0
            else Partly(node, PlanFor(node, s0.stored, job.msg, force), s0, s')
    decreases retries - attempt
  {
    AttemptCases(node, s0, s, job.msg, force, job.env(attempt));
    FaultlessAttempt(node, s0, job.msg, force);
    var (s', ok) := Attempt(node, s, job.msg, force, job.env(attempt));
    if !(ok || job.env(attempt).cancelled || attempt >= retries) {
      RetryConverges(node, s0, s', job, force, retries, attempt + 1);
    }
  }

  /** Attempts 1 to `n`, each on what the one before left; the last one's success. */
  function AfterAttempts(node: Node, s: Slice, job: Job, force: bool, n: nat): (Slice, bool) {
    if n == 0 then (s, false)
    else Attempt(node, AfterAttempts(node, s, job, force, n - 1).0, job.msg, force, job.env(n))
  }

  /** Retrying stops at the first attempt that succeeds or finds the context cancelled, and after
      `retries` attempts at the latest, though never before the first. */
  lemma {:induction false} RetryStops(node: Node, s0: Slice, s: Slice, job: Job, force: bool, retries: nat, attempt: nat)
    returns (n: nat)
    requires attempt >= 1 && (attempt == 1 || attempt <= retries)
    requires s == AfterAttempts(node, s0, job, force, attempt - 1).0
    ensures attempt <= n && (n == 1 || n <= retries)
    ensures Retry(node, s, job, force, retries, attempt) == AfterAttempts(node, s0, job, force, n)
    ensures AfterAttempts(node, s0, job, force, n).1 || job.env(n).cancelled || n >= retries
    ensures forall k :: attempt <= k < n ==> !AfterAttempts(node, s0, job, force, k).1 && !job.env(k).cancelled
    decreases retries - attempt
  {
    hide Attempt;
    var (s', ok) := Attempt(node, s, job.msg, force, job.env(attempt));
    if ok || job.env(attempt).cancelled || attempt >= retries {
      n := attempt;
    } else {
      n := RetryStops(node, s0, s', job, force, retries, attempt + 1);
    }
  }

  /** The grants that a stored user's inbounds call for on the running backends. */
  function Entitled(node: Node, stored: Option<Account>): set<Grant> {
    if stored.None? then {}
    else Grants(node, stored.value.username, TagsOf(stored.value.inbounds))
  }

  /** Store and backends agree about this user. */
  predicate Agrees(node: Node, s: Slice) {
    s.on == Entitled(node, s.stored)
  }

  /** The store entry a message asks for: gone without inbounds, otherwise on the resolved
      inbounds, under the name and key of the first insertion. */
  function Wanted(node: Node, stored: Option<Account>, msg: UserData): Option<Account> {
    if !msg.Valid() then stored
    else if msg.tags == [] then None
    else
      var target := Resolve(node, Elements(msg.tags));
      if stored.Some? then Some(stored.value.(inbounds := target))
      else Some(Account(msg.id, msg.username, msg.key, target))
  }

  lemma ResolvedTags(node: Node, tags: set<Tag>)
    requires node.Valid()
    ensures TagsOf(Resolve(node, tags)) == ResolveTags(node, tags)
  {
  }

  /** In so many words: blanks do not count, unknown tags are dropped, and nothing but blanks stands for
      every registered inbound. */
  lemma ResolvesTo(node: Node, tags: set<Tag>)
    requires node.Valid()
    ensures TagsOf(Resolve(node, tags)) == if tags <= {""} then node.inbounds.Keys else tags * node.inbounds.Keys
    ensures Resolve(node, tags) <= node.inbounds.Values
  {
    ResolvedTags(node, tags);
  }

  /** The exact effect of the calls, under all answers: every removal is made even if another fails;
      additions are made just if no removal failed, and then all of them; a call takes effect
      unless its answer says otherwise, and tags without a backend are skipped. The store is written
      if and only if no call failed. */
  lemma AttemptCalls(node: Node, s: Slice, msg: UserData, force: bool, env: Env, g: Grant)
    ensures var plan := PlanFor(node, s.stored, msg, force);
            var (s', ok) := Attempt(node, s, msg, force, env);
            var passed := forall t :: t in plan.revoke && t in node.covered ==> env.remove(t) == Done;
            var added := forall t :: t in plan.grant && t in node.covered ==> env.add(t) == Done;
            var revoked := g.name == plan.name && g.tag in node.covered && g.tag in plan.revoke
                           && env.remove(g.tag) != FailedUntouched;
            var granted := g.name == plan.name && g.tag in node.covered && g.tag in plan.grant
                           && env.add(g.tag) != FailedUntouched;
            && (ok <==> passed && added)
            && s'.stored == (if ok then plan.after else s.stored)
            && (g in s'.on <==> (passed && granted) || (g in s.on && !revoked))
  {
  }

  lemma SameGrants(node: Node, name: string, a: set<Tag>, b: set<Tag>)
    requires a * node.covered == b * node.covered
    ensures Grants(node, name, a) == Grants(node, name, b)
  {
    forall t ensures t in a && t in node.covered <==> t in b && t in node.covered {
      assert t in a * node.covered <==> t in b * node.covered;
    }
  }

  /** The grants that calls on resolved tags are about. */
  lemma ResolvedGrants(node: Node, name: string, tags: set<Tag>)
    requires node.Valid()
    ensures Grants(node, name, TagsOf(Resolve(node, tags)))
         == Grants(node, name, if tags <= {""} then node.covered else tags)
  {
    ResolvesTo(node, tags);
    SameGrants(node, name, TagsOf(Resolve(node, tags)), if tags <= {""} then node.covered else tags);
  }

  /** From `s` to `s'` by calls under `name`: removals from all of `leaves`, even if one fails, then,
      if none failed, additions to all of `joins`, and the store set to `after` if none of these
      failed either. A call takes effect on `g` unless its answer says otherwise, and tags without a
      backend are skipped. */
  ghost predicate CallsMade(node: Node, s: Slice, name: string, leaves: set<Tag>, joins: set<Tag>,
                            after: Option<Account>, env: Env, s': Slice, ok: bool, g: Grant) {
    var passed := forall t :: t in leaves && t in node.covered ==> env.remove(t) == Done;
    var added := forall t :: t in joins && t in node.covered ==> env.add(t) == Done;
    var revoked := g.name == name && g.tag in node.covered && g.tag in leaves && env.remove(g.tag) != FailedUntouched;
    var granted := g.name == name && g.tag in node.covered && g.tag in joins && env.add(g.tag) != FailedUntouched;
    && (ok <==> passed && added)
    && s'.stored == (if ok then after else s.stored)
    && (g in s'.on <==> (passed && granted) || (g in s.on && !revoked))
  }

  /** An attempt in full, in each mode, for every slice and all answers: which calls it makes and what
      is left of them. What is asked for is every inbound if only blanks are; a user that leaves
      nothing is taken off everything, and an incremental update that adds nothing adds everything. */
  lemma AttemptInFull(node: Node, s: Slice, msg: UserData, force: bool, env: Env, g: Grant)
    requires node.Valid()
    ensures var (s', ok) := Attempt(node, s, msg, force, env);
            var desired := Elements(msg.tags);
            var asked := if desired <= {""} then node.covered else desired;
            if msg.id == 0 || msg.username == "" || (s.stored.None? && msg.tags == []) then ok && s' == s
            else if s.stored.None? then
              var user := Account(msg.id, msg.username, msg.key, Resolve(node, desired));
              CallsMade(node, s, msg.username, {}, asked, Some(user), env, s', ok, g)
            else
              var user := s.stored.value;
              if msg.tags == [] then CallsMade(node, s, user.username, TagsOf(user.inbounds), {}, None, env, s', ok, g)
              else
                var left, joined := TagsOf(user.inbounds) - desired - {""}, desired - TagsOf(user.inbounds) - {""};
                CallsMade(node, s, user.username, if left == {} then node.covered else left,
                          if force then asked else if joined == {} then node.covered else joined,
                          Some(user.(inbounds := Resolve(node, desired))), env, s', ok, g)
  {
    hide Attempt, Resolve, TagsOf;
    var plan, desired := PlanFor(node, s.stored, msg, force), Elements(msg.tags);
    AttemptCalls(node, s, msg, force, env, g);
    ResolvedCovered(node, desired);
    if s.stored.Some? {
      ResolvedCovered(node, TagsOf(s.stored.value.inbounds) - desired);
      ResolvedCovered(node, desired - TagsOf(s.stored.value.inbounds));
    }
    if !msg.Valid() || (s.stored.None? && msg.tags == []) {
      NothingAsked(node, s, msg, force, env);
    }
  }

  lemma NothingAsked(node: Node, s: Slice, msg: UserData, force: bool, env: Env)
    requires !msg.Valid() || (s.stored.None? && msg.tags == [])
    ensures Attempt(node, s, msg, force, env) == (s, true)
  {
    forall g ensures g in Attempt(node, s, msg, force, env).0.on <==> g in s.on {
      AttemptCalls(node, s, msg, force, env, g);
    }
    AttemptCalls(node, s, msg, force, env, Grant("", ""));
    assert Attempt(node, s, msg, force, env).0.on == s.on;
  }

  lemma ResolvedCovered(node: Node, tags: set<Tag>)
    requires node.Valid()
    ensures forall t :: t in node.covered ==> (t in TagsOf(Resolve(node, tags)) <==> tags - {""} == {} || t in tags - {""})
  {
    ResolvesTo(node, tags);
  }

  /** A stored user in force mode, from any slice: it is first taken off the inbounds it is to leave, or
      off every inbound if there is none to leave, and then put on all those asked for, or on every
      inbound if only blanks are asked for. */
  lemma ForceEffect(node: Node, s: Slice, msg: UserData, env: Env)
    requires node.Valid() && msg.Valid() && s.stored.Some? && msg.tags != []
    requires Attempt(node, s, msg, true, env).1
    ensures var (user, desired) := (s.stored.value, Elements(msg.tags));
            var left := TagsOf(user.inbounds) - desired - {""};
            Attempt(node, s, msg, true, env).0.on
            == s.on - Grants(node, user.username, if left == {} then node.covered else left)
               + Grants(node, user.username, if desired <= {""} then node.covered else desired)
    ensures Attempt(node, s, msg, true, env).0.stored
         == Some(s.stored.value.(inbounds := Resolve(node, Elements(msg.tags))))
  {
    hide Attempt, Grants, Resolve;
    var name, gone := s.stored.value.username, TagsOf(s.stored.value.inbounds) - Elements(msg.tags);
    AttemptCases(node, s, s, msg, true, env);
    ResolvedGrants(node, name, gone);
    ResolvedGrants(node, name, Elements(msg.tags));
    SameGrants(node, name, gone, gone - {""});
  }

  /** The same in incremental mode, where only inbounds the user is not stored on are added, or every
      inbound if there is none of these. */
  lemma IncrementalCalls(node: Node, s: Slice, msg: UserData, env: Env)
    requires node.Valid() && msg.Valid() && s.stored.Some? && msg.tags != []
    requires Attempt(node, s, msg, false, env).1
    ensures var (user, desired) := (s.stored.value, Elements(msg.tags));
            var left, joined := TagsOf(user.inbounds) - desired - {""}, desired - TagsOf(user.inbounds) - {""};
            Attempt(node, s, msg, false, env).0.on
            == s.on - Grants(node, user.username, if left == {} then node.covered else left)
               + Grants(node, user.username, if joined == {} then node.covered else joined)
    ensures Attempt(node, s, msg, false, env).0.stored
         == Some(s.stored.value.(inbounds := Resolve(node, Elements(msg.tags))))
  {
    hide Attempt, Grants, Resolve;
    var name, gone := s.stored.value.username, TagsOf(s.stored.value.inbounds) - Elements(msg.tags);
    var come := Elements(msg.tags) - TagsOf(s.stored.value.inbounds);
    AttemptCases(node, s, s, msg, false, env);
    ResolvedGrants(node, name, gone);
    ResolvedGrants(node, name, come);
    SameGrants(node, name, gone, gone - {""});
    SameGrants(node, name, come, come - {""});
  }

  /** A user not stored yet, in either mode and from any slice: it is put on what is asked for, under
      the name and key of the message, and taken off nothing. */
  lemma InsertionEffect(node: Node, s: Slice, msg: UserData, force: bool, env: Env)
    requires node.Valid() && msg.Valid() && s.stored.None? && msg.tags != []
    requires Attempt(node, s, msg, force, env).1
    ensures var (s', desired) := (Attempt(node, s, msg, force, env).0, Elements(msg.tags));
            && s'.on == s.on + Grants(node, msg.username, if desired <= {""} then node.covered else desired)
            && s'.stored.Some? && s'.stored.value.id == msg.id && s'.stored.value.username == msg.username
            && s'.stored.value.key == msg.key
            && TagsOf(s'.stored.value.inbounds)
               == if desired <= {""} then node.inbounds.Keys else desired * node.inbounds.Keys
  {
    AttemptCases(node, s, s, msg, force, env);
    ResolvesTo(node, Elements(msg.tags));
  }

  /** An empty request, in either mode and from any slice: a stored user is taken off the inbounds it is
      stored on and dropped; one that is not stored is left as it is, and so is everybody whom an
      invalid message names. */
  lemma RemovalEffect(node: Node, s: Slice, msg: UserData, force: bool, env: Env)
    requires msg.tags == [] || !msg.Valid()
    requires Attempt(node, s, msg, force, env).1
    ensures Attempt(node, s, msg, force, env).0
         == if msg.id == 0 || msg.username == "" || s.stored.None? then s
            else Slice(None, s.on - Grants(node, s.stored.value.username, TagsOf(s.stored.value.inbounds)))
  {
    AttemptCases(node, s, s, msg, force, env);
  }

  /** Whether an attempt compares the requested tags with the stored ones to grant only the new
      ones: in incremental mode, for a stored user and a request that is not empty. */
  predicate OnlyTheNew(s: Slice, msg: UserData, force: bool) {
    !force && msg.Valid() && s.stored.Some? && msg.tags != []
  }

  /** Outside that case an attempt reconciles exactly: from an agreeing slice, every successful
      attempt, in whichever of the four stored/empty-request cases, ends in the agreeing slice
      that the message asks for. This includes the case where no tag is to be removed and the
      empty removal list resolves to every inbound. */
  lemma Reconciles(node: Node, s: Slice, msg: UserData, force: bool, env: Env)
    requires node.Valid() && Agrees(node, s) && !OnlyTheNew(s, msg, force)
    requires Attempt(node, s, msg, force, env).1
    ensures var s' := Attempt(node, s, msg, force, env).0;
            s'.stored == Wanted(node, s.stored, msg) && Agrees(node, s')
  {
  }

  /** Force mode from any slice, for instance one that earlier attempts at other messages gave up
      on: a successful attempt restores agreement if and only if all the user's grants are among
      those it calls the backends about. */
  lemma ForceHealsIff(node: Node, s: Slice, msg: UserData, env: Env)
    requires node.Valid() && msg.Valid()
    requires Attempt(node, s, msg, true, env).1
    ensures var plan := PlanFor(node, s.stored, msg, true);
            Agrees(node, Attempt(node, s, msg, true, env).0)
            <==> s.on <= Grants(node, plan.name, plan.revoke + plan.grant)
  {
    var plan := PlanFor(node, s.stored, msg, true);
    AttemptCases(node, s, s, msg, true, env);
    assert Entitled(node, plan.after) == Grants(node, plan.name, plan.grant);
    assert Grants(node, plan.name, plan.revoke + plan.grant)
        == Grants(node, plan.name, plan.revoke) + Grants(node, plan.name, plan.grant);
  }

  /** A message and the mode it is applied in. */
  datatype Ask = Ask(msg: UserData, force: bool)
  {
    function PlanOn(node: Node, stored: Option<Account>): Plan { PlanFor(node, stored, msg, force) }
  }

  /** All grants that the calls of a plan are about. */
  function CallsOf(node: Node, plan: Plan): set<Grant> {
    Grants(node, plan.name, plan.revoke + plan.grant)
  }

  /** What a plan that was given up may have changed. */
  function MayChange(node: Node, s: Slice, plan: Plan): set<Grant> {
    Grants(node, plan.name, plan.revoke) * s.on + (Grants(node, plan.name, plan.grant) - s.on)
  }

  function MayChangeAll(node: Node, s: Slice, asks: seq<Ask>): set<Grant> {
    if asks == [] then {}
    else MayChangeAll(node, s, asks[..|asks| - 1]) + MayChange(node, s, asks[|asks| - 1].PlanOn(node, s.stored))
  }

  /** The same answers to every attempt. */
  function Always(env: Env): nat -> Env {
    _ => env
  }

  function Retrying(node: Node, s: Slice, ask: Ask, answers: nat -> Env, retries: nat): (Slice, bool) {
    Retry(node, s, Job(ask.msg, answers), ask.force, retries, 1)
  }

  /** The slice after these messages, each with all its retries, and whether all were given up. */
  function GivingUp(node: Node, s: Slice, asks: seq<Ask>, answers: seq<nat -> Env>, retries: nat): (Slice, bool)
    requires |asks| == |answers|
  {
    if asks == [] then (s, true)
    else
      var k := |asks| - 1;
      var (half, all) := GivingUp(node, s, asks[..k], answers[..k], retries);
      var (half', ok) := Retrying(node, half, asks[k], answers[k], retries);
      (half', all && !ok)
  }

  /** A plan without a call about a covered tag succeeds under all answers. */
  lemma NoCallSucceeds(node: Node, s: Slice, ask: Ask, answers: nat -> Env, retries: nat)
    requires CallsOf(node, ask.PlanOn(node, s.stored)) == {}
    ensures Retrying(node, s, ask, answers, retries).1
  {
    var plan := ask.PlanOn(node, s.stored);
    forall t | t in plan.revoke + plan.grant ensures t !in node.covered {
      assert t in node.covered ==> Grant(t, plan.name) in CallsOf(node, plan);
    }
  }

  /** However often it failed before, a message that succeeds leaves its whole plan done. */
  lemma RetryCompletes(node: Node, s: Slice, ask: Ask, answers: nat -> Env, retries: nat)
    ensures var (s', ok) := Retrying(node, s, ask, answers, retries);
            if ok then s' == Complete(node, s, ask.PlanOn(node, s.stored))
            else Partly(node, ask.PlanOn(node, s.stored), s, s')
  {
    hide Retry, PlanFor, Attempt;
    RetryConverges(node, s, s, Job(ask.msg, answers), ask.force, retries, 1);
    FaultlessAttempt(node, s, ask.msg, ask.force);
  }

  lemma {:induction false} GivingUpChanges(node: Node, s: Slice, asks: seq<Ask>, answers: seq<nat -> Env>, retries: nat)
    requires |asks| == |answers| && GivingUp(node, s, asks, answers, retries).1
    ensures var half := GivingUp(node, s, asks, answers, retries).0;
            half.stored == s.stored && (half.on - s.on) + (s.on - half.on) <= MayChangeAll(node, s, asks)
    ensures forall i :: 0 <= i < |asks| ==> CallsOf(node, asks[i].PlanOn(node, s.stored)) != {}
  {
    hide Retrying, PlanFor, Grants;
    if asks == [] {
    } else {
      var k := |asks| - 1;
      GivingUpChanges(node, s, asks[..k], answers[..k], retries);
      var half := GivingUp(node, s, asks[..k], answers[..k], retries).0;
      RetryCompletes(node, half, asks[k], answers[k], retries);
      if CallsOf(node, asks[k].PlanOn(node, s.stored)) == {} {
        NoCallSucceeds(node, half, asks[k], answers[k], retries);
      }
      assert forall i :: 0 <= i < k ==> asks[..k][i] == asks[i];
    }
  }

  /** The same answers to an attempt that just failed leave everything as it is. */
  lemma AttemptAgain(node: Node, s: Slice, msg: UserData, force: bool, env: Env)
    requires !Attempt(node, s, msg, force, env).1
    ensures var half := Attempt(node, s, msg, force, env).0;
            Attempt(node, half, msg, force, env) == (half, false)
  {
    var plan := PlanFor(node, s.stored, msg, force);
    var revoked := Grants(node, plan.name, Effective(plan.revoke, env.remove));
    var granted := Grants(node, plan.name, Effective(plan.grant, env.add));
    assert s.on - revoked - revoked == s.on - revoked;
    assert s.on - revoked + granted - revoked + granted == s.on - revoked + granted;
  }

  lemma {:induction false} SameAnswers(node: Node, s: Slice, msg: UserData, force: bool, env: Env, retries: nat, attempt: nat)
    requires !Attempt(node, s, msg, force, env).1
    ensures Retry(node, s, Job(msg, Always(env)), force, retries, attempt) == Attempt(node, s, msg, force, env)
    decreases retries - attempt
  {
    hide Attempt;
    AttemptAgain(node, s, msg, force, env);
    if env.cancelled || attempt >= retries {
    } else {
      SameAnswers(node, Attempt(node, s, msg, force, env).0, msg, force, env, retries, attempt + 1);
    }
  }

  /** Every call fails, without effect or with it, and every addition likewise after removals that pass. */
  const UNTOUCHED: Env := Env(_ => FailedUntouched, _ => FailedUntouched, false)
  const REVOKED: Env := Env(_ => FailedUntouched, _ => FailedApplied, false)
  const GRANTED: Env := Env(_ => FailedApplied, _ => Done, false)

  lemma StubbornAttempts(node: Node, s: Slice, ask: Ask)
    ensures var plan := ask.PlanOn(node, s.stored);
            var revoked, granted := Grants(node, plan.name, plan.revoke), Grants(node, plan.name, plan.grant);
            && (CallsOf(node, plan) != {} ==> Attempt(node, s, ask.msg, ask.force, UNTOUCHED) == (s, false))
            && (revoked != {} ==> Attempt(node, s, ask.msg, ask.force, REVOKED) == (s.(on := s.on - revoked), false))
            && (granted != {} ==>
                  Attempt(node, s, ask.msg, ask.force, GRANTED) == (s.(on := s.on - revoked + granted), false))
  {
    var plan := ask.PlanOn(node, s.stored);
    assert Effective(plan.revoke, REVOKED.remove) == plan.revoke == Effective(plan.revoke, GRANTED.remove);
    assert Effective(plan.grant, GRANTED.add) == plan.grant;
    assert Grants(node, plan.name, Effective(plan.revoke, UNTOUCHED.remove)) == {};
    assert Grants(node, plan.name, Effective(plan.grant, UNTOUCHED.add)) == {};
    assert s.on - {} == s.on && s.on + {} == s.on && s.(on := s.on) == s;
    if g :| g in CallsOf(node, plan) {
      assert g.tag in plan.revoke + plan.grant && g.tag in node.covered;
    }
  }

  /** Each of these answers, given to every attempt, makes the message given up with that effect. */
  lemma StubbornRetries(node: Node, s: Slice, ask: Ask, retries: nat)
    ensures var plan := ask.PlanOn(node, s.stored);
            var revoked, granted := Grants(node, plan.name, plan.revoke), Grants(node, plan.name, plan.grant);
            && (CallsOf(node, plan) != {} ==> Retrying(node, s, ask, Always(UNTOUCHED), retries) == (s, false))
            && (revoked != {} ==> Retrying(node, s, ask, Always(REVOKED), retries) == (s.(on := s.on - revoked), false))
            && (granted != {} ==>
                  Retrying(node, s, ask, Always(GRANTED), retries) == (s.(on := s.on - revoked + granted), false))
  {
    hide Attempt, Retry, PlanFor, Grants;
    StubbornAttempts(node, s, ask);
    forall env | !Attempt(node, s, ask.msg, ask.force, env).1
      ensures Retrying(node, s, ask, Always(env), retries) == Attempt(node, s, ask.msg, ask.force, env)
    {
      SameAnswers(node, s, ask.msg, ask.force, env, retries, 1);
    }
  }

  lemma {:induction false} AllUntouched(node: Node, s: Slice, asks: seq<Ask>, retries: nat)
    returns (answers: seq<nat -> Env>)
    requires forall i :: 0 <= i < |asks| ==> CallsOf(node, asks[i].PlanOn(node, s.stored)) != {}
    ensures |answers| == |asks| && GivingUp(node, s, asks, answers, retries) == (s, true)
  {
    hide Retrying, PlanFor, Grants;
    if asks == [] {
      answers := [];
    } else {
      var k := |asks| - 1;
      var before := AllUntouched(node, s, asks[..k], retries);
      StubbornRetries(node, s, asks[k], retries);
      answers := before + [Always(UNTOUCHED)];
      assert answers[..k] == before;
    }
  }

  /** Each grant that the messages may have changed is changed under some answers. */
  lemma {:induction false} SomeChange(node: Node, s: Slice, asks: seq<Ask>, g: Grant, retries: nat)
    returns (answers: seq<nat -> Env>)
    requires forall i :: 0 <= i < |asks| ==> CallsOf(node, asks[i].PlanOn(node, s.stored)) != {}
    requires g in MayChangeAll(node, s, asks)
    ensures |answers| == |asks| && GivingUp(node, s, asks, answers, retries).1
    ensures g in GivingUp(node, s, asks, answers, retries).0.on <==> g !in s.on
  {
    hide Retrying, PlanFor, Grants;
    var k := |asks| - 1;
    var plan := asks[k].PlanOn(node, s.stored);
    var before, last;
    if g in MayChange(node, s, plan) {
      before := AllUntouched(node, s, asks[..k], retries);
      StubbornRetries(node, s, asks[k], retries);
      last := if g in s.on then Always(REVOKED) else Always(GRANTED);
    } else {
      before := SomeChange(node, s, asks[..k], g, retries);
      GivingUpChanges(node, s, asks[..k], before, retries);
      StubbornRetries(node, GivingUp(node, s, asks[..k], before, retries).0, asks[k], retries);
      last := Always(UNTOUCHED);
    }
    answers := before + [last];
    assert answers[..k] == before;
  }

  /** If all these messages are given up and the next succeeds, store and backends agree. */
  predicate Heals(node: Node, s: Slice, asks: seq<Ask>, answers: seq<nat -> Env>, next: Ask, last: nat -> Env, retries: nat)
    requires |asks| == |answers|
  {
    var (half, all) := GivingUp(node, s, asks, answers, retries);
    var (healed, ok) := Retrying(node, half, next, last, retries);
    all && ok ==> Agrees(node, healed)
  }

  /** A message with nothing to call cannot be given up; otherwise `next` must reconcile from `s`
      itself, and make a call about every grant that the others may have changed. */
  predicate MustHeal(node: Node, s: Slice, asks: seq<Ask>, next: Ask) {
    var plan := next.PlanOn(node, s.stored);
    || (exists i :: 0 <= i < |asks| && CallsOf(node, asks[i].PlanOn(node, s.stored)) == {})
    || (Agrees(node, Complete(node, s, plan)) && MayChangeAll(node, s, asks) <= CallsOf(node, plan))
  }

  lemma CompleteElsewhere(node: Node, s: Slice, half: Slice, plan: Plan)
    requires half.stored == s.stored && Agrees(node, Complete(node, s, plan))
    ensures Agrees(node, Complete(node, half, plan))
       <==> (half.on - s.on) + (s.on - half.on) <= CallsOf(node, plan)
  {
    var revoked, granted := Grants(node, plan.name, plan.revoke), Grants(node, plan.name, plan.grant);
    assert CallsOf(node, plan) == revoked + granted;
    var there, here := Complete(node, half, plan).on, Complete(node, s, plan).on;
    forall g ensures (g in there <==> g in here) <==> g in revoked + granted || (g in half.on <==> g in s.on) {
    }
  }

  /** The exact condition, on the messages and what was stored and held before them, in any mix of
      modes and from any slice: after messages that were given up, the next one that succeeds brings
      agreement, whatever the backends answered to all of them, if and only if `MustHeal`. */
  lemma GivenUpHealsIff(node: Node, s: Slice, asks: seq<Ask>, next: Ask, retries: nat)
    ensures (forall answers: seq<nat -> Env>, last: nat -> Env | |answers| == |asks| ::
               Heals(node, s, asks, answers, next, last, retries))
       <==> MustHeal(node, s, asks, next)
  {
    hide GivingUp, Retrying, PlanFor, Agrees, Complete, Grants;
    if MustHeal(node, s, asks, next) {
      forall answers: seq<nat -> Env>, last: nat -> Env | |answers| == |asks|
        ensures Heals(node, s, asks, answers, next, last, retries)
      {
        MustHealHeals(node, s, asks, answers, next, last, retries);
      }
    } else {
      var answers := NeedNotHeal(node, s, asks, next, retries);
      assert !Heals(node, s, asks, answers, next, Always(FAULTLESS), retries);
    }
  }

  lemma MustHealHeals(
    node: Node, s: Slice, asks: seq<Ask>, answers: seq<nat -> Env>, next: Ask, last: nat -> Env, retries: nat)
    requires |answers| == |asks| && MustHeal(node, s, asks, next)
    ensures Heals(node, s, asks, answers, next, last, retries)
  {
    hide GivingUp, Retrying, PlanFor, Agrees, Complete, Grants;
    var (half, all) := GivingUp(node, s, asks, answers, retries);
    if all {
      GivingUpChanges(node, s, asks, answers, retries);
      RetryCompletes(node, half, next, last, retries);
      CompleteElsewhere(node, s, half, next.PlanOn(node, s.stored));
    }
  }

  lemma NeedNotHeal(node: Node, s: Slice, asks: seq<Ask>, next: Ask, retries: nat)
    returns (answers: seq<nat -> Env>)
    requires !MustHeal(node, s, asks, next)
    ensures |answers| == |asks| && !Heals(node, s, asks, answers, next, Always(FAULTLESS), retries)
  {
    hide GivingUp, Retrying, PlanFor, Agrees, Complete, Grants;
    var plan := next.PlanOn(node, s.stored);
    if !Agrees(node, Complete(node, s, plan)) {
      answers := AllUntouched(node, s, asks, retries);
      FaultlessRetry(node, s, next, retries);
    } else {
      var g :| g in MayChangeAll(node, s, asks) && g !in CallsOf(node, plan);
      answers := SomeChange(node, s, asks, g, retries);
      var half := GivingUp(node, s, asks, answers, retries).0;
      GivingUpChanges(node, s, asks, answers, retries);
      FaultlessRetry(node, half, next, retries);
      CompleteElsewhere(node, s, half, plan);
    }
  }

  lemma FaultlessRetry(node: Node, s: Slice, ask: Ask, retries: nat)
    ensures Retrying(node, s, ask, Always(FAULTLESS), retries) == (Complete(node, s, ask.PlanOn(node, s.stored)), true)
  {
    FaultlessAttempt(node, s, ask.msg, ask.force);
  }

  /** Which grants an incremental attempt on a stored user leaves behind. */
  function IncrementalGrants(node: Node, user: Account, desired: set<Tag>): set<Grant> {
    var current := TagsOf(user.inbounds);
    var removed, added := current - desired - {""}, desired - current - {""};
    Grants(node, user.username,
           if added == {} then node.covered
           else if removed == {} then added
           else desired)
  }

  /** The effect of incremental mode on an already stored user: the requested tags when
      both difference sets are non-empty, only the new ones when nothing was to be removed,
      and every tag of every backend when nothing was to be added. */
  lemma IncrementalEffect(node: Node, s: Slice, msg: UserData, env: Env)
    requires node.Valid() && Agrees(node, s)
    requires msg.Valid() && s.stored.Some? && msg.tags != []
    requires Attempt(node, s, msg, false, env).1
    ensures var s' := Attempt(node, s, msg, false, env).0;
            && s'.stored == Wanted(node, s.stored, msg)
            && s'.on == IncrementalGrants(node, s.stored.value, Elements(msg.tags))
  {
  }

  /** What the caller can check before an incremental update to know that it will reconcile. */
  predicate IncrementalSafe(node: Node, user: Account, desired: set<Tag>) {
    var current := TagsOf(user.inbounds);
    var removed, added := current - desired - {""}, desired - current - {""};
    if added == {} then node.covered <= ResolveTags(node, desired)
    else removed != {} || current * node.covered == {}
  }

  /** Incremental mode ends in agreement if and only if `IncrementalSafe` held before. */
  lemma IncrementalReconcilesIff(node: Node, s: Slice, msg: UserData, env: Env)
    requires node.Valid() && Agrees(node, s)
    requires msg.Valid() && s.stored.Some? && msg.tags != []
    requires Attempt(node, s, msg, false, env).1
    ensures Agrees(node, Attempt(node, s, msg, false, env).0)
       <==> IncrementalSafe(node, s.stored.value, Elements(msg.tags))
  {
    IncrementalEffect(node, s, msg, env);
    var user, desired := s.stored.value, Elements(msg.tags);
    var s' := Attempt(node, s, msg, false, env).0;
    ResolvedTags(node, desired);
    var current := TagsOf(user.inbounds);
    forall t ensures Grant(t, user.username) in Entitled(node, s'.stored) <==> t in node.covered && t in ResolveTags(node, desired) {
    }
    var removed, added := current - desired - {""}, desired - current - {""};
    var left := if added == {} then node.covered else if removed == {} then added else desired;
    forall t ensures Grant(t, user.username) in s'.on <==> t in node.covered && t in left {
    }
    if IncrementalSafe(node, user, desired) {
      forall g ensures g in s'.on <==> g in Entitled(node, s'.stored) {
        if g.name == user.username {
          assert g == Grant(g.tag, user.username);
        }
      }
    } else if added == {} {
      var t :| t in node.covered && t !in ResolveTags(node, desired);
      assert Grant(t, user.username) in s'.on;
      assert Grant(t, user.username) !in Entitled(node, s'.stored);
    } else {
      var t :| t in current * node.covered;
      assert t in desired && t !in added;
      assert Grant(t, user.username) !in s'.on;
      assert Grant(t, user.username) in Entitled(node, s'.stored);
    }
  }

  lemma CompleteAgreesIff(node: Node, s: Slice, ask: Ask)
    requires node.Valid() && Agrees(node, s)
    ensures Agrees(node, Complete(node, s, ask.PlanOn(node, s.stored)))
       <==> (OnlyTheNew(s, ask.msg, ask.force) ==> IncrementalSafe(node, s.stored.value, Elements(ask.msg.tags)))
  {
    hide Attempt, Agrees, IncrementalSafe;
    FaultlessAttempt(node, s, ask.msg, ask.force);
    if OnlyTheNew(s, ask.msg, ask.force) {
      IncrementalReconcilesIff(node, s, ask.msg, FAULTLESS);
    } else {
      Reconciles(node, s, ask.msg, ask.force, FAULTLESS);
    }
  }

  /** From an agreeing slice the condition is on the messages and the stored user alone. */
  lemma MustHealFromAgreement(node: Node, s: Slice, asks: seq<Ask>, next: Ask)
    requires node.Valid() && Agrees(node, s)
    ensures MustHeal(node, s, asks, next)
       <==> || (exists i :: 0 <= i < |asks| && CallsOf(node, asks[i].PlanOn(node, s.stored)) == {})
            || (&& (OnlyTheNew(s, next.msg, next.force) ==>
                      IncrementalSafe(node, s.stored.value, Elements(next.msg.tags)))
                && MayChangeAll(node, s, asks) <= CallsOf(node, next.PlanOn(node, s.stored)))
  {
    hide PlanFor, Agrees, IncrementalSafe, MayChangeAll;
    CompleteAgreesIff(node, s, next);
  }

  /** For instance, in force mode a grant can stay. Take any user on `a` only who is to be on `a` and
      `b`. At every attempt `b` is granted and the call for `a` fails, so the message is given up.
      Then the user is moved to `c` without any failure, and keeps `b`. */
  lemma GivenUpGrantStays(node: Node, user: Account, a: Tag, b: Tag, c: Tag, retries: nat)
    requires node.Valid() && {a, b, c} <= node.covered && a != b && b != c && a != c
    requires user.id != 0 && user.username != "" && TagsOf(user.inbounds) == {a}
    ensures var s := Slice(Some(user), Entitled(node, Some(user)));
            var failing := Env((t: Tag) => if t == a then FailedUntouched else Done, _ => Done, false);
            var first := Ask(UserData(user.id, user.username, user.key, [a, b]), true);
            var next := Ask(UserData(user.id, user.username, user.key, [c]), true);
            var (half, ok) := Retrying(node, s, first, Always(failing), retries);
            var (moved, ok') := Retrying(node, half, next, Always(FAULTLESS), retries);
            && !ok && ok' && half.stored == s.stored
            && moved.stored.Some? && TagsOf(moved.stored.value.inbounds) == {c}
            && Grant(b, user.username) in moved.on
  {
    hide Resolve, TagsOf, Retry;
    var s := Slice(Some(user), Entitled(node, Some(user)));
    var failing := Env((t: Tag) => if t == a then FailedUntouched else Done, _ => Done, false);
    var first := Ask(UserData(user.id, user.username, user.key, [a, b]), true);
    var next := Ask(UserData(user.id, user.username, user.key, [c]), true);
    assert Elements(first.msg.tags) == {a, b} by { assert first.msg.tags[0] == a && first.msg.tags[1] == b; }
    assert Elements(next.msg.tags) == {c} by { assert next.msg.tags[0] == c; }
    ResolvedTags(node, {a, b});
    assert a in ResolveTags(node, {a, b}) && b in ResolveTags(node, {a, b});
    assert Grant(b, user.username) in Attempt(node, s, first.msg, true, failing).0.on;
    SameAnswers(node, s, first.msg, true, failing, retries, 1);
    ResolvedTags(node, {c});
    ResolvedTags(node, {a} - {c});
    assert ResolveTags(node, {c}) == {c} && ResolveTags(node, {a} - {c}) == {a};
    FaultlessRetry(node, Retrying(node, s, first, Always(failing), retries).0, next, retries);
  }

  /** And in incremental mode a revocation can stay. Take any user on `a` and `b` who is to be on `b`
      and `c`. At every attempt `a` is revoked and the call for `c` fails, so the message is given
      up. Then the user is to be on `a`, `c` and `d`, which is safe and succeeds without any failure:
      `a` is stored, and not granted. */
  lemma GivenUpRevocationStays(node: Node, user: Account, a: Tag, b: Tag, c: Tag, d: Tag, retries: nat)
    requires node.Valid() && {a, b, c, d} <= node.covered
    requires a != b && a != c && a != d && b != c && b != d && c != d
    requires user.id != 0 && user.username != "" && TagsOf(user.inbounds) == {a, b}
    ensures var s := Slice(Some(user), Entitled(node, Some(user)));
            var failing := Env(_ => FailedUntouched, _ => Done, false);
            var first := Ask(UserData(user.id, user.username, user.key, [b, c]), false);
            var next := Ask(UserData(user.id, user.username, user.key, [a, c, d]), false);
            var (half, ok) := Retrying(node, s, first, Always(failing), retries);
            var (moved, ok') := Retrying(node, half, next, Always(FAULTLESS), retries);
            && !ok && ok' && half.stored == s.stored && IncrementalSafe(node, user, Elements(next.msg.tags))
            && moved.stored.Some? && TagsOf(moved.stored.value.inbounds) == {a, c, d}
            && Grant(a, user.username) !in moved.on
  {
    hide Resolve, TagsOf, Retry;
    var s := Slice(Some(user), Entitled(node, Some(user)));
    var failing := Env(_ => FailedUntouched, _ => Done, false);
    var first := Ask(UserData(user.id, user.username, user.key, [b, c]), false);
    var next := Ask(UserData(user.id, user.username, user.key, [a, c, d]), false);
    assert Elements(first.msg.tags) == {b, c} by { assert first.msg.tags[0] == b && first.msg.tags[1] == c; }
    assert Elements(next.msg.tags) == {a, c, d} by {
      assert next.msg.tags[0] == a && next.msg.tags[1] == c && next.msg.tags[2] == d;
    }
    assert {a, b} - {b, c} == {a} && {b, c} - {a, b} == {c};
    assert {a, b} - {a, c, d} == {b} && {a, c, d} - {a, b} == {c, d};
    forall tags | tags in {{a}, {b}, {c}, {c, d}, {a, c, d}} ensures TagsOf(Resolve(node, tags)) == tags {
      ResolvedTags(node, tags);
      assert a in tags || b in tags || c in tags;
      assert tags - {""} == tags && tags * node.inbounds.Keys == tags;
    }
    SameAnswers(node, s, first.msg, false, failing, retries, 1);
    FaultlessRetry(node, Retrying(node, s, first, Always(failing), retries).0, next, retries);
  }

  /** Two inbounds, both served, and a user who is on the first, on both, or on neither. */
  const TWO_INBOUNDS: Node := Node(map["a" := Inbound("a", "vless", map[]), "b" := Inbound("b", "vless", map[])], {"a", "b"})

  function OnTags(tags: set<Tag>): Slice {
    var user := Account(1, "u", "k", set t | t in tags && t in TWO_INBOUNDS.inbounds :: TWO_INBOUNDS.inbounds[t]);
    Slice(Some(user), Entitled(TWO_INBOUNDS, Some(user)))
  }

  /** The first failing family: a user on "a" who is asked to be on "a" and "b" loses "a". */
  lemma IncrementalGrowthLosesOldTag()
    ensures var s, msg := OnTags({"a"}), UserData(1, "u", "k", ["a", "b"]);
            var s' := Attempt(TWO_INBOUNDS, s, msg, false, FAULTLESS).0;
            && Agrees(TWO_INBOUNDS, s) && TWO_INBOUNDS.Valid()
            && s'.stored == OnTags({"a", "b"}).stored
            && Grant("a", "u") !in s'.on
  {
    var s, msg := OnTags({"a"}), UserData(1, "u", "k", ["a", "b"]);
    var user, desired := s.stored.value, Elements(msg.tags);
    FaultlessAttempt(TWO_INBOUNDS, s, msg, false);
    IncrementalEffect(TWO_INBOUNDS, s, msg, FAULTLESS);
    assert user.inbounds == {TWO_INBOUNDS.inbounds["a"]};
    assert TagsOf(user.inbounds) == {"a"} by { assert TWO_INBOUNDS.inbounds["a"] in user.inbounds; }
    assert desired == {"a", "b"} by { assert msg.tags[0] == "a" && msg.tags[1] == "b"; }
    assert {"a"} - desired - {""} == {};
    assert "b" in desired - {"a"} - {""};
    assert Resolve(TWO_INBOUNDS, desired) == OnTags({"a", "b"}).stored.value.inbounds by {
      assert desired - {""} == {"a", "b"};
    }
  }

  /** The second failing family: a user on "a" and "b" who is asked to be on "a" only is
      granted "b" again. */
  lemma IncrementalShrinkKeepsOldTag()
    ensures var s, msg := OnTags({"a", "b"}), UserData(1, "u", "k", ["a"]);
            var s' := Attempt(TWO_INBOUNDS, s, msg, false, FAULTLESS).0;
            && Agrees(TWO_INBOUNDS, s) && TWO_INBOUNDS.Valid()
            && s'.stored == OnTags({"a"}).stored
            && Grant("b", "u") in s'.on
  {
    var s, msg := OnTags({"a", "b"}), UserData(1, "u", "k", ["a"]);
    var user, desired := s.stored.value, Elements(msg.tags);
    FaultlessAttempt(TWO_INBOUNDS, s, msg, false);
    IncrementalEffect(TWO_INBOUNDS, s, msg, FAULTLESS);
    assert desired == {"a"} by { assert msg.tags[0] == "a"; }
    assert desired - TagsOf(user.inbounds) - {""} == {} by {
      assert TWO_INBOUNDS.inbounds["a"] in user.inbounds;
    }
    assert Resolve(TWO_INBOUNDS, desired) == OnTags({"a"}).stored.value.inbounds by {
      assert desired - {""} == {"a"};
    }
  }
}
