/** The supervisor of the sing-box child process: starting a child, the goroutine that waits for
    each child, and the one-slot channel of exit tokens, step by step. */
module SingboxRunner {
  import opened Model

  /** The goroutine of one child: not yet started, in the wait for the child, past it, past the
      section in which it cleared the current child, and through. `cleared` tells whether it was
      the current child that it waited for. */
  datatype Waiter = Unstarted | Waiting | Returned | Sending | Over(cleared: bool)

  datatype Child = Child(live: bool, waiter: Waiter)

  /** Where a call to start is; it holds the mutex all along. */
  datatype Starter = NoCall | Checked | Spawned | Drained

  /** Children are numbered in the order they were spawned. A token names the child it is for;
      `taken` are the tokens received so far. */
  datatype State = State(
    children: seq<Child>, current: Option<nat>, starter: Starter, channel: Option<nat>, taken: seq<nat>)

  datatype Action =
    | CallStart
    | Spawn(ok: bool)
    | Drain
    | Install
    | Exit(p: nat)
    | Wait(p: nat)
    | Receive

  function Initial(): State {
    State([], None, NoCall, None, [])
  }

  /** The process state of a child is known once its wait has returned. */
  predicate Running(s: State) {
    && s.current.Some? && s.current.value < |s.children|
    && (s.children[s.current.value].waiter.Unstarted? || s.children[s.current.value].waiter.Waiting?)
  }

  predicate WaiterCanMove(s: State, child: Child) {
    match child.waiter
    case Waiting => !child.live
    case Returned => s.starter.NoCall?
    case Sending => true
    case _ => false
  }

  predicate Enabled(s: State, a: Action) {
    match a
    case CallStart => s.starter.NoCall?
    case Spawn(_) => s.starter.Checked?
    case Drain => s.starter.Spawned?
    case Install => s.starter.Drained? && |s.children| > 0
    case Exit(p) => p < |s.children| && s.children[p].live
    case Wait(p) => p < |s.children| && WaiterCanMove(s, s.children[p])
    case Receive => s.channel.Some?
  }

  function Take(s: State): State {
    match s.channel
    case None => s
    case Some(p) => s.(channel := None, taken := s.taken + [p])
  }

  function SetWaiter(s: State, p: nat, waiter: Waiter): State
    requires p < |s.children|
  {
    s.(children := s.children[p := s.children[p].(waiter := waiter)])
  }

  function WaitStep(s: State, p: nat): State
    requires p < |s.children|
  {
    match s.children[p].waiter
    case Waiting => SetWaiter(s, p, Returned)
    case Returned =>
      if s.current == Some(p) then SetWaiter(s, p, Sending).(current := None)
      else SetWaiter(s, p, Over(false))
    case Sending =>
      var over := SetWaiter(s, p, Over(true));
      if s.channel.None? then over.(channel := Some(p)) else over
    case _ => s
  }

  function Next(s: State, a: Action): State
    requires Enabled(s, a)
  {
    match a
    case CallStart => if Running(s) then s else s.(starter := Checked)
    case Spawn(ok) =>
      if ok then s.(starter := Spawned, children := s.children + [Child(true, Unstarted)])
      else s.(starter := NoCall)
    case Drain => Take(s).(starter := Drained)
    case Install =>
      var p := |s.children| - 1;
      SetWaiter(s, p, Waiting).(starter := NoCall, current := Some(p))
    case Exit(p) => s.(children := s.children[p := s.children[p].(live := false)])
    case Wait(p) => WaitStep(s, p)
    case Receive => Take(s)
  }

  /** The child being started, if any; it is the newest. */
  predicate BeingStarted(s: State, p: nat) {
    p == |s.children| - 1 && (s.starter.Spawned? || s.starter.Drained?)
  }

  predicate ChildInOrder(s: State, p: nat)
    requires p < |s.children|
  {
    var child := s.children[p];
    && (child.waiter.Unstarted? <==> BeingStarted(s, p))
    && (!child.waiter.Unstarted? && !child.waiter.Waiting? ==> !child.live)
    && (child.waiter.Waiting? ==> s.current == Some(p) && s.starter.NoCall?)
    && (child.waiter.Returned? && s.current != Some(p) ==> p < |s.children| - 1)
    && (child.waiter.Over? && !child.waiter.cleared ==> p < |s.children| - 1)
  }

  /** The tokens received and the one in the channel. */
  function Tokens(s: State): seq<nat> {
    s.taken + match s.channel case None => [] case Some(p) => [p]
  }

  predicate Through(s: State, p: nat) {
    p < |s.children| && s.children[p].waiter == Over(true)
  }

  /** A token is for a child whose goroutine cleared it and is through; there is one for each
      such child at most. */
  predicate TokensInOrder(s: State) {
    NoRepeats(Tokens(s)) && forall i :: 0 <= i < |Tokens(s)| ==> Through(s, Tokens(s)[i])
  }

  predicate CurrentInOrder(s: State) {
    s.current.Some? ==>
      && s.current.value < |s.children|
      && !s.children[s.current.value].waiter.Sending? && !s.children[s.current.value].waiter.Over?
      && s.current.value == |s.children| - (if s.starter.Spawned? || s.starter.Drained? then 2 else 1)
  }

  predicate Invariant(s: State) {
    && (forall p :: 0 <= p < |s.children| ==> ChildInOrder(s, p))
    && CurrentInOrder(s)
    && (s.starter.Spawned? || s.starter.Drained? ==> |s.children| > 0)
    && TokensInOrder(s)
  }

  lemma StarterKeeps(s: State, a: Action)
    requires Invariant(s) && Enabled(s, a) && (a.CallStart? || a.Spawn? || a.Drain? || a.Install? || a.Receive?)
    ensures Invariant(Next(s, a))
  {
    hide TokensInOrder;
    var s' := Next(s, a);
    TakenInOrder(s);
    forall p | 0 <= p < |s'.children| ensures ChildInOrder(s', p) {
      if p < |s.children| { assert ChildInOrder(s, p); }
    }
    if a.Install? { assert ChildInOrder(s, |s.children| - 1); }
    TokensStay(if a.Drain? || a.Receive? then Take(s) else s, s');
  }

  lemma ExitKeeps(s: State, p: nat)
    requires Invariant(s) && p < |s.children| && s.children[p].live
    ensures Invariant(Next(s, Exit(p)))
  {
    hide TokensInOrder;
    var s' := Next(s, Exit(p));
    forall q | 0 <= q < |s'.children| ensures ChildInOrder(s', q) {
      assert ChildInOrder(s, q);
    }
    TokensStay(s, s');
  }

  lemma WaitKeeps(s: State, p: nat)
    requires Invariant(s) && p < |s.children| && WaiterCanMove(s, s.children[p])
    ensures Invariant(WaitStep(s, p))
  {
    hide TokensInOrder;
    var s' := WaitStep(s, p);
    assert ChildInOrder(s, p);
    forall q | 0 <= q < |s'.children| ensures ChildInOrder(s', q) {
      assert ChildInOrder(s, q);
    }
    if s.children[p].waiter.Sending? {
      SendKeepsTokens(s, p);
    } else {
      TokensStay(s, s');
    }
  }

  lemma TakenInOrder(s: State)
    requires TokensInOrder(s)
    ensures TokensInOrder(Take(s))
  {
  }

  /** Tokens stay in order while the goroutines that are through stay as they are. */
  lemma TokensStay(s: State, s': State)
    requires TokensInOrder(s) && s'.channel == s.channel && s'.taken == s.taken
    requires |s'.children| >= |s.children|
    requires forall p :: 0 <= p < |s.children| && s.children[p].waiter.Over? ==> s'.children[p].waiter == s.children[p].waiter
    ensures TokensInOrder(s')
  {
  }

  lemma SendKeepsTokens(s: State, p: nat)
    requires TokensInOrder(s) && p < |s.children| && s.children[p].waiter.Sending?
    ensures TokensInOrder(WaitStep(s, p))
  {
    var s' := WaitStep(s, p);
    assert Tokens(s') == if s.channel.None? then Tokens(s) + [p] else Tokens(s);
    assert forall q: nat :: Through(s, q) ==> Through(s', q);
  }

  lemma StepKeeps(s: State, a: Action)
    requires Invariant(s) && Enabled(s, a)
    ensures Invariant(Next(s, a))
  {
    match a
    case Exit(p) => ExitKeeps(s, p);
    case Wait(p) => WaitKeeps(s, p);
    case _ => StarterKeeps(s, a);
  }

  /** The state after one interleaving, if each step was possible when its turn came. */
  function After(actions: seq<Action>): (r: Option<State>)
    ensures r.Some? ==> Invariant(r.value)
  {
    if actions == [] then Some(Initial())
    else
      var a := actions[|actions| - 1];
      match After(actions[..|actions| - 1])
      case None => None
      case Some(s) =>
        if Enabled(s, a) then
          StepKeeps(s, a);
          Some(Next(s, a))
        else None
  }

  /** In every interleaving at most one child is live, and it is the newest. */
  lemma OneLiveChild(actions: seq<Action>, s: State, p: nat, q: nat)
    requires After(actions) == Some(s)
    requires p < |s.children| && q < |s.children| && s.children[p].live && s.children[q].live
    ensures p == q == |s.children| - 1
  {
    assert ChildInOrder(s, p) && ChildInOrder(s, q);
  }

  /** A goroutine clears nothing but its own child, and that one is dead; so once a newer child is
      the current one, no goroutine of an older child changes that. */
  lemma OnlyItsOwn(actions: seq<Action>, s: State, p: nat)
    requires After(actions) == Some(s) && Enabled(s, Wait(p))
    ensures Next(s, Wait(p)).current != s.current
       <==> s.current == Some(p) && s.children[p].waiter.Returned?
    ensures Next(s, Wait(p)).current != s.current ==> Next(s, Wait(p)).current.None? && !s.children[p].live
    ensures s.current.Some? && p < s.current.value ==> Next(s, Wait(p)).current == s.current
  {
    assert ChildInOrder(s, p);
  }

  /** Each child yields at most one token, counting the one in the channel and all received so
      far, and only after it died. */
  lemma OneTokenEach(actions: seq<Action>, s: State)
    requires After(actions) == Some(s)
    ensures NoRepeats(Tokens(s))
    ensures forall i :: 0 <= i < |Tokens(s)| ==> Tokens(s)[i] < |s.children| && !s.children[Tokens(s)[i]].live
  {
    forall i | 0 <= i < |Tokens(s)| ensures Tokens(s)[i] < |s.children| && !s.children[Tokens(s)[i]].live {
      assert Through(s, Tokens(s)[i]);
      assert ChildInOrder(s, Tokens(s)[i]);
    }
  }

  /** A child whose goroutine is through was reported, or a newer child replaced it before. */
  lemma ReportedOrReplaced(actions: seq<Action>, s: State, p: nat)
    requires After(actions) == Some(s) && p < |s.children| && s.children[p].waiter.Over?
    ensures s.children[p].waiter.cleared || p < |s.children| - 1
  {
    assert ChildInOrder(s, p);
  }

  /** In some step of the run the goroutine of `p` found the channel full when it came to send. */
  ghost predicate FoundFull(actions: seq<Action>, p: nat) {
    actions != [] &&
    var init, a := actions[..|actions| - 1], actions[|actions| - 1];
    || FoundFull(init, p)
    || (a == Wait(p) && After(init).Some? &&
        var s := After(init).value;
        p < |s.children| && s.children[p].waiter.Sending? && s.channel.Some?)
  }

  /** The goroutine of `p` has left its token or found no room for it, and not both. */
  predicate Told(s: State, p: nat, full: bool) {
    && (full ==> Through(s, p))
    && (p in Tokens(s) <==> Through(s, p) && !full)
  }

  lemma ToldStep(s: State, a: Action, p: nat, full: bool)
    requires Invariant(s) && Enabled(s, a) && Told(s, p, full)
    ensures Told(Next(s, a), p, full || (a == Wait(p) && p < |s.children| && s.children[p].waiter.Sending? && s.channel.Some?))
  {
    var s' := Next(s, a);
    hide TokensInOrder;
    if p < |s.children| { assert ChildInOrder(s, p); }
    if a.Wait? && s.children[a.p].waiter.Sending? && s.channel.None? {
      assert Tokens(s') == Tokens(s) + [a.p];
    } else {
      assert Tokens(s') == Tokens(s);
    }
  }

  /** No death of the current child goes unreported: in every run, a child whose goroutine cleared
      it and is through has its token received or in the channel, if and only if its goroutine did
      not find the channel full. */
  lemma {:induction false} DeathIsReported(actions: seq<Action>, s: State, p: nat)
    requires After(actions) == Some(s)
    ensures p in Tokens(s) <==> p < |s.children| && s.children[p].waiter == Over(true) && !FoundFull(actions, p)
    ensures FoundFull(actions, p) ==> p < |s.children| && s.children[p].waiter == Over(true)
  {
    hide Next, Enabled, Invariant, Tokens;
    if actions == [] {
      NobodyTold(p);
    } else {
      var init, a := actions[..|actions| - 1], actions[|actions| - 1];
      DeathIsReported(init, After(init).value, p);
      ToldStep(After(init).value, a, p, FoundFull(init, p));
    }
  }

  lemma NobodyTold(p: nat)
    ensures p !in Tokens(Initial())
  {
  }

  lemma Then(actions: seq<Action>, s: State, a: Action, next: State) returns (actions': seq<Action>, s': State)
    requires After(actions) == Some(s)
    requires Enabled(s, a) && Next(s, a) == next
    ensures After(actions') == Some(s') && s' == next && actions' == actions + [a]
  {
    actions', s' := actions + [a], next;
    assert actions'[..|actions'| - 1] == actions;
  }

  /** The death of the current child, left to itself and its goroutine, is reported: the child is no
      longer the current one and its token is in the channel, unless another one is. */
  lemma DeathDelivers(actions: seq<Action>, s: State, p: nat) returns (actions': seq<Action>, s': State)
    requires After(actions) == Some(s) && s.starter.NoCall?
    requires s.current == Some(p) && s.children[p].live
    ensures actions' == actions + [Exit(p), Wait(p), Wait(p), Wait(p)] && After(actions') == Some(s')
    ensures s' == State(s.children[p := Child(false, Over(true))], None, NoCall,
                        if s.channel.None? then Some(p) else s.channel, s.taken)
  {
    hide After, TokensInOrder;
    assert ChildInOrder(s, p);
    hide Invariant;
    var dead := s.children[p := Child(false, Waiting)];
    actions', s' := Then(actions, s, Exit(p), s.(children := dead));
    actions', s' := Then(actions', s', Wait(p), s.(children := s.children[p := Child(false, Returned)]));
    actions', s' := Then(actions', s', Wait(p), s.(children := s.children[p := Child(false, Sending)], current := None));
    var over := s.children[p := Child(false, Over(true))];
    var channel := if s.channel.None? then Some(p) else s.channel;
    actions', s' := Then(actions', s', Wait(p), State(over, None, NoCall, channel, s.taken));
    assert actions' == actions + [Exit(p), Wait(p), Wait(p), Wait(p)];
  }

  /** A start, left to itself, while no child's wait is still going on empties the channel and makes
      a new child the current one; a failing spawn changes nothing. */
  lemma StartDelivers(actions: seq<Action>, s: State, ok: bool) returns (pass: seq<Action>, s': State)
    requires After(actions) == Some(s) && s.starter.NoCall?
    requires s.current.Some? ==> !s.children[s.current.value].waiter.Waiting?
    ensures pass == if ok then [CallStart, Spawn(true), Drain, Install] else [CallStart, Spawn(false)]
    ensures After(actions + pass) == Some(s')
    ensures s' == if ok then State(s.children + [Child(true, Waiting)], Some(|s.children|), NoCall, None, Tokens(s)) else s
  {
    hide After, TokensInOrder;
    if s.current.Some? { assert ChildInOrder(s, s.current.value); }
    hide Invariant;
    var run, next := Then(actions, s, CallStart, s.(starter := Checked));
    if ok {
      var more := s.children + [Child(true, Unstarted)];
      assert more[|s.children| := Child(true, Waiting)] == s.children + [Child(true, Waiting)];
      run, next := Then(run, next, Spawn(true), s.(starter := Spawned, children := more));
      run, next := Then(run, next, Drain, State(more, s.current, Drained, None, Tokens(s)));
      s' := State(s.children + [Child(true, Waiting)], Some(|s.children|), NoCall, None, Tokens(s));
      run, s' := Then(run, next, Install, s');
      pass := [CallStart, Spawn(true), Drain, Install];
    } else {
      run, s' := Then(run, next, Spawn(false), s);
      pass := [CallStart, Spawn(false)];
    }
    assert run == actions + pass;
  }

  /** A start is refused if and only if the current child's wait has not returned yet; this covers
      every moment at which a child is live and nobody else is starting one. */
  lemma StartRefusedIff(actions: seq<Action>, s: State)
    requires After(actions) == Some(s) && s.starter.NoCall?
    ensures Next(s, CallStart).starter.NoCall?
       <==> s.current.Some? && s.children[s.current.value].waiter.Waiting?
    ensures forall p :: 0 <= p < |s.children| && s.children[p].live ==> Next(s, CallStart) == s
  {
    if s.current.Some? { assert ChildInOrder(s, s.current.value); }
    forall p | 0 <= p < |s.children| && s.children[p].live ensures Running(s) {
      assert ChildInOrder(s, p);
    }
  }

  /** A start has come past its drain since the child `p` was the newest. */
  predicate Overtaken(s: State, p: nat) {
    p < |s.children| - (if s.starter.Spawned? then 2 else 1)
  }

  /** Some start of the run drained the channel while the goroutine of `p` was about to send. */
  ghost predicate DrainedTooEarly(actions: seq<Action>, p: nat) {
    actions != [] &&
    var init, a := actions[..|actions| - 1], actions[|actions| - 1];
    || DrainedTooEarly(init, p)
    || (a.Drain? && After(init).Some? && p < |After(init).value.children| && After(init).value.children[p].waiter.Sending?)
  }

  /** The token of `p`, sent or about to be sent, comes after its child was replaced just if a drain
      missed it; before that, none did. */
  predicate TokenTold(s: State, p: nat, missed: bool) {
    && (missed ==> p < |s.children| && (s.children[p].waiter.Sending? || s.children[p].waiter.Over?))
    && (s.channel == Some(p) || (p < |s.children| && s.children[p].waiter.Sending?) ==> (Overtaken(s, p) <==> missed))
  }

  lemma TokenStep(s: State, a: Action, p: nat, missed: bool)
    requires Invariant(s) && Enabled(s, a) && TokenTold(s, p, missed)
    ensures TokenTold(Next(s, a), p, missed || (a.Drain? && p < |s.children| && s.children[p].waiter.Sending?))
  {
    hide TokensInOrder;
    if p < |s.children| { assert ChildInOrder(s, p); }
    if |s.children| > 0 { assert ChildInOrder(s, |s.children| - 1); }
  }

  lemma {:induction false} TokenAlwaysTold(actions: seq<Action>, s: State, p: nat)
    requires After(actions) == Some(s)
    ensures TokenTold(s, p, DrainedTooEarly(actions, p))
  {
    hide Next, Enabled, TokenTold, Invariant;
    if actions == [] {
      NothingTold(p);
    } else {
      var init, a := actions[..|actions| - 1], actions[|actions| - 1];
      TokenAlwaysTold(init, After(init).value, p);
      TokenStep(After(init).value, a, p, DrainedTooEarly(init, p));
    }
  }

  lemma NothingTold(p: nat)
    ensures TokenTold(Initial(), p, false)
  {
  }

  /** The exact condition for a stale token: in every run, the token in the channel is that of a
      child which a start has come past if and only if some start drained the channel while that
      child's goroutine had not sent yet. If none did, the token does mean that no child is the
      current one. */
  lemma TokenStaleIff(actions: seq<Action>, s: State, p: nat)
    requires After(actions) == Some(s) && s.channel == Some(p)
    ensures Overtaken(s, p) <==> DrainedTooEarly(actions, p)
    ensures !DrainedTooEarly(actions, p) ==> s.current.None?
  {
    hide Invariant, Overtaken;
    TokenAlwaysTold(actions, s, p);
    if !Overtaken(s, p) {
      InTimeMeansNone(s, p);
    }
  }

  lemma InTimeMeansNone(s: State, p: nat)
    requires Invariant(s) && s.channel == Some(p) && !Overtaken(s, p)
    ensures s.current.None?
  {
    assert Tokens(s)[|s.taken|] == p && Through(s, p);
    assert ChildInOrder(s, |s.children| - 1);
  }

  /** A token says nothing about the current child: the one of child 0 can arrive after child 1
      was started, since it is sent after the mutex is released. */
  lemma TokenMayBeStale() returns (actions: seq<Action>, s: State)
    ensures After(actions) == Some(s)
    ensures s.channel == Some(0) && s.current == Some(1) && |s.children| == 2 && s.children[1].live
  {
    hide After, Invariant;
    actions, s := FirstDies();
    var dead := Child(false, Sending);
    actions, s := Then(actions, s, CallStart, State([dead], None, Checked, None, []));
    actions, s := Then(actions, s, Spawn(true), State([dead, Child(true, Unstarted)], None, Spawned, None, []));
    actions, s := Then(actions, s, Drain, State([dead, Child(true, Unstarted)], None, Drained, None, []));
    actions, s := Then(actions, s, Install, State([dead, Child(true, Waiting)], Some(1), NoCall, None, []));
    actions, s := Then(actions, s, Wait(0), State([Child(false, Over(true)), Child(true, Waiting)], Some(1), NoCall, Some(0), []));
  }

  lemma FirstDies() returns (actions: seq<Action>, s: State)
    ensures After(actions) == Some(s) && s == State([Child(false, Sending)], None, NoCall, None, [])
  {
    hide After, Invariant;
    NothingStarted();
    actions, s := [], Initial();
    actions, s := Then(actions, s, CallStart, State([], None, Checked, None, []));
    actions, s := Then(actions, s, Spawn(true), State([Child(true, Unstarted)], None, Spawned, None, []));
    actions, s := Then(actions, s, Drain, State([Child(true, Unstarted)], None, Drained, None, []));
    actions, s := Then(actions, s, Install, State([Child(true, Waiting)], Some(0), NoCall, None, []));
    actions, s := Then(actions, s, Exit(0), State([Child(false, Waiting)], Some(0), NoCall, None, []));
    actions, s := Then(actions, s, Wait(0), State([Child(false, Returned)], Some(0), NoCall, None, []));
    actions, s := Then(actions, s, Wait(0), State([Child(false, Sending)], None, NoCall, None, []));
  }

  lemma NothingStarted()
    ensures After([]) == Some(Initial())
  {
  }
}
