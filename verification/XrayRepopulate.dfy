/** The handshake between starting, stopping and finishing the background worker that puts
    the stored users back into a started xray. Every field access under the mutex is its own
    step, and any number of callers start and stop concurrently. */
module XrayRepopulate {
  import opened Model

  /** A background worker: launched, at work, done and its context cancelled, clearing the
      shared fields one by one, and through with them. */
  datatype Phase = Created | Working | Canceled | Clearing(step: nat) | Cleared

  datatype Worker = Worker(phase: Phase, closed: bool)

  /** Where a caller is. Start: waiting for the mutex, looking at `running`, installing
      worker `w`, spawning it. Stop: waiting for the mutex, reading the fields, holding what
      it read, cancelling, awaiting `done`; `Stopped` when `done` was closed. */
  datatype Caller =
    | Idle
    | StartWaiting
    | StartChecking
    | Installing(w: nat, step: nat)
    | Spawning(w: nat)
    | StopWaiting
    | StopReading
    | Captured(cancel: Option<nat>, done: Option<nat>)
    | Signalling(cancel: Option<nat>, done: Option<nat>)
    | Awaiting(w: nat)
    | Stopped(w: nat)

  datatype Owner = Free | ByCaller(c: nat) | ByWorker(w: nat)

  /** `cancel` and `done` name the worker whose cancel function and channel they hold. */
  datatype State = State(
    mutex: Owner, running: bool, cancel: Option<nat>, done: Option<nat>,
    workers: seq<Worker>, callers: seq<Caller>)

  /** The order of the worker's deferred calls after the cancel: the code clears the fields
      and then closes the channel. */
  datatype Order = ClearThenClose | CloseThenClear

  /** A caller starts a call, moves on, or gives up waiting; a worker moves on. */
  datatype Action = CallStart(c: nat) | CallStop(c: nat) | Advance(c: nat) | TimeOut(c: nat) | Work(w: nat)

  function Initial(callers: nat): State {
    State(Free, false, None, None, [], seq(callers, _ => Idle))
  }

  predicate IsClosed(s: State, w: nat) {
    w < |s.workers| && s.workers[w].closed
  }

  /** Taking the mutex and seeing `done` closed are the only moves a caller may wait for. */
  predicate CallerCanMove(s: State, caller: Caller) {
    match caller
    case Idle => false
    case StartWaiting => s.mutex.Free?
    case StopWaiting => s.mutex.Free?
    case Awaiting(w) => IsClosed(s, w)
    case _ => true
  }

  predicate WorkerCanMove(order: Order, s: State, worker: Worker) {
    match worker.phase
    case Created => false
    case Canceled => (order.CloseThenClear? && !worker.closed) || s.mutex.Free?
    case Cleared => !worker.closed
    case _ => true
  }

  predicate Enabled(order: Order, s: State, a: Action) {
    match a
    case CallStart(c) => c < |s.callers| && s.callers[c].Idle?
    case CallStop(c) => c < |s.callers| && s.callers[c].Idle?
    case Advance(c) => c < |s.callers| && CallerCanMove(s, s.callers[c])
    case TimeOut(c) => c < |s.callers| && s.callers[c].Awaiting?
    case Work(w) => w < |s.workers| && WorkerCanMove(order, s, s.workers[w])
  }

  function SetCaller(s: State, c: nat, caller: Caller): State
    requires c < |s.callers|
  {
    s.(callers := s.callers[c := caller])
  }

  function SetPhase(s: State, w: nat, phase: Phase): State
    requires w < |s.workers|
  {
    s.(workers := s.workers[w := s.workers[w].(phase := phase)])
  }

  /** Installing a worker sets `cancel`, `done` and `running`, then releases the mutex. */
  function InstallStep(s: State, c: nat): State
    requires c < |s.callers| && s.callers[c].Installing?
  {
    var w, step := s.callers[c].w, s.callers[c].step;
    if step == 0 then SetCaller(s, c, Installing(w, 1)).(cancel := Some(w))
    else if step == 1 then SetCaller(s, c, Installing(w, 2)).(done := Some(w))
    else if step == 2 then SetCaller(s, c, Installing(w, 3)).(running := true)
    else SetCaller(s, c, Spawning(w)).(mutex := Free)
  }

  /** Clearing resets the same fields in the same order, then releases the mutex. */
  function ClearStep(s: State, w: nat): State
    requires w < |s.workers| && s.workers[w].phase.Clearing?
  {
    var step := s.workers[w].phase.step;
    if step == 0 then SetPhase(s, w, Clearing(1)).(cancel := None)
    else if step == 1 then SetPhase(s, w, Clearing(2)).(done := None)
    else if step == 2 then SetPhase(s, w, Clearing(3)).(running := false)
    else SetPhase(s, w, Cleared).(mutex := Free)
  }

  function CallerStep(s: State, c: nat): State
    requires c < |s.callers|
  {
    match s.callers[c]
    case Idle => s
    case StartWaiting => SetCaller(s, c, StartChecking).(mutex := ByCaller(c))
    case StartChecking =>
      if s.running then SetCaller(s, c, Idle).(mutex := Free)
      else SetCaller(s, c, Installing(|s.workers|, 0)).(workers := s.workers + [Worker(Created, false)])
    case Installing(_, _) => InstallStep(s, c)
    case Spawning(w) => if w < |s.workers| then SetPhase(SetCaller(s, c, Idle), w, Working) else s
    case StopWaiting => SetCaller(s, c, StopReading).(mutex := ByCaller(c))
    case StopReading => SetCaller(s, c, Captured(s.cancel, s.done))
    case Captured(cancel, done) => SetCaller(s, c, Signalling(cancel, done)).(mutex := Free)
    case Signalling(_, done) => SetCaller(s, c, if done.None? then Idle else Awaiting(done.value))
    case Awaiting(w) => SetCaller(s, c, Stopped(w))
    case Stopped(_) => SetCaller(s, c, Idle)
  }

  function CloseChannel(s: State, w: nat): State
    requires w < |s.workers|
  {
    s.(workers := s.workers[w := s.workers[w].(closed := true)])
  }

  function WorkerStep(order: Order, s: State, w: nat): State
    requires w < |s.workers|
  {
    match s.workers[w].phase
    case Created => s
    case Working => SetPhase(s, w, Canceled)
    case Canceled =>
      if order.CloseThenClear? && !s.workers[w].closed then CloseChannel(s, w)
      else SetPhase(s, w, Clearing(0)).(mutex := ByWorker(w))
    case Clearing(_) => ClearStep(s, w)
    case Cleared => CloseChannel(s, w)
  }

  function Next(order: Order, s: State, a: Action): State
    requires Enabled(order, s, a)
  {
    match a
    case CallStart(c) => SetCaller(s, c, StartWaiting)
    case CallStop(c) => SetCaller(s, c, StopWaiting)
    case Advance(c) => CallerStep(s, c)
    case TimeOut(c) => SetCaller(s, c, Idle)
    case Work(w) => WorkerStep(order, s, w)
  }

  predicate HoldsMutex(caller: Caller) {
    caller.StartChecking? || caller.Installing? || caller.StopReading? || caller.Captured?
  }

  predicate Fields(s: State, cancel: Option<nat>, done: Option<nat>, running: bool) {
    s.cancel == cancel && s.done == done && s.running == running
  }

  predicate FieldsAtRest(s: State) {
    if s.running then
      var w := |s.workers| - 1;
      && w >= 0 && Fields(s, Some(w), Some(w), true)
      && !s.workers[w].phase.Cleared? && !s.workers[w].phase.Clearing?
    else
      Fields(s, None, None, false) && (|s.workers| > 0 ==> s.workers[|s.workers| - 1].phase.Cleared?)
  }

  predicate FieldsForCaller(s: State, caller: Caller) {
    match caller
    case Installing(w, step) =>
      && step <= 3 && w == |s.workers| - 1 && s.workers[w].phase.Created?
      && Fields(s, if step >= 1 then Some(w) else None, if step >= 2 then Some(w) else None, step >= 3)
    case _ => FieldsAtRest(s)
  }

  predicate FieldsForWorker(s: State, w: nat, phase: Phase) {
    match phase
    case Clearing(step) =>
      step <= 3 && Fields(s, if step >= 1 then None else Some(w), if step >= 2 then None else Some(w), step < 3)
    case _ => false
  }

  /** What the fields hold, by who has the mutex. */
  predicate FieldsMatch(s: State) {
    match s.mutex
    case Free => FieldsAtRest(s)
    case ByCaller(c) => c < |s.callers| && FieldsForCaller(s, s.callers[c])
    case ByWorker(w) => w < |s.workers| && FieldsForWorker(s, w, s.workers[w].phase)
  }

  /** Only the newest worker can be uncleared, and a closed channel belongs to a cleared one. */
  predicate WorkersInOrder(s: State) {
    && (forall w :: 0 <= w < |s.workers| - 1 ==> s.workers[w].phase.Cleared?)
    && (forall w :: 0 <= w < |s.workers| && s.workers[w].closed ==> s.workers[w].phase.Cleared?)
    && (forall w :: 0 <= w < |s.workers| && s.workers[w].phase.Clearing? ==> s.mutex == ByWorker(w))
  }

  predicate CallerInOrder(s: State, c: nat)
    requires c < |s.callers|
  {
    var caller := s.callers[c];
    && (HoldsMutex(caller) <==> s.mutex == ByCaller(c))
    && Captures(caller, |s.workers|)
    && (caller.Spawning? ==> caller.w == |s.workers| - 1 && s.workers[caller.w].phase.Created?)
    && (caller.Installing? ==> caller.w == |s.workers| - 1)
    && (caller.Stopped? ==> s.workers[caller.w].closed)
  }

  /** A stopping caller waits for the very worker whose context it cancels. */
  predicate Captures(caller: Caller, workers: nat) {
    match caller
    case Captured(cancel, done) => cancel == done && (done.Some? ==> done.value < workers)
    case Signalling(cancel, done) => cancel == done && (done.Some? ==> done.value < workers)
    case Awaiting(w) => w < workers
    case Stopped(w) => w < workers
    case _ => true
  }

  predicate Launching(caller: Caller) {
    caller.Installing? || caller.Spawning?
  }

  predicate OneLauncher(s: State) {
    forall c, d :: 0 <= c < d < |s.callers| && Launching(s.callers[c]) ==> !Launching(s.callers[d])
  }

  predicate Invariant(s: State) {
    && FieldsMatch(s)
    && WorkersInOrder(s)
    && (forall c :: 0 <= c < |s.callers| ==> CallerInOrder(s, c))
    && OneLauncher(s)
  }

  lemma CallerStepKeeps(s: State, c: nat)
    requires Invariant(s) && c < |s.callers| && CallerCanMove(s, s.callers[c])
    ensures Invariant(CallerStep(s, c))
  {
    assert CallerInOrder(s, c);
    match s.callers[c]
    case StartChecking => CheckKeeps(s, c);
    case Installing(_, _) => InstallKeeps(s, c);
    case Spawning(_) => SpawnKeeps(s, c);
    case _ => QuietStepKeeps(s, c);
  }

  lemma CheckKeeps(s: State, c: nat)
    requires Invariant(s) && c < |s.callers| && s.callers[c].StartChecking?
    ensures Invariant(CallerStep(s, c))
  {
    var s' := CallerStep(s, c);
    assert CallerInOrder(s, c);
    forall d | 0 <= d < |s'.callers| ensures CallerInOrder(s', d) {
      assert CallerInOrder(s, d);
    }
    if !s.running {
      forall d | 0 <= d < |s.callers| ensures !Launching(s.callers[d]) {
        assert CallerInOrder(s, d);
      }
    }
  }

  lemma InstallKeeps(s: State, c: nat)
    requires Invariant(s) && c < |s.callers| && s.callers[c].Installing?
    ensures Invariant(CallerStep(s, c))
  {
    var s' := CallerStep(s, c);
    assert CallerInOrder(s, c);
    forall d | 0 <= d < |s'.callers| ensures CallerInOrder(s', d) {
      assert CallerInOrder(s, d);
    }
  }

  lemma SpawnKeeps(s: State, c: nat)
    requires Invariant(s) && c < |s.callers| && s.callers[c].Spawning?
    ensures Invariant(CallerStep(s, c))
  {
    var s' := CallerStep(s, c);
    assert CallerInOrder(s, c);
    assert s.running && !(exists d :: 0 <= d < |s.callers| && s.callers[d].Installing?);
    forall d | 0 <= d < |s'.callers| ensures CallerInOrder(s', d) {
      assert CallerInOrder(s, d);
    }
  }

  /** A step that leaves the workers and the fields alone. */
  lemma QuietStepKeeps(s: State, c: nat)
    requires Invariant(s) && c < |s.callers| && CallerCanMove(s, s.callers[c])
    requires !s.callers[c].StartChecking? && !Launching(s.callers[c])
    ensures Invariant(CallerStep(s, c))
  {
    hide FieldsMatch;
    var s' := CallerStep(s, c);
    assert CallerInOrder(s, c);
    QuietFields(s, c);
    forall d | 0 <= d < |s'.callers| ensures CallerInOrder(s', d) {
      QuietCaller(s, c, d);
    }
    assert !Launching(s'.callers[c]) && s'.workers == s.workers;
    assert OneLauncher(s');
    assert s.mutex.ByWorker? ==> s'.mutex == s.mutex;
    assert WorkersInOrder(s');
  }

  lemma QuietFields(s: State, c: nat)
    requires Invariant(s) && c < |s.callers| && CallerCanMove(s, s.callers[c])
    requires !s.callers[c].StartChecking? && !Launching(s.callers[c])
    ensures FieldsMatch(CallerStep(s, c))
    ensures s.mutex.ByWorker? ==> CallerStep(s, c).mutex == s.mutex
  {
    var s' := CallerStep(s, c);
    assert CallerInOrder(s, c);
    SameFields(s, s');
    if HoldsMutex(s.callers[c]) || s.mutex.Free? {
      assert FieldsAtRest(s);
    } else {
      assert s'.mutex == s.mutex;
      match s.mutex
      case ByCaller(d) => assert d != c && s'.callers[d] == s.callers[d];
      case _ =>
    }
  }

  lemma SameFields(s: State, s': State)
    requires s'.workers == s.workers && s'.running == s.running && s'.cancel == s.cancel && s'.done == s.done
    ensures FieldsAtRest(s') <==> FieldsAtRest(s)
    ensures forall caller :: FieldsForCaller(s', caller) <==> FieldsForCaller(s, caller)
    ensures forall w, phase :: FieldsForWorker(s', w, phase) <==> FieldsForWorker(s, w, phase)
  {
  }

  lemma QuietCaller(s: State, c: nat, d: nat)
    requires Invariant(s) && c < |s.callers| && CallerCanMove(s, s.callers[c])
    requires !s.callers[c].StartChecking? && !Launching(s.callers[c])
    requires d < |s.callers|
    ensures CallerInOrder(CallerStep(s, c), d)
  {
    assert CallerInOrder(s, c) && CallerInOrder(s, d);
  }

  lemma WorkerStepKeeps(s: State, w: nat)
    requires Invariant(s) && w < |s.workers| && WorkerCanMove(ClearThenClose, s, s.workers[w])
    ensures Invariant(WorkerStep(ClearThenClose, s, w))
  {
    hide FieldsMatch;
    var s' := WorkerStep(ClearThenClose, s, w);
    WorkerFields(s, w);
    assert WorkersInOrder(s');
    forall d | 0 <= d < |s'.callers| ensures CallerInOrder(s', d) {
      WorkerLeavesCaller(s, w, d);
    }
  }

  lemma WorkerFields(s: State, w: nat)
    requires Invariant(s) && w < |s.workers| && WorkerCanMove(ClearThenClose, s, s.workers[w])
    ensures FieldsMatch(WorkerStep(ClearThenClose, s, w))
    ensures s.mutex.ByCaller? ==> WorkerStep(ClearThenClose, s, w).mutex == s.mutex
    ensures !s.mutex.ByCaller? ==> !WorkerStep(ClearThenClose, s, w).mutex.ByCaller?
  {
    hide CallerInOrder, OneLauncher;
  }

  lemma WorkerLeavesCaller(s: State, w: nat, d: nat)
    requires Invariant(s) && w < |s.workers| && WorkerCanMove(ClearThenClose, s, s.workers[w]) && d < |s.callers|
    ensures CallerInOrder(WorkerStep(ClearThenClose, s, w), d)
  {
    hide FieldsMatch;
    assert CallerInOrder(s, d);
    assert s.workers[w].phase.Clearing? ==> s.mutex == ByWorker(w);
  }

  lemma StepKeeps(s: State, a: Action)
    requires Invariant(s) && Enabled(ClearThenClose, s, a)
    ensures Invariant(Next(ClearThenClose, s, a))
  {
    match a
    case Advance(c) => CallerStepKeeps(s, c);
    case Work(w) => WorkerStepKeeps(s, w);
    case CallStart(c) => MoveKeeps(s, c, StartWaiting);
    case CallStop(c) => MoveKeeps(s, c, StopWaiting);
    case TimeOut(c) => MoveKeeps(s, c, Idle);
  }

  lemma MoveKeeps(s: State, c: nat, caller: Caller)
    requires Invariant(s) && c < |s.callers| && !HoldsMutex(s.callers[c]) && !Launching(s.callers[c])
    requires caller.Idle? || caller.StartWaiting? || caller.StopWaiting?
    ensures Invariant(SetCaller(s, c, caller))
  {
    var s' := SetCaller(s, c, caller);
    forall d | 0 <= d < |s'.callers| ensures CallerInOrder(s', d) {
      assert CallerInOrder(s, d);
    }
  }

  /** The state after one interleaving, if each step was possible when its turn came. */
  function After(order: Order, callers: nat, actions: seq<Action>): (r: Option<State>)
    ensures r.Some? && order.ClearThenClose? ==> Invariant(r.value)
  {
    if actions == [] then Some(Initial(callers))
    else
      var a := actions[|actions| - 1];
      match After(order, callers, actions[..|actions| - 1])
      case None => None
      case Some(s) =>
        if Enabled(order, s, a) then
          assert order.ClearThenClose? ==> Invariant(Next(order, s, a)) by {
            if order.ClearThenClose? { StepKeeps(s, a); }
          }
          Some(Next(order, s, a))
        else None
  }

  /** In every interleaving at most one worker has not cleared the fields yet. */
  lemma OneUnclearedWorker(callers: nat, actions: seq<Action>, s: State, w: nat, v: nat)
    requires After(ClearThenClose, callers, actions) == Some(s)
    requires w < |s.workers| && v < |s.workers|
    requires !s.workers[w].phase.Cleared? && !s.workers[v].phase.Cleared?
    ensures w == v == |s.workers| - 1
  {
  }

  /** Whenever the mutex is free, the running flag, a cancel function and a channel being set
      are equivalent, both belong to the newest worker, and they are set just when that
      worker is uncleared. */
  lemma FieldsEquivalent(callers: nat, actions: seq<Action>, s: State)
    requires After(ClearThenClose, callers, actions) == Some(s) && s.mutex.Free?
    ensures s.running <==> s.cancel.Some?
    ensures s.running <==> s.done.Some?
    ensures s.running <==> |s.workers| > 0 && !s.workers[|s.workers| - 1].phase.Cleared?
    ensures s.running ==> s.cancel == s.done == Some(|s.workers| - 1)
  {
  }

  /** A caller that stops cancels the worker whose channel it then waits for. */
  lemma StopTargetsOneWorker(callers: nat, actions: seq<Action>, s: State, c: nat)
    requires After(ClearThenClose, callers, actions) == Some(s) && c < |s.callers|
    ensures s.callers[c].Captured? || s.callers[c].Signalling? ==> s.callers[c].cancel == s.callers[c].done
  {
    assert CallerInOrder(s, c);
  }

  /** A stop that returned without a timeout saw its worker's channel closed. */
  lemma StoppedSawClosed(callers: nat, actions: seq<Action>, s: State, c: nat)
    requires After(ClearThenClose, callers, actions) == Some(s) && c < |s.callers| && s.callers[c].Stopped?
    ensures IsClosed(s, s.callers[c].w)
  {
    assert CallerInOrder(s, c);
  }

  /** A channel once closed stays closed, whatever follows. */
  lemma {:induction false} ClosedStays(callers: nat, actions: seq<Action>, s: State, more: seq<Action>, s': State, w: nat)
    requires After(ClearThenClose, callers, actions) == Some(s) && IsClosed(s, w)
    requires After(ClearThenClose, callers, actions + more) == Some(s')
    ensures IsClosed(s', w)
  {
    hide Invariant, Next, Enabled, IsClosed;
    if more == [] {
      assert actions + more == actions;
    } else {
      var init := more[..|more| - 1];
      assert (actions + more)[..|actions + more| - 1] == actions + init;
      var before := After(ClearThenClose, callers, actions + init).value;
      ClosedStays(callers, actions, s, init, before, w);
      StepKeepsClosed(before, more[|more| - 1], w);
    }
  }

  lemma StepKeepsClosed(s: State, a: Action, w: nat)
    requires IsClosed(s, w) && Enabled(ClearThenClose, s, a)
    ensures IsClosed(Next(ClearThenClose, s, a), w)
  {
  }

  /** A start launches a worker newer than `w`, or finds one already launched. */
  predicate NewerThan(s: State, w: nat, c: nat)
    requires c < |s.callers|
  {
    var next := CallerStep(s, c);
    if s.running then |s.workers| - 1 > w && !s.workers[|s.workers| - 1].phase.Cleared?
    else
      && |s.workers| > w && c < |next.callers| && next.callers[c] == Installing(|s.workers|, 0)
      && |next.workers| == |s.workers| + 1 && next.workers[|s.workers|].phase.Created?
  }

  /** Once the channel of worker `w` is closed, a start finds the way free. */
  lemma StartAfterClosedLaunches(s: State, w: nat, c: nat)
    requires Invariant(s) && IsClosed(s, w) && c < |s.callers| && s.callers[c].StartChecking?
    ensures NewerThan(s, w, c)
  {
    assert CallerInOrder(s, c);
    assert s.mutex == ByCaller(c) && FieldsAtRest(s);
    assert s.workers[w].phase.Cleared?;
  }

  /** So when a stop has returned without a timeout, any start after it, by the caller that stopped
      or by another, launches a fresh worker or finds a worker launched since. */
  lemma StartAfterStopLaunches(
    callers: nat, actions: seq<Action>, s: State, stopper: nat, more: seq<Action>, s': State, c: nat)
    requires After(ClearThenClose, callers, actions) == Some(s)
    requires stopper < |s.callers| && s.callers[stopper].Stopped?
    requires After(ClearThenClose, callers, actions + more) == Some(s')
    requires c < |s'.callers| && s'.callers[c].StartChecking?
    ensures NewerThan(s', s.callers[stopper].w, c)
  {
    hide Invariant, NewerThan, IsClosed;
    StoppedSawClosed(callers, actions, s, stopper);
    ClosedStays(callers, actions, s, more, s', s.callers[stopper].w);
    StartAfterClosedLaunches(s', s.callers[stopper].w, c);
  }

  /** And if nobody launched a worker after the one whose stop was awaited, that start does. */
  lemma NextStartIsFresh(
    callers: nat, actions: seq<Action>, s: State, stopper: nat, more: seq<Action>, s': State, c: nat)
    requires After(ClearThenClose, callers, actions) == Some(s)
    requires stopper < |s.callers| && s.callers[stopper].Stopped?
    requires After(ClearThenClose, callers, actions + more) == Some(s')
    requires s.callers[stopper].w == |s'.workers| - 1
    requires c < |s'.callers| && s'.callers[c].StartChecking?
    ensures CallerStep(s', c).callers[c] == Installing(|s'.workers|, 0)
  {
    hide Invariant;
    StartAfterStopLaunches(callers, actions, s, stopper, more, s', c);
  }

  lemma Go(callers: nat, actions: seq<Action>, s: State, a: Action, next: State) returns (actions': seq<Action>, s': State)
    requires After(ClearThenClose, callers, actions) == Some(s)
    requires Enabled(ClearThenClose, s, a) && Next(ClearThenClose, s, a) == next
    ensures After(ClearThenClose, callers, actions') == Some(s') && s' == next && actions' == actions + [a]
  {
    actions', s' := actions + [a], next;
    assert actions'[..|actions'| - 1] == actions;
  }

  /** How many steps a worker has before it, up to closing its channel. */
  function StepsLeft(worker: Worker): nat {
    match worker.phase
    case Created => 0
    case Working => 8
    case Canceled => 7
    case Clearing(step) => if step <= 3 then 6 - step else 2
    case Cleared => if worker.closed then 0 else 1
  }

  lemma WorkerProgress(s: State, w: nat)
    requires Invariant(s) && w < |s.workers| && !s.workers[w].phase.Created? && !IsClosed(s, w)
    requires s.mutex.Free? || s.mutex == ByWorker(w)
    ensures Enabled(ClearThenClose, s, Work(w))
    ensures var s' := Next(ClearThenClose, s, Work(w));
            && |s'.workers| == |s.workers| && s'.callers == s.callers
            && StepsLeft(s'.workers[w]) < StepsLeft(s.workers[w]) && !s'.workers[w].phase.Created?
            && (s'.mutex.Free? || s'.mutex == ByWorker(w))
            && (IsClosed(s', w) ==> s'.mutex.Free? && s'.workers[w].phase.Cleared?)
  {
    assert s.workers[w].phase.Clearing? ==> s.mutex == ByWorker(w);
  }

  /** A worker left to itself closes its channel: from every state of a run in which it is at work or
      past it and nobody else has the mutex, its own steps alone lead there, and nothing is left
      running then unless a newer worker is. */
  lemma {:induction false} WorkerCloses(callers: nat, actions: seq<Action>, s: State, w: nat)
    returns (pass: seq<Action>, s': State)
    requires After(ClearThenClose, callers, actions) == Some(s)
    requires w < |s.workers| && !s.workers[w].phase.Created? && (s.mutex.Free? || s.mutex == ByWorker(w))
    ensures After(ClearThenClose, callers, actions + pass) == Some(s') && forall a :: a in pass ==> a == Work(w)
    ensures IsClosed(s', w) && s'.callers == s.callers && |s'.workers| == |s.workers|
    ensures if IsClosed(s, w) then s' == s else s'.mutex.Free?
    ensures s'.mutex.Free? && w == |s.workers| - 1 ==> Fields(s', None, None, false)
    decreases StepsLeft(s.workers[w])
  {
    hide After, Next, Enabled, Invariant;
    if IsClosed(s, w) {
      pass, s' := [], s;
      assert actions + [] == actions;
      ClosedIsCleared(s, w);
    } else {
      WorkerProgress(s, w);
      var actions', next := Go(callers, actions, s, Work(w), Next(ClearThenClose, s, Work(w)));
      pass, s' := WorkerCloses(callers, actions', next, w);
      assert actions' + pass == actions + ([Work(w)] + pass);
      pass := [Work(w)] + pass;
    }
  }

  lemma ClosedIsCleared(s: State, w: nat)
    requires Invariant(s) && IsClosed(s, w)
    ensures s.workers[w].phase.Cleared?
    ensures s.mutex.Free? && w == |s.workers| - 1 ==> Fields(s, None, None, false)
  {
  }

  /** So a stop that awaits a worker returns: left to itself the worker closes its channel, and the
      caller's next step sees it; and a caller that gives up waiting gets away at once. */
  lemma StopReturns(callers: nat, actions: seq<Action>, s: State, c: nat) returns (pass: seq<Action>, s': State)
    requires After(ClearThenClose, callers, actions) == Some(s)
    requires c < |s.callers| && s.callers[c].Awaiting?
    requires var w := s.callers[c].w;
             w < |s.workers| && !s.workers[w].phase.Created? && (s.mutex.Free? || s.mutex == ByWorker(w))
    ensures After(ClearThenClose, callers, actions + pass) == Some(s')
    ensures c < |s'.callers| && s'.callers[c] == Stopped(s.callers[c].w) && IsClosed(s', s.callers[c].w)
    ensures After(ClearThenClose, callers, actions + pass + [Advance(c)]) == Some(s'.(callers := s.callers[c := Idle]))
    ensures After(ClearThenClose, callers, actions + [TimeOut(c)]) == Some(s.(callers := s.callers[c := Idle]))
  {
    hide After, Invariant;
    var w, run, next := s.callers[c].w, actions, s;
    pass, next := WorkerCloses(callers, actions, s, w);
    run, s' := Go(callers, actions + pass, next, Advance(c), SetCaller(next, c, Stopped(w)));
    assert run == actions + (pass + [Advance(c)]);
    pass := pass + [Advance(c)];
    var back, idle := Go(callers, run, s', Advance(c), s'.(callers := s.callers[c := Idle]));
    back, idle := Go(callers, actions, s, TimeOut(c), s.(callers := s.callers[c := Idle]));
  }

  /** A stop comes to cancel and await the worker that is running. */
  lemma StopAwaits(callers: nat, actions: seq<Action>, s: State, c: nat) returns (run: seq<Action>, s': State)
    requires After(ClearThenClose, callers, actions) == Some(s)
    requires s.mutex.Free? && s.running && c < |s.callers| && s.callers[c].Idle? && |s.workers| > 0
    ensures run == actions + [CallStop(c), Advance(c), Advance(c), Advance(c), Advance(c)]
    ensures After(ClearThenClose, callers, run) == Some(s') && s' == SetCaller(s, c, Awaiting(|s.workers| - 1))
  {
    hide After, WorkersInOrder, CallerInOrder, OneLauncher;
    var w := |s.workers| - 1;
    assert Fields(s, Some(w), Some(w), true);
    run, s' := actions, s;
    hide Invariant;
    run, s' := Go(callers, run, s', CallStop(c), SetCaller(s, c, StopWaiting));
    run, s' := Go(callers, run, s', Advance(c), SetCaller(s, c, StopReading).(mutex := ByCaller(c)));
    run, s' := Go(callers, run, s', Advance(c), SetCaller(s, c, Captured(Some(w), Some(w))).(mutex := ByCaller(c)));
    run, s' := Go(callers, run, s', Advance(c), SetCaller(s, c, Signalling(Some(w), Some(w))));
    run, s' := Go(callers, run, s', Advance(c), SetCaller(s, c, Awaiting(w)));
  }

  /** A stop while a worker is running, left to itself with that worker, cancels it, awaits it and
      returns, with the fields clear. */
  lemma StopDelivers(callers: nat, actions: seq<Action>, s: State, c: nat) returns (pass: seq<Action>, s': State)
    requires After(ClearThenClose, callers, actions) == Some(s)
    requires s.mutex.Free? && s.running && c < |s.callers| && s.callers[c].Idle?
    requires !s.workers[|s.workers| - 1].phase.Created?
    ensures After(ClearThenClose, callers, actions + pass) == Some(s')
    ensures c < |s'.callers| && s'.callers[c] == Stopped(|s.workers| - 1) && IsClosed(s', |s.workers| - 1)
    ensures |s'.workers| == |s.workers| && s'.mutex.Free? && Fields(s', None, None, false)
  {
    hide After, Invariant;
    var w := |s.workers| - 1;
    RunningIsOpen(s);
    var run, next := StopAwaits(callers, actions, s, c);
    var rest, closed := WorkerCloses(callers, run, next, w);
    pass := [CallStop(c), Advance(c), Advance(c), Advance(c), Advance(c)] + rest + [Advance(c)];
    assert run + rest + [Advance(c)] == actions + pass;
    run, s' := Go(callers, run + rest, closed, Advance(c), SetCaller(closed, c, Stopped(w)));
  }

  lemma RunningIsOpen(s: State)
    requires Invariant(s) && s.mutex.Free? && s.running
    ensures |s.workers| > 0 && !IsClosed(s, |s.workers| - 1)
  {
  }

  /** A start that finds no worker creates one. */
  lemma StartCreates(callers: nat, actions: seq<Action>, s: State, c: nat) returns (run: seq<Action>, s': State)
    requires After(ClearThenClose, callers, actions) == Some(s)
    requires s.mutex.Free? && !s.running && c < |s.callers| && s.callers[c].Idle?
    ensures run == actions + [CallStart(c), Advance(c), Advance(c)] && Fields(s, None, None, false)
    ensures After(ClearThenClose, callers, run) == Some(s')
    ensures s' == SetCaller(s, c, Installing(|s.workers|, 0)).(
              mutex := ByCaller(c), workers := s.workers + [Worker(Created, false)])
  {
    hide After, WorkersInOrder, CallerInOrder, OneLauncher;
    assert Fields(s, None, None, false);
    hide Invariant;
    run, s' := Go(callers, actions, s, CallStart(c), SetCaller(s, c, StartWaiting));
    run, s' := Go(callers, run, s', Advance(c), SetCaller(s, c, StartChecking).(mutex := ByCaller(c)));
    var held := s.(mutex := ByCaller(c), workers := s.workers + [Worker(Created, false)]);
    run, s' := Go(callers, run, s', Advance(c), SetCaller(held, c, Installing(|s.workers|, 0)));
  }

  /** A start while none is running, left to itself, launches a worker and returns. */
  lemma StartDelivers(callers: nat, actions: seq<Action>, s: State, c: nat) returns (pass: seq<Action>, s': State)
    requires After(ClearThenClose, callers, actions) == Some(s)
    requires s.mutex.Free? && !s.running && c < |s.callers| && s.callers[c].Idle?
    ensures After(ClearThenClose, callers, actions + pass) == Some(s')
    ensures s' == State(Free, true, Some(|s.workers|), Some(|s.workers|), s.workers + [Worker(Working, false)], s.callers)
  {
    hide After, Invariant;
    var w, step := |s.workers|, Advance(c);
    var run, next := StartCreates(callers, actions, s, c);
    var held := next.(cancel := Some(w), done := Some(w));
    run, next := Go(callers, run, next, step, SetCaller(next, c, Installing(w, 1)).(cancel := Some(w)));
    run, next := Go(callers, run, next, step, SetCaller(held, c, Installing(w, 2)));
    run, next := Go(callers, run, next, step, SetCaller(held, c, Installing(w, 3)).(running := true));
    run, next := Go(callers, run, next, step, SetCaller(held, c, Spawning(w)).(running := true, mutex := Free));
    assert next.callers[c := Idle] == s.callers;
    assert next.workers[w := Worker(Working, false)] == s.workers + [Worker(Working, false)];
    s' := State(Free, true, Some(w), Some(w), s.workers + [Worker(Working, false)], s.callers);
    run, s' := Go(callers, run, next, step, s');
    pass := [CallStart(c), step, step, step, step, step, step, step];
    assert run == actions + pass;
  }

  /** A start while a worker is running, and a stop while none is, change nothing. */
  lemma CallsWithoutEffect(callers: nat, actions: seq<Action>, s: State, c: nat) returns (pass: seq<Action>)
    requires After(ClearThenClose, callers, actions) == Some(s)
    requires s.mutex.Free? && c < |s.callers| && s.callers[c].Idle?
    ensures pass != [] && pass[0] == (if s.running then CallStart(c) else CallStop(c))
    ensures After(ClearThenClose, callers, actions + pass) == Some(s)
  {
    hide After, WorkersInOrder, CallerInOrder, OneLauncher;
    var run, next, step := actions, s, Advance(c);
    assert s.callers[c := Idle] == s.callers;
    if s.running {
      run, next := Go(callers, run, next, CallStart(c), SetCaller(s, c, StartWaiting));
      run, next := Go(callers, run, next, step, SetCaller(s, c, StartChecking).(mutex := ByCaller(c)));
      run, next := Go(callers, run, next, step, s);
      pass := [CallStart(c), step, step];
    } else {
      assert Fields(s, None, None, false);
      run, next := Go(callers, run, next, CallStop(c), SetCaller(s, c, StopWaiting));
      run, next := Go(callers, run, next, step, SetCaller(s, c, StopReading).(mutex := ByCaller(c)));
      run, next := Go(callers, run, next, step, SetCaller(s, c, Captured(None, None)).(mutex := ByCaller(c)));
      run, next := Go(callers, run, next, step, SetCaller(s, c, Signalling(None, None)));
      run, next := Go(callers, run, next, step, s);
      pass := [CallStop(c), step, step, step, step];
    }
    assert run == actions + pass;
  }

  /** One more step of a run in the other order, with the state it leads to. */
  lemma Then(actions: seq<Action>, s: State, a: Action, next: State) returns (actions': seq<Action>, s': State)
    requires After(CloseThenClear, 2, actions) == Some(s)
    requires Enabled(CloseThenClear, s, a) && Next(CloseThenClear, s, a) == next
    ensures After(CloseThenClear, 2, actions') == Some(s') && s' == next
  {
    actions', s' := actions + [a], next;
    assert actions'[..|actions'| - 1] == actions;
  }

  /** With the deferred calls in the other order this fails: one caller starts, another stops
      and sees the channel of worker 0 closed, and the start that follows finds `running`
      still set and launches nothing, though no other worker was ever launched. */
  lemma OtherOrderLosesStart() returns (actions: seq<Action>, s: State)
    ensures After(CloseThenClear, 2, actions) == Some(s)
    ensures |s.callers| == 2 && s.callers[1] == Stopped(0) && |s.workers| == 1 && s.callers[0].StartChecking?
    ensures CallerStep(s, 0).callers[0].Idle? && |CallerStep(s, 0).workers| == 1
  {
    hide After, Invariant;
    actions, s := HastyStart();
    actions, s := HastyStop(actions, s);
    actions, s := Then(actions, s, CallStart(0), State(Free, true, Some(0), Some(0), [Worker(Canceled, true)], [StartWaiting, Stopped(0)]));
    actions, s := Then(actions, s, Advance(0), State(ByCaller(0), true, Some(0), Some(0), [Worker(Canceled, true)], [StartChecking, Stopped(0)]));
  }

  /** A start finds no worker. */
  lemma HastyCheck() returns (actions: seq<Action>, s: State)
    ensures After(CloseThenClear, 2, actions) == Some(s)
    ensures s == State(ByCaller(0), false, None, None, [Worker(Created, false)], [Installing(0, 0), Idle])
  {
    hide After, Invariant;
    StartAtRest();
    actions, s := [], Initial(2);
    actions, s := Then(actions, s, CallStart(0), State(Free, false, None, None, [], [StartWaiting, Idle]));
    actions, s := Then(actions, s, Advance(0), State(ByCaller(0), false, None, None, [], [StartChecking, Idle]));
    actions, s := Then(actions, s, Advance(0), State(ByCaller(0), false, None, None, [Worker(Created, false)], [Installing(0, 0), Idle]));
  }

  /** Worker 0 is launched. */
  lemma HastyStart() returns (actions: seq<Action>, s: State)
    ensures After(CloseThenClear, 2, actions) == Some(s)
    ensures s == State(Free, true, Some(0), Some(0), [Worker(Working, false)], [Idle, Idle])
  {
    hide After, Invariant;
    actions, s := HastyCheck();
    actions, s := Then(actions, s, Advance(0), State(ByCaller(0), false, Some(0), None, [Worker(Created, false)], [Installing(0, 1), Idle]));
    actions, s := Then(actions, s, Advance(0), State(ByCaller(0), false, Some(0), Some(0), [Worker(Created, false)], [Installing(0, 2), Idle]));
    actions, s := Then(actions, s, Advance(0), State(ByCaller(0), true, Some(0), Some(0), [Worker(Created, false)], [Installing(0, 3), Idle]));
    actions, s := Then(actions, s, Advance(0), State(Free, true, Some(0), Some(0), [Worker(Created, false)], [Spawning(0), Idle]));
    actions, s := Then(actions, s, Advance(0), State(Free, true, Some(0), Some(0), [Worker(Working, false)], [Idle, Idle]));
  }

  /** A stop returns because its channel is closed. */
  lemma HastyStop(before: seq<Action>, running: State) returns (actions: seq<Action>, s: State)
    requires After(CloseThenClear, 2, before) == Some(running)
    requires running == State(Free, true, Some(0), Some(0), [Worker(Working, false)], [Idle, Idle])
    ensures After(CloseThenClear, 2, actions) == Some(s)
    ensures s == State(Free, true, Some(0), Some(0), [Worker(Canceled, true)], [Idle, Stopped(0)])
  {
    hide After, Invariant;
    actions, s := before, running;
    actions, s := Then(actions, s, CallStop(1), State(Free, true, Some(0), Some(0), [Worker(Working, false)], [Idle, StopWaiting]));
    actions, s := Then(actions, s, Advance(1), State(ByCaller(1), true, Some(0), Some(0), [Worker(Working, false)], [Idle, StopReading]));
    actions, s := Then(actions, s, Advance(1), State(ByCaller(1), true, Some(0), Some(0), [Worker(Working, false)], [Idle, Captured(Some(0), Some(0))]));
    actions, s := Then(actions, s, Advance(1), State(Free, true, Some(0), Some(0), [Worker(Working, false)], [Idle, Signalling(Some(0), Some(0))]));
    actions, s := Then(actions, s, Advance(1), State(Free, true, Some(0), Some(0), [Worker(Working, false)], [Idle, Awaiting(0)]));
    actions, s := Then(actions, s, Work(0), State(Free, true, Some(0), Some(0), [Worker(Canceled, false)], [Idle, Awaiting(0)]));
    actions, s := Then(actions, s, Work(0), State(Free, true, Some(0), Some(0), [Worker(Canceled, true)], [Idle, Awaiting(0)]));
    actions, s := Then(actions, s, Advance(1), State(Free, true, Some(0), Some(0), [Worker(Canceled, true)], [Idle, Stopped(0)]));
  }

  lemma StartAtRest()
    ensures After(CloseThenClear, 2, []) == Some(Initial(2))
  {
  }
}
