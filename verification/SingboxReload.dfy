/** Callers that edit the sing-box configuration, the worker that saves it and makes the child
    reload it, and restarts, step by step. Callers and the worker share the configuration mutex;
    a restart does not take it. */
module SingboxReload {
  import opened Model
  import opened SingboxConfig

  /** A configuration object in memory: what it was built with and the edits made to it since. */
  datatype Object = Object(base: Cfg, edits: seq<Op>)
  {
    function Content(): Cfg { ApplyAll(base, edits) }
  }

  /** Where the holder of the mutex is. A call: entered, with the object it found, after its edit,
      after setting the dirty flag. The worker: entered, with the object it found, with the
      encoded text, after saving, after the reload, after clearing the flag. */
  datatype Holder =
    | Free
    | Entered(op: Op)
    | Found(op: Op, o: nat)
    | Edited(op: Op)
    | Marked(op: Op)
    | Began
    | Looked(o: nat)
    | Encoded(o: nat, text: Cfg)
    | Saved(o: nat)
    | Reloaded(o: nat)
    | Cleaned(o: nat)

  /** Where a restart is; the node begins in the middle of one, with nothing started yet. */
  datatype Restart = NoRestart | Stopped | Filed(text: Cfg) | Launched(text: Cfg)

  /** `file` is what the saved file holds, nothing if that is not a configuration, and `loaded`
      is what the child was last told to load. */
  datatype State = State(
    objects: seq<Object>, current: Option<nat>, dirty: bool, file: Option<Cfg>, loaded: Option<Cfg>,
    holder: Holder, waiting: bool, restart: Restart)

  /** `ok` tells whether an operation outside the program succeeds; a failed save leaves
      anything at all in the file. */
  datatype Action =
    | Call(op: Op)
    | Tick
    | Lock
    | Advance(ok: bool, left: Option<Cfg>)
    | Stop
    | GiveUp
    | Build(text: Cfg, ok: bool, left: Option<Cfg>)
    | Launch(ok: bool)
    | Publish

  function Initial(): State {
    State([], None, false, None, None, Free, false, Stopped)
  }

  predicate WorkerBusy(holder: Holder) {
    holder.Began? || holder.Looked? || holder.Encoded? || holder.Saved? || holder.Reloaded? || holder.Cleaned?
  }

  /** The worker has looked a configuration up and will save it, and it is not `text`. */
  predicate Clashes(s: State, text: Cfg) {
    match s.holder
    case Looked(o) => o < |s.objects| && s.objects[o].Content() != text
    case Encoded(_, pending) => pending != text
    case _ => false
  }

  /** With `apart`, a restart does not save its configuration between the worker's look-up and the
      worker's save of another one; without, it may do so at any time, as in the code. */
  predicate Enabled(apart: bool, s: State, a: Action) {
    match a
    case Call(_) => s.holder.Free?
    case Tick => !WorkerBusy(s.holder)
    case Lock => s.waiting && s.holder.Free?
    case Advance(_, _) => !s.holder.Free?
    case Stop => s.restart.NoRestart?
    case GiveUp => s.restart.Stopped?
    case Build(text, ok, _) => s.restart.Stopped? && (apart && ok ==> !Clashes(s, text))
    case Launch(_) => s.restart.Filed?
    case Publish => s.restart.Launched?
  }

  predicate OpFails(cfg: Cfg, op: Op) {
    op.Add? && Append(cfg, op.user, op.inbound, op.creds).None?
  }

  function CallStep(s: State): State {
    match s.holder
    case Entered(op) => s.(holder := if s.current.None? then Free else Found(op, s.current.value))
    case Found(op, o) =>
      if o >= |s.objects| || OpFails(s.objects[o].Content(), op) then s.(holder := Free)
      else s.(holder := Edited(op), objects := s.objects[o := s.objects[o].(edits := s.objects[o].edits + [op])])
    case Edited(op) => s.(holder := Marked(op), dirty := true)
    case Marked(_) => s.(holder := Free)
    case _ => s
  }

  function WorkStep(s: State, ok: bool, left: Option<Cfg>): State {
    match s.holder
    case Began => s.(holder := if s.current.None? then Free else Looked(s.current.value))
    case Looked(o) =>
      s.(holder := if o >= |s.objects| || !ok then Free else Encoded(o, s.objects[o].Content()))
    case Encoded(o, text) => if ok then s.(holder := Saved(o), file := Some(text)) else s.(holder := Free, file := left)
    case Saved(o) => if ok then s.(holder := Reloaded(o), loaded := s.file) else s.(holder := Free)
    case Reloaded(o) => s.(holder := Cleaned(o), dirty := false)
    case Cleaned(_) => s.(holder := Free)
    case _ => s
  }

  function Next(apart: bool, s: State, a: Action): State
    requires Enabled(apart, s, a)
  {
    match a
    case Call(op) => s.(holder := Entered(op))
    case Tick => s.(waiting := s.waiting || s.dirty)
    case Lock => s.(waiting := false, holder := Began)
    case Advance(ok, left) =>
      if s.holder.Entered? || s.holder.Found? || s.holder.Edited? || s.holder.Marked? then CallStep(s)
      else WorkStep(s, ok, left)
    case Stop => s.(current := None, restart := Stopped)
    case GiveUp => s.(restart := NoRestart)
    case Build(text, ok, left) =>
      if ok then s.(restart := Filed(text), file := Some(text)) else s.(restart := NoRestart, file := left)
    case Launch(ok) => if ok then s.(restart := Launched(s.restart.text), loaded := s.file) else s.(restart := NoRestart)
    case Publish =>
      s.(restart := NoRestart, current := Some(|s.objects|), objects := s.objects + [Object(s.restart.text, [])])
  }

  /** The file holds what is in memory, or what a restart is about to put there. */
  predicate FileInStep(s: State) {
    && (s.current.Some? ==> s.current.value < |s.objects| && s.file == Some(s.objects[s.current.value].Content()))
    && (s.restart.Filed? || s.restart.Launched? ==> s.file == Some(s.restart.text))
  }

  /** And the child was told to load it. */
  predicate ChildInStep(s: State) {
    s.current.Some? || s.restart.Launched? ==> s.loaded == s.file
  }

  /** What the worker is going to save is what is in memory, even if that object is a newer one. */
  predicate PendingInStep(s: State, o: nat) {
    && o < |s.objects|
    && (s.current.Some? ==>
          s.current.value < |s.objects| && s.objects[s.current.value].Content() == s.objects[o].Content())
    && (s.restart.Filed? || s.restart.Launched? ==> s.restart.text == s.objects[o].Content())
  }

  predicate HolderInStep(s: State) {
    match s.holder
    case Began => s.dirty
    case Looked(o) => s.dirty && PendingInStep(s, o)
    case Encoded(o, text) => s.dirty && PendingInStep(s, o) && text == s.objects[o].Content()
    case Saved(_) => s.dirty && FileInStep(s)
    case Reloaded(_) => s.dirty && FileInStep(s) && ChildInStep(s)
    case Found(_, o) => o < |s.objects|
    case Marked(_) => s.dirty
    case _ => true
  }

  predicate Invariant(s: State) {
    && HolderInStep(s)
    && (!s.restart.NoRestart? ==> s.current.None?)
    && (s.waiting ==> s.dirty && !WorkerBusy(s.holder))
    && (s.current.Some? ==> s.current.value < |s.objects|)
    && (!s.dirty && !s.holder.Edited? ==> FileInStep(s) && ChildInStep(s))
  }

  lemma CallStepKeeps(s: State)
    requires Invariant(s) && !WorkerBusy(s.holder)
    ensures Invariant(CallStep(s))
  {
  }

  lemma WorkStepKeeps(s: State, ok: bool, left: Option<Cfg>)
    requires Invariant(s) && WorkerBusy(s.holder)
    ensures Invariant(WorkStep(s, ok, left))
  {
  }

  lemma RestartKeeps(s: State, a: Action)
    requires Invariant(s) && Enabled(true, s, a) && !a.Advance?
    ensures Invariant(Next(true, s, a))
  {
    hide ApplyAll;
    if a.Publish? {
      NoEdits(s.restart.text);
    }
  }

  lemma StepKeeps(s: State, a: Action)
    requires Invariant(s) && Enabled(true, s, a)
    ensures Invariant(Next(true, s, a))
  {
    if !a.Advance? {
      RestartKeeps(s, a);
    } else if WorkerBusy(s.holder) {
      WorkStepKeeps(s, a.ok, a.left);
    } else {
      CallStepKeeps(s);
    }
  }

  lemma NoEdits(cfg: Cfg)
    ensures ApplyAll(cfg, []) == cfg
  {
  }

  /** The state reached from `s0` by these steps, if each was possible when its turn came. */
  function Run(apart: bool, s0: State, actions: seq<Action>): (r: Option<State>)
    ensures apart && Invariant(s0) && r.Some? ==> Invariant(r.value)
  {
    if actions == [] then Some(s0)
    else
      var a := actions[|actions| - 1];
      match Run(apart, s0, actions[..|actions| - 1])
      case None => None
      case Some(s) =>
        if Enabled(apart, s, a) then
          assert apart && Invariant(s) ==> Invariant(Next(apart, s, a)) by {
            if apart && Invariant(s) { StepKeeps(s, a); }
          }
          Some(Next(apart, s, a))
        else None
  }

  function After(apart: bool, actions: seq<Action>): (r: Option<State>)
    ensures apart && r.Some? ==> Invariant(r.value)
  {
    Run(apart, Initial(), actions)
  }

  /** Nothing seems left to do, but the child was not told to load what is in memory, or the file
      does not hold it. */
  predicate Lost(s: State) {
    && s.holder.Free? && !s.dirty && s.current.Some?
    && !(s.current.value < |s.objects| && s.loaded == s.file == Some(s.objects[s.current.value].Content()))
  }

  /** No update is lost: in every interleaving of calls, worker and restarts, with any failures,
      whenever nobody holds the mutex and the flag is clear, the child was last told to load the
      current configuration object with every edit made to it so far, and that is also what the
      file holds. */
  lemma NoLostUpdate(actions: seq<Action>, s: State)
    requires After(true, actions) == Some(s)
    requires s.holder.Free? && !s.dirty && s.current.Some?
    ensures s.current.value < |s.objects|
    ensures var it := s.objects[s.current.value];
            s.loaded == s.file == Some(ApplyAll(it.base, it.edits))
    ensures !Lost(s)
  {
  }

  lemma Then(s0: State, actions: seq<Action>, s: State, a: Action, next: State)
    returns (actions': seq<Action>, s': State)
    requires Run(true, s0, actions) == Some(s)
    requires Enabled(true, s, a) && Next(true, s, a) == next
    ensures Run(true, s0, actions') == Some(s') && s' == next
    ensures actions' == actions + [a]
  {
    actions', s' := actions + [a], next;
    assert actions'[..|actions'| - 1] == actions;
  }

  lemma Start(apart: bool, s0: State)
    ensures Run(apart, s0, []) == Some(s0)
  {
  }

  /** At a tick the worker takes the mutex and looks the configuration up. */
  lemma WorkerLooks(s0: State, actions: seq<Action>, s: State) returns (run: seq<Action>, s': State)
    requires Invariant(s0) && Run(true, s0, actions) == Some(s)
    requires s.holder.Free? && s.dirty && s.current.Some?
    ensures run == actions + [Tick, Lock, Advance(true, None)] && Run(true, s0, run) == Some(s')
    ensures s.current.value < |s.objects| && s' == s.(waiting := false, holder := Looked(s.current.value))
  {
    assert s.current.value < |s.objects|;
    hide Run, ApplyAll, OpFails, Invariant;
    run, s' := Then(s0, actions, s, Tick, s.(waiting := true));
    run, s' := Then(s0, run, s', Lock, s.(waiting := false, holder := Began));
    run, s' := Then(s0, run, s', Advance(true, None), s.(waiting := false, holder := Looked(s.current.value)));
  }

  /** And updates do arrive: from any state a run can reach in which nobody holds the mutex, the
      flag is set and a configuration is in memory, one undisturbed pass of the worker without
      failures clears the flag and has the child load everything in memory. */
  lemma PassDelivers(s0: State, actions: seq<Action>, s: State)
    returns (pass: seq<Action>, s': State)
    requires Invariant(s0) && Run(true, s0, actions) == Some(s)
    requires s.holder.Free? && s.dirty && s.current.Some?
    ensures Run(true, s0, actions + pass) == Some(s') && |pass| == 8
    ensures s'.holder.Free? && !s'.dirty && s'.objects == s.objects && s'.current == s.current
    ensures s'.loaded == s'.file == Some(s.objects[s.current.value].Content())
  {
    hide Run, ApplyAll, OpFails, Invariant;
    var o := s.current.value;
    var work := Advance(true, None);
    var run, next := WorkerLooks(s0, actions, s);
    var text := s.objects[o].Content();
    run, next := Then(s0, run, next, work, next.(holder := Encoded(o, text)));
    run, next := Then(s0, run, next, work, next.(holder := Saved(o), file := Some(text)));
    run, next := Then(s0, run, next, work, next.(holder := Reloaded(o), loaded := Some(text)));
    run, next := Then(s0, run, next, work, next.(holder := Cleaned(o), dirty := false));
    run, next := Then(s0, run, next, work, next.(holder := Free));
    pass, s' := [Tick, Lock, work, work, work, work, work, work], next;
    assert run == actions + pass;
  }

  /** A call succeeds while a configuration is in memory, unless it is to add a user to an inbound
      of it whose protocol wants a UUID and the user's key yields none. */
  predicate Accepted(s: State, op: Op) {
    && s.current.Some? && s.current.value < |s.objects|
    && (op.Drop? || op.creds.uuid.Some? || op.inbound.protocol !in {"vmess", "vless", "tuic"} ||
        forall i :: 0 <= i < |s.objects[s.current.value].Content().inbounds| ==>
          s.objects[s.current.value].Content().inbounds[i].tag != op.inbound.tag)
  }

  lemma FailsIff(s: State, op: Op)
    requires s.current.Some? && s.current.value < |s.objects|
    ensures OpFails(s.objects[s.current.value].Content(), op) <==> !Accepted(s, op)
  {
    hide ApplyAll;
  }

  /** A call left to itself makes its edit on the object in memory and sets the flag, or fails and
      changes nothing. */
  lemma CallDelivers(s0: State, actions: seq<Action>, s: State, op: Op) returns (pass: seq<Action>, s': State)
    requires Invariant(s0) && Run(true, s0, actions) == Some(s) && s.holder.Free?
    ensures pass != [] && pass[0] == Call(op) && (forall a :: a in pass[1..] ==> a.Advance?)
    ensures Run(true, s0, actions + pass) == Some(s')
    ensures s' == if !Accepted(s, op) then s
                  else var o := s.current.value;
                       s.(dirty := true, objects := s.objects[o := s.objects[o].(edits := s.objects[o].edits + [op])])
  {
    hide Run, ApplyAll, OpFails;
    var step := Advance(true, None);
    var run, next := Then(s0, actions, s, Call(op), s.(holder := Entered(op)));
    if s.current.None? {
      run, next := Then(s0, run, next, step, s);
      pass := [Call(op), step];
    } else {
      var o := s.current.value;
      FailsIff(s, op);
      run, next := Then(s0, run, next, step, s.(holder := Found(op, o)));
      if !Accepted(s, op) {
        run, next := Then(s0, run, next, step, s);
        pass := [Call(op), step, step];
      } else {
        var edited := s.objects[o := s.objects[o].(edits := s.objects[o].edits + [op])];
        run, next := Then(s0, run, next, step, s.(holder := Edited(op), objects := edited));
        run, next := Then(s0, run, next, step, s.(holder := Marked(op), objects := edited, dirty := true));
        run, next := Then(s0, run, next, step, s.(objects := edited, dirty := true));
        pass := [Call(op), step, step, step, step];
      }
    }
    s' := next;
    assert run == actions + pass;
  }

  /** A restart left to itself while nobody holds the mutex, whose first `steps` parts of stop, save
      and launch succeed: if all do it ends with a new object in memory that holds `text`, as the file
      does and the child was told to load; otherwise nothing is in memory. */
  lemma RestartDelivers(s0: State, actions: seq<Action>, s: State, text: Cfg, steps: nat, left: Option<Cfg>)
    returns (pass: seq<Action>, s': State)
    requires Invariant(s0) && Run(true, s0, actions) == Some(s) && s.holder.Free? && s.restart.NoRestart? && steps <= 3
    ensures Run(true, s0, actions + pass) == Some(s') && pass != [] && pass[0] == Stop && |pass| <= 4
    ensures s'.restart.NoRestart? && s'.holder.Free? && s'.dirty == s.dirty
    ensures steps < 3 ==> s'.current.None? && s'.objects == s.objects && s'.loaded == s.loaded
    ensures steps < 3 ==> s'.file == if steps == 0 then s.file else if steps == 1 then left else Some(text)
    ensures steps == 3 ==>
              && s'.loaded == s'.file == Some(text)
              && s'.current == Some(|s.objects|) && s'.objects == s.objects + [Object(text, [])]
  {
    hide Run, ApplyAll, OpFails;
    var run, next := Then(s0, actions, s, Stop, s.(current := None, restart := Stopped));
    if steps == 0 {
      run, next := Then(s0, run, next, GiveUp, next.(restart := NoRestart));
      pass := [Stop, GiveUp];
    } else if steps == 1 {
      run, next := Then(s0, run, next, Build(text, false, left), next.(restart := NoRestart, file := left));
      pass := [Stop, Build(text, false, left)];
    } else {
      run, next := Then(s0, run, next, Build(text, true, left), next.(restart := Filed(text), file := Some(text)));
      if steps == 2 {
        run, next := Then(s0, run, next, Launch(false), next.(restart := NoRestart));
        pass := [Stop, Build(text, true, left), Launch(false)];
      } else {
        var more := s.objects + [Object(text, [])];
        run, next := Then(s0, run, next, Launch(true), next.(restart := Launched(text), loaded := Some(text)));
        run, next := Then(s0, run, next, Publish, next.(restart := NoRestart, current := Some(|s.objects|), objects := more));
        pass := [Stop, Build(text, true, left), Launch(true), Publish];
      }
    }
    s' := next;
    assert run == actions + pass;
  }

  /** A pass of the worker that fails leaves the flag set, for the next tick: the encoding, the save
      or the reload, whose number is `steps`. */
  lemma FailedPass(s0: State, actions: seq<Action>, s: State, steps: nat, left: Option<Cfg>)
    returns (pass: seq<Action>, s': State)
    requires Invariant(s0) && Run(true, s0, actions) == Some(s) && steps <= 2
    requires s.holder.Free? && s.dirty && s.current.Some?
    ensures Run(true, s0, actions + pass) == Some(s') && |pass| == 4 + steps
    ensures s' == s.(waiting := false,
                     file := if steps == 0 then s.file else if steps == 1 then left
                             else Some(s.objects[s.current.value].Content()))
  {
    hide Run, ApplyAll, OpFails, Invariant;
    var o := s.current.value;
    var work, fail := Advance(true, None), Advance(false, left);
    var run, next := WorkerLooks(s0, actions, s);
    var text := s.objects[o].Content();
    pass := [Tick, Lock, work];
    if steps >= 1 {
      run, next := Then(s0, run, next, work, next.(holder := Encoded(o, text)));
      pass := pass + [work];
    }
    if steps == 2 {
      run, next := Then(s0, run, next, work, next.(holder := Saved(o), file := Some(text)));
      pass := pass + [work];
    }
    run, s' := Then(s0, run, next, fail, next.(holder := Free, file := if steps == 1 then left else next.file));
    pass := pass + [fail];
    assert run == actions + pass;
  }

  /** After a restart's save of `text`. */
  function Built(s: State, text: Cfg): State {
    s.(restart := Filed(text), file := Some(text))
  }

  /** The exact condition on restarts: with a restart about to save `text`, every way to go on after
      the save is free of loss if and only if the worker is not about to save something else. */
  lemma SaveSafeIff(actions: seq<Action>, s: State, text: Cfg)
    requires After(true, actions) == Some(s) && s.restart.Stopped?
    ensures Enabled(false, s, Build(text, true, None)) && Next(false, s, Build(text, true, None)) == Built(s, text)
    ensures (forall rest :: Run(true, Built(s, text), rest).Some? ==> !Lost(Run(true, Built(s, text), rest).value))
       <==> !Clashes(s, text)
  {
    hide Run, ApplyAll, Invariant;
    if Clashes(s, text) {
      var rest, s' := ClashLoses(actions, s, text);
    } else {
      StepKeeps(s, Build(text, true, None));
      forall rest | Run(true, Built(s, text), rest).Some? ensures !Lost(Run(true, Built(s, text), rest).value) {
        InStepIsNotLost(Run(true, Built(s, text), rest).value);
      }
    }
  }

  lemma InStepIsNotLost(s: State)
    requires Invariant(s)
    ensures !Lost(s)
  {
  }

  /** If it is, the restart is lost when the rest goes on as usual: the child ends up told to load
      the old text while the new one is in memory, and the flag is clear. */
  lemma ClashLoses(actions: seq<Action>, s: State, text: Cfg) returns (rest: seq<Action>, s': State)
    requires After(true, actions) == Some(s) && s.restart.Stopped? && Clashes(s, text)
    ensures Run(true, Built(s, text), rest) == Some(s') && Lost(s')
    ensures s'.current == Some(|s.objects|) && |s'.objects| == |s.objects| + 1
    ensures s'.objects[|s.objects|].Content() == text
    ensures s'.loaded == s'.file == Some(s.objects[s.holder.o].Content()) != Some(text)
  {
    hide Run, ApplyAll;
    var s0, work, o := Built(s, text), Advance(true, None), s.holder.o;
    var pending := s.objects[o].Content();
    var more := s.objects + [Object(text, [])];
    Start(true, s0);
    NoEdits(text);
    rest, s' := [], s0;
    if s.holder.Looked? {
      rest, s' := Then(s0, rest, s', work, s'.(holder := Encoded(o, pending)));
    }
    assert s' == s0.(holder := Encoded(o, pending));
    rest, s' := Then(s0, rest, s', Launch(true), s'.(restart := Launched(text), loaded := Some(text)));
    rest, s' := Then(s0, rest, s', Publish, s'.(restart := NoRestart, current := Some(|s.objects|), objects := more));
    rest, s' := Then(s0, rest, s', work, s'.(holder := Saved(o), file := Some(pending)));
    rest, s' := Then(s0, rest, s', work, s'.(holder := Reloaded(o), loaded := Some(pending)));
    rest, s' := Then(s0, rest, s', work, s'.(holder := Cleaned(o), dirty := false));
    rest, s' := Then(s0, rest, s', work, s'.(holder := Free));
  }

  lemma {:induction false} Loosen(s0: State, actions: seq<Action>, s: State)
    requires Run(true, s0, actions) == Some(s)
    ensures Run(false, s0, actions) == Some(s)
  {
    if actions == [] {
    } else {
      Loosen(s0, actions[..|actions| - 1], Run(true, s0, actions[..|actions| - 1]).value);
    }
  }

  lemma {:induction false} Join(apart: bool, s0: State, first: seq<Action>, mid: State, rest: seq<Action>)
    requires Run(apart, s0, first) == Some(mid)
    ensures Run(apart, s0, first + rest) == Run(apart, mid, rest)
  {
    hide Next, Enabled;
    if rest == [] {
      assert first + rest == first;
    } else {
      assert (first + rest)[..|first + rest| - 1] == first + rest[..|rest| - 1];
      Join(apart, s0, first, mid, rest[..|rest| - 1]);
    }
  }

  /** So, as the code is, restarts do get lost: a node is started with `text`, an edit is made, and
      the worker is about to save it when a restart saves, launches and publishes `text'`; then the
      worker saves and loads the edited old configuration over it, and clears the flag. */
  lemma OverlapLosesRestart(text: Cfg, op: Op, text': Cfg) returns (actions: seq<Action>, s: State)
    requires !OpFails(text, op) && ApplyAll(text, [op]) != text'
    ensures After(false, actions) == Some(s) && Lost(s)
    ensures s.current == Some(1) && |s.objects| == 2 && s.objects[1].Content() == text'
    ensures s.loaded == s.file == Some(ApplyAll(text, [op]))
  {
    hide Run, ApplyAll, OpFails, Next, Enabled;
    var rest;
    actions, s := ReachLook(text, op);
    Loosen(Initial(), actions, s);
    rest, s := CrossSave(actions, s, text');
    actions := actions + rest;
  }

  /** From a clash on, as the code is. */
  lemma CrossSave(before: seq<Action>, mid: State, text: Cfg) returns (rest: seq<Action>, s: State)
    requires After(true, before) == Some(mid) && mid.restart.Stopped? && Clashes(mid, text)
    ensures After(false, before + rest) == Some(s) && Lost(s)
    ensures s.current == Some(|mid.objects|) && |s.objects| == |mid.objects| + 1
    ensures s.objects[|mid.objects|].Content() == text
    ensures s.loaded == s.file == Some(mid.objects[mid.holder.o].Content())
  {
    hide ApplyAll, Lost, Invariant;
    var save := Build(text, true, None);
    var after;
    after, s := ClashLoses(before, mid, text);
    Loosen(Initial(), before, mid);
    Loosen(Built(mid, text), after, s);
    assert [save][..0] == [];
    assert Run(false, mid, [save]) == Some(Built(mid, text));
    Join(false, mid, [save], Built(mid, text), after);
    Join(false, Initial(), before, mid, [save] + after);
    rest := [save] + after;
  }

  lemma ReachLook(text: Cfg, op: Op) returns (actions: seq<Action>, s: State)
    requires !OpFails(text, op)
    ensures After(true, actions) == Some(s)
    ensures s == State([Object(text, [op])], None, true, Some(text), Some(text), Looked(0), false, Stopped)
  {
    hide Run, ApplyAll, OpFails;
    var s0, ok, edited := Initial(), Advance(true, None), [Object(text, [op])];
    Start(true, s0);
    NoEdits(text);
    assert [] + [op] == [op] && [Object(text, [])][0 := Object(text, [op])] == edited;
    actions, s := [], s0;
    actions, s := Then(s0, actions, s, Build(text, true, None), s.(restart := Filed(text), file := Some(text)));
    actions, s := Then(s0, actions, s, Launch(true), s.(restart := Launched(text), loaded := Some(text)));
    actions, s := Then(s0, actions, s, Publish, s.(restart := NoRestart, current := Some(0), objects := [Object(text, [])]));
    actions, s := Then(s0, actions, s, Call(op), s.(holder := Entered(op)));
    actions, s := Then(s0, actions, s, ok, s.(holder := Found(op, 0)));
    actions, s := Then(s0, actions, s, ok, s.(holder := Edited(op), objects := edited));
    actions, s := Then(s0, actions, s, ok, s.(holder := Marked(op), dirty := true));
    actions, s := Then(s0, actions, s, ok, s.(holder := Free));
    actions, s := Then(s0, actions, s, Tick, s.(waiting := true));
    actions, s := Then(s0, actions, s, Lock, s.(waiting := false, holder := Began));
    actions, s := Then(s0, actions, s, ok, s.(holder := Looked(0)));
    actions, s := Then(s0, actions, s, Stop, s.(current := None, restart := Stopped));
  }

  /** A call that is about to edit the object it found, and will succeed. */
  predicate WillEdit(s: State, op: Op, o: nat) {
    s.holder == Found(op, o) && o < |s.objects| && !OpFails(s.objects[o].Content(), op)
  }

  lemma ObjectStep(s: State, a: Action, o: nat)
    requires Invariant(s) && Enabled(true, s, a) && o < |s.objects|
    ensures var s' := Next(true, s, a);
            && o < |s'.objects| && s'.objects[o].base == s.objects[o].base && s.objects[o].edits <= s'.objects[o].edits
            && (s'.current == Some(o) <==> s.current == Some(o) && a != Stop)
  {
    hide ApplyAll, OpFails;
  }

  /** An object keeps its edits, and is the current one as long as it was and nothing stopped. */
  lemma {:induction false} ObjectStays(s0: State, o: nat, rest: seq<Action>, s: State)
    requires Invariant(s0) && o < |s0.objects| && Run(true, s0, rest) == Some(s)
    ensures o < |s.objects| && s.objects[o].base == s0.objects[o].base && s0.objects[o].edits <= s.objects[o].edits
    ensures s.current == Some(o) <==> s0.current == Some(o) && Stop !in rest
  {
    hide Invariant, Next, Enabled;
    if rest == [] {
    } else {
      var init, a := rest[..|rest| - 1], rest[|rest| - 1];
      var before := Run(true, s0, init).value;
      ObjectStays(s0, o, init, before);
      ObjectStep(before, a, o);
      assert rest == init + [a];
    }
  }

  /** Which accepted edits survive: an edit made by a call that succeeds is in what the child was
      told to load, whenever that is settled again, if and only if the call's object was still the
      current one when it was edited and no restart has stopped since. */
  lemma EditSurvivesIff(actions: seq<Action>, s: State, op: Op, o: nat, rest: seq<Action>, s': State)
    requires After(true, actions) == Some(s) && WillEdit(s, op, o)
    requires Run(true, CallStep(s), rest) == Some(s')
    ensures o < |s'.objects| && s.objects[o].edits + [op] <= s'.objects[o].edits
    ensures s'.current == Some(o) <==> s.current == Some(o) && Stop !in rest
    ensures s'.current.Some? && s'.holder.Free? && !s'.dirty ==>
              && s'.current.value < |s'.objects|
              && var it := s'.objects[s'.current.value];
                 s'.loaded == Some(ApplyAll(it.base, it.edits))
  {
    hide ApplyAll, OpFails;
    CallStepKeeps(s);
    ObjectStays(CallStep(s), o, rest, s');
  }

  /** So an edit can be accepted and lost: if a whole restart passes between a call's look-up and its
      edit, the call succeeds, and an undisturbed pass of the worker later the child has been told
      to load the restart's text without the edit, with nothing left to do. */
  lemma StaleEditIsLost(actions: seq<Action>, s: State, op: Op, o: nat, text: Cfg)
    returns (rest: seq<Action>, s': State)
    requires After(true, actions) == Some(s) && WillEdit(s, op, o) && s.current == Some(o)
    ensures Run(true, s, rest) == Some(s')
    ensures s'.holder.Free? && !s'.dirty && s'.current == Some(|s.objects|) && |s'.objects| == |s.objects| + 1
    ensures s'.objects[o].edits == s.objects[o].edits + [op] && s'.objects[|s.objects|] == Object(text, [])
    ensures s'.loaded == s'.file == Some(text)
  {
    hide Run, ApplyAll, OpFails;
    Start(true, s);
    NoEdits(text);
    var ok, more := Advance(true, None), s.objects + [Object(text, [])];
    var edited := more[o := s.objects[o].(edits := s.objects[o].edits + [op])];
    rest, s' := [], s;
    rest, s' := Then(s, rest, s', Stop, s'.(current := None, restart := Stopped));
    rest, s' := Then(s, rest, s', Build(text, true, None), s'.(restart := Filed(text), file := Some(text)));
    rest, s' := Then(s, rest, s', Launch(true), s'.(restart := Launched(text), loaded := Some(text)));
    rest, s' := Then(s, rest, s', Publish, s'.(restart := NoRestart, current := Some(|s.objects|), objects := more));
    rest, s' := Then(s, rest, s', ok, s'.(holder := Edited(op), objects := edited));
    rest, s' := Then(s, rest, s', ok, s'.(holder := Marked(op), dirty := true));
    rest, s' := Then(s, rest, s', ok, s'.(holder := Free));
    var pass;
    pass, s' := PassDelivers(s, rest, s');
    rest := rest + pass;
  }
}
