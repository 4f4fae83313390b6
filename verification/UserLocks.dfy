/** The reference-counted lock per user. Its mutex objects are created when a first thread
    asks for a user and dropped when the last one is done, so exclusion cannot rest on all
    threads sharing one mutex from the start. Threads step independently: entering the
    table, taking the mutex, giving it back and leaving the table are separate steps. */
module UserLocks {
  import opened Model

  /** The table under `lockMu`: the mutex of each user, and the references of each mutex. */
  datatype Table<!L(==)> = Table(locks: map<Uid, L>, refs: map<L, int>)

  /** The mutex a thread asking for `uid` gets: the one in the table, or `created` if there is none. */
  function LockFor<L>(table: Table<L>, uid: Uid, created: L): L {
    if uid in table.locks then table.locks[uid] else created
  }

  function RefsOf<L>(table: Table<L>, lock: L): int {
    if lock in table.refs then table.refs[lock] else 0
  }

  function Registered<L>(table: Table<L>, uid: Uid, created: L): Table<L> {
    var lock := LockFor(table, uid, created);
    Table(table.locks[uid := lock], table.refs[lock := RefsOf(table, lock) + 1])
  }

  /** One reference less, and the entry dropped if that was the last one and the entry still
      holds the same mutex. */
  function Deregistered<L>(table: Table<L>, uid: Uid, lock: L): Table<L> {
    var refs := RefsOf(table, lock) - 1;
    Table(if refs <= 0 && uid in table.locks && table.locks[uid] == lock then table.locks - {uid} else table.locks,
          table.refs[lock := refs])
  }

  class UserLockState {
    var refs: int

    constructor ()
      ensures refs == 0
    {
      refs := 0;
    }
  }

  class LockTable {
    var userLocks: map<Uid, UserLockState>

    constructor ()
      ensures userLocks == map[]
    {
      userLocks := map[];
    }

    /** The table as a value, over the mutex objects created so far. */
    ghost function View(created: set<UserLockState>): Table<UserLockState>
      reads this, created
    {
      Table(userLocks, map l | l in created :: l.refs)
    }

    /** The part of locking a user that runs under `lockMu`. */
    method Register(uid: Uid, ghost created: set<UserLockState>) returns (lk: UserLockState)
      requires userLocks.Values <= created
      modifies this, created
      ensures if uid in old(userLocks) then lk == old(userLocks[uid]) && lk.refs == old(userLocks[uid].refs) + 1
              else fresh(lk) && lk.refs == 1
      ensures userLocks == old(userLocks)[uid := lk]
      ensures forall other :: other in created && other != lk ==> other.refs == old(other.refs)
      ensures userLocks.Values <= created + {lk}
      ensures lk == LockFor(old(View(created)), uid, lk)
      ensures View(created + {lk}) == Registered(old(View(created)), uid, lk)
    {
      if uid in userLocks {
        lk := userLocks[uid];
        assert lk in userLocks.Values;
      } else {
        lk := new UserLockState();
        userLocks := userLocks[uid := lk];
      }
      lk.refs := lk.refs + 1;
    }

    /** The part of unlocking a user that runs under `lockMu`. */
    method Deregister(uid: Uid, lk: UserLockState, ghost created: set<UserLockState>)
      requires userLocks.Values <= created && lk in created
      modifies this, created
      ensures lk.refs == old(lk.refs) - 1
      ensures userLocks == if old(lk.refs) <= 1 && uid in old(userLocks) && old(userLocks[uid]) == lk
                           then old(userLocks) - {uid} else old(userLocks)
      ensures forall other :: other in created && other != lk ==> other.refs == old(other.refs)
      ensures userLocks.Values <= created
      ensures View(created) == Deregistered(old(View(created)), uid, lk)
    {
      lk.refs := lk.refs - 1;
      if lk.refs <= 0 {
        if uid in userLocks && userLocks[uid] == lk {
          userLocks := userLocks - {uid};
        }
      }
    }
  }

  /** Where one thread is in locking and unlocking a user. */
  datatype Thread<L> =
    | Outside
    | Queued(uid: Uid, lock: L)
    | Inside(uid: Uid, lock: L)
    | Leaving(uid: Uid, lock: L)

  datatype System<!L(==)> = System(table: Table<L>, held: set<L>, threads: seq<Thread<L>>)

  datatype Action<L> =
    | Register(t: nat, uid: Uid, created: L)
    | Acquire(t: nat)
    | Release(t: nat)
    | Deregister(t: nat)

  /** A new mutex object is one that was never seen before, and a mutex can be taken only
      while nobody holds it. */
  predicate Enabled<L(==)>(s: System<L>, a: Action<L>) {
    && a.t < |s.threads|
    && match a
       case Register(t, uid, created) => s.threads[t].Outside? && (uid !in s.table.locks ==> created !in s.table.refs)
       case Acquire(t) => s.threads[t].Queued? && s.threads[t].lock !in s.held
       case Release(t) => s.threads[t].Inside?
       case Deregister(t) => s.threads[t].Leaving?
  }

  function Next<L(==)>(s: System<L>, a: Action<L>): System<L>
    requires Enabled(s, a)
  {
    match a
    case Register(t, uid, created) =>
      var lock := LockFor(s.table, uid, created);
      s.(table := Registered(s.table, uid, created), threads := s.threads[t := Queued(uid, lock)])
    case Acquire(t) =>
      s.(held := s.held + {s.threads[t].lock}, threads := s.threads[t := Inside(s.threads[t].uid, s.threads[t].lock)])
    case Release(t) =>
      s.(held := s.held - {s.threads[t].lock}, threads := s.threads[t := Leaving(s.threads[t].uid, s.threads[t].lock)])
    case Deregister(t) =>
      s.(table := Deregistered(s.table, s.threads[t].uid, s.threads[t].lock), threads := s.threads[t := Outside])
  }

  function Start<L>(threads: nat): System<L> {
    System(Table(map[], map[]), {}, seq(threads, _ => Outside))
  }

  predicate Uses<L(==)>(thread: Thread<L>, lock: L) {
    !thread.Outside? && thread.lock == lock
  }

  /** The number of threads registered with a mutex. */
  function Users<L(==)>(threads: seq<Thread<L>>, lock: L): nat {
    if threads == [] then 0
    else
      var last := threads[|threads| - 1];
      Users(threads[..|threads| - 1], lock) + (if Uses(last, lock) then 1 else 0)
  }

  lemma {:induction false} UsersUpdate<L>(threads: seq<Thread<L>>, lock: L, t: nat, thread: Thread<L>)
    requires t < |threads|
    ensures Users(threads[t := thread], lock)
         == Users(threads, lock) - (if Uses(threads[t], lock) then 1 else 0) + (if Uses(thread, lock) then 1 else 0)
  {
    var init := threads[..|threads| - 1];
    if t == |threads| - 1 {
      assert threads[t := thread][..|threads| - 1] == init;
    } else {
      assert threads[t := thread][..|threads| - 1] == init[t := thread];
      UsersUpdate(init, lock, t, thread);
    }
  }

  lemma {:induction false} UsersPositive<L>(threads: seq<Thread<L>>, lock: L)
    ensures Users(threads, lock) > 0 <==> exists t :: 0 <= t < |threads| && Uses(threads[t], lock)
  {
    if threads == [] {
    } else {
      var init, last := threads[..|threads| - 1], threads[|threads| - 1];
      UsersPositive(init, lock);
      if t :| 0 <= t < |threads| && Uses(threads[t], lock) {
        assert t < |init| ==> Uses(init[t], lock);
      }
      if t :| 0 <= t < |init| && Uses(init[t], lock) {
        assert Uses(threads[t], lock);
      }
    }
  }

  /** Every registered thread shares the mutex that the table holds for its user. */
  predicate Shared<L(==)>(s: System<L>) {
    forall t :: 0 <= t < |s.threads| && !s.threads[t].Outside? ==>
      s.threads[t].uid in s.table.locks && s.table.locks[s.threads[t].uid] == s.threads[t].lock
  }

  /** The references of a mutex are the threads registered with it, and a mutex in the table
      has at least one. */
  ghost predicate Counted<L(!new)>(s: System<L>) {
    && (forall lock :: RefsOf(s.table, lock) == Users(s.threads, lock))
    && (forall uid :: uid in s.table.locks ==>
          s.table.locks[uid] in s.table.refs && RefsOf(s.table, s.table.locks[uid]) > 0)
    && (forall uid, v :: uid in s.table.locks && v in s.table.locks && s.table.locks[uid] == s.table.locks[v] ==> uid == v)
  }

  /** The held mutexes are those of the threads inside, one thread each. */
  predicate HeldByOne<L(==)>(s: System<L>) {
    && (forall t :: 0 <= t < |s.threads| && s.threads[t].Inside? ==> s.threads[t].lock in s.held)
    && (forall t, v :: 0 <= t < v < |s.threads| && s.threads[t].Inside? && s.threads[v].Inside? ==>
          s.threads[t].lock != s.threads[v].lock)
    && (forall lock :: lock in s.held ==> exists t :: 0 <= t < |s.threads| && s.threads[t].Inside? && s.threads[t].lock == lock)
  }

  ghost predicate Invariant<L(!new)>(s: System<L>) {
    Shared(s) && Counted(s) && HeldByOne(s)
  }

  lemma CountedKept<L(!new)>(s: System<L>, a: Action<L>)
    requires Shared(s) && Counted(s) && Enabled(s, a)
    ensures Counted(Next(s, a)) && Shared(Next(s, a))
  {
    var s' := Next(s, a);
    forall lock ensures RefsOf(s'.table, lock) == Users(s'.threads, lock) {
      UsersUpdate(s.threads, lock, a.t, s'.threads[a.t]);
      UsersPositive(s.threads, lock);
    }
    match a
    case Register(t, uid, created) =>
    case Deregister(t) =>
      var lock := s.threads[t].lock;
      forall v | 0 <= v < |s'.threads| && !s'.threads[v].Outside?
        ensures s'.threads[v].uid in s'.table.locks && s'.table.locks[s'.threads[v].uid] == s'.threads[v].lock
      {
        UsersPositive(s'.threads, lock);
        assert s'.threads[v] == s.threads[v];
        assert s.threads[v].uid == s.threads[t].uid ==> Uses(s'.threads[v], lock);
      }
      forall uid | uid in s'.table.locks ensures RefsOf(s'.table, s'.table.locks[uid]) > 0 {
      }
    case _ =>
  }

  lemma HeldKept<L(!new)>(s: System<L>, a: Action<L>)
    requires Invariant(s) && Enabled(s, a)
    ensures HeldByOne(Next(s, a))
  {
    var s' := Next(s, a);
    forall lock | lock in s'.held ensures exists t :: 0 <= t < |s'.threads| && s'.threads[t].Inside? && s'.threads[t].lock == lock {
      if a.Acquire? && lock == s.threads[a.t].lock {
        assert s'.threads[a.t].Inside? && s'.threads[a.t].lock == lock;
      } else {
        var t :| 0 <= t < |s.threads| && s.threads[t].Inside? && s.threads[t].lock == lock;
        assert s'.threads[t] == s.threads[t];
      }
    }
  }

  /** The system after one interleaving, if each step was possible when its turn came. */
  ghost function After<L(!new)>(threads: nat, actions: seq<Action<L>>): (r: Option<System<L>>)
    ensures r.Some? ==> Invariant(r.value)
  {
    if actions == [] then
      StartInvariant<L>(threads);
      Some(Start<L>(threads))
    else
      var a := actions[|actions| - 1];
      match After(threads, actions[..|actions| - 1])
      case None => None
      case Some(s) =>
        if Enabled(s, a) then
          CountedKept(s, a);
          HeldKept(s, a);
          Some(Next(s, a))
        else None
  }

  lemma StartInvariant<L(!new)>(threads: nat)
    ensures Invariant(Start<L>(threads))
  {
    forall lock: L ensures Users(Start<L>(threads).threads, lock) == 0 {
      UsersPositive(Start<L>(threads).threads, lock);
    }
  }

  /** Mutual exclusion: in every interleaving of any number of threads over any users, at
      most one thread is inside for a user. */
  lemma MutualExclusion<L(!new)>(threads: nat, actions: seq<Action<L>>, s: System<L>, t: nat, v: nat)
    requires After(threads, actions) == Some(s)
    requires t < |s.threads| && v < |s.threads| && s.threads[t].Inside? && s.threads[v].Inside?
    requires s.threads[t].uid == s.threads[v].uid
    ensures t == v
  {
  }

  /** The threads registered for a user. */
  function RegisteredFor<L>(threads: seq<Thread<L>>, uid: Uid): set<nat> {
    set t: nat | t < |threads| && !threads[t].Outside? && threads[t].uid == uid
  }

  /** The reference count of the mutex a user has in the table is the number of threads
      registered for that user, all of which share that mutex; a user without a mutex in the
      table has no such thread. In particular the table is empty once all threads are out. */
  lemma RefsAreRegistrations<L(!new)>(threads: nat, actions: seq<Action<L>>, s: System<L>, uid: Uid)
    requires After(threads, actions) == Some(s)
    ensures var registered := RegisteredFor(s.threads, uid);
            if uid in s.table.locks then
              && RefsOf(s.table, s.table.locks[uid]) == |registered| > 0
              && forall t :: t in registered ==> s.threads[t].lock == s.table.locks[uid]
            else registered == {}
  {
    if uid in s.table.locks {
      var lock := s.table.locks[uid];
      forall t | 0 <= t < |s.threads|
        ensures Uses(s.threads[t], lock) <==> !s.threads[t].Outside? && s.threads[t].uid == uid
      {
      }
      UsersAreThreads(s.threads, lock, uid);
    }
  }

  lemma {:induction false} UsersAreThreads<L>(threads: seq<Thread<L>>, lock: L, uid: Uid)
    requires forall t :: 0 <= t < |threads| ==> (Uses(threads[t], lock) <==> !threads[t].Outside? && threads[t].uid == uid)
    ensures Users(threads, lock) == |RegisteredFor(threads, uid)|
  {
    if threads == [] {
      assert RegisteredFor(threads, uid) == {};
    } else {
      var k := |threads| - 1;
      UsersAreThreads(threads[..k], lock, uid);
      assert RegisteredFor(threads, uid)
          == RegisteredFor(threads[..k], uid) + if Uses(threads[k], lock) then {k} else {};
    }
  }

  /** When a thread leaves, its reference is still counted and the table still holds its
      mutex, so the re-check before the deletion never fails. */
  lemma RecheckNeverFails<L(!new)>(threads: nat, actions: seq<Action<L>>, s: System<L>, t: nat)
    requires After(threads, actions) == Some(s) && t < |s.threads| && s.threads[t].Leaving?
    ensures var uid, lock := s.threads[t].uid, s.threads[t].lock;
            && uid in s.table.locks && s.table.locks[uid] == lock && RefsOf(s.table, lock) >= 1
            && (uid in Deregistered(s.table, uid, lock).locks
                <==> exists v :: 0 <= v < |s.threads| && v != t && !s.threads[v].Outside? && s.threads[v].uid == uid)
  {
    var uid, lock := s.threads[t].uid, s.threads[t].lock;
    var left := s.threads[t := Outside];
    UsersUpdate(s.threads, lock, t, Outside);
    UsersPositive(left, lock);
    if v :| 0 <= v < |s.threads| && v != t && !s.threads[v].Outside? && s.threads[v].uid == uid {
      assert Uses(left[v], lock);
    }
    if v :| 0 <= v < |left| && Uses(left[v], lock) {
      assert v != t && s.threads[v].uid == uid;
    }
  }
}
