/** Whole attempts run one at a time, in any order the jobs' retries allow: the schedule a
    worker pool is compared with, and the fact that with distinct ids every complete
    schedule ends like the message list applied in order. */
module Serial {
  import opened Model
  import opened Reconcile
  import opened Ledger

  /** How far one job has come: attempts made, and whether its worker is through with it. */
  datatype Progress = Progress(tries: nat, finished: bool)

  datatype Serial = Serial(st: State, progress: seq<Progress>)

  function Fresh(st: State, jobs: seq<Job>): Serial {
    Serial(st, seq(|jobs|, _ => Progress(0, false)))
  }

  predicate CanTry(c: Serial, j: nat) {
    j < |c.progress| && !c.progress[j].finished
  }

  /** A job is through after an attempt that succeeded, was the last allowed, or found the
      context cancelled. */
  predicate Through(rules: Rules, job: Job, tries: nat, ok: bool) {
    ok || job.env(tries).cancelled || tries >= rules.retries
  }

  /** The next attempt of job `j`, as one indivisible step. */
  function Try(rules: Rules, jobs: seq<Job>, c: Serial, j: nat): (c': Serial)
    requires |c.progress| == |jobs| && CanTry(c, j)
    ensures |c'.progress| == |jobs|
  {
    var uid, tries := jobs[j].msg.id, c.progress[j].tries + 1;
    var (s, ok) := Attempt(rules.node, Get(c.st, uid), jobs[j].msg, rules.force, jobs[j].env(tries));
    Serial(Put(c.st, uid, s), c.progress[j := Progress(tries, Through(rules, jobs[j], tries, ok))])
  }

  /** The attempts of `schedule`, a list of job numbers, carried out in that order; an entry
      for a job that is already through does nothing. */
  function Run(rules: Rules, jobs: seq<Job>, st: State, schedule: seq<nat>): (c: Serial)
    ensures |c.progress| == |jobs|
  {
    if schedule == [] then Fresh(st, jobs)
    else
      var c := Run(rules, jobs, st, schedule[..|schedule| - 1]);
      var j := schedule[|schedule| - 1];
      if CanTry(c, j) then Try(rules, jobs, c, j) else c
  }

  lemma RunNone(rules: Rules, jobs: seq<Job>, st: State)
    ensures Run(rules, jobs, st, []) == Fresh(st, jobs)
  {
  }

  lemma RunOneMore(rules: Rules, jobs: seq<Job>, st: State, schedule: seq<nat>, j: nat)
    requires CanTry(Run(rules, jobs, st, schedule), j)
    ensures Run(rules, jobs, st, schedule + [j]) == Try(rules, jobs, Run(rules, jobs, st, schedule), j)
  {
  }

  predicate AllFinished(c: Serial) {
    forall j :: 0 <= j < |c.progress| ==> c.progress[j].finished
  }

  /** Where job `j` stands: what its remaining attempts would still do to its user is what
      all of them would have done to the user's first slice. */
  predicate OnTrack(rules: Rules, start: Slice, job: Job, now: Slice, p: Progress) {
    && (p.finished ==> now == Retried(rules, start, job))
    && (!p.finished ==>
          (Retry(rules.node, now, job, rules.force, rules.retries, p.tries + 1)
           == Retry(rules.node, start, job, rules.force, rules.retries, 1)))
  }

  lemma TryOnTrack(rules: Rules, start: Slice, job: Job, now: Slice, p: Progress)
    requires OnTrack(rules, start, job, now, p) && !p.finished
    ensures var (s, ok) := Attempt(rules.node, now, job.msg, rules.force, job.env(p.tries + 1));
            OnTrack(rules, start, job, s, Progress(p.tries + 1, Through(rules, job, p.tries + 1, ok)))
  {
  }

  lemma {:induction false} ScheduleOnTrack(rules: Rules, jobs: seq<Job>, st: State, schedule: seq<nat>, j: nat)
    requires DistinctIds(jobs) && j < |jobs| && jobs[j].msg.Valid()
    ensures var c := Run(rules, jobs, st, schedule);
            OnTrack(rules, Get(st, jobs[j].msg.id), jobs[j], Get(c.st, jobs[j].msg.id), c.progress[j])
  {
    hide Attempt, Get, Put;
    if schedule == [] {
    } else {
      var init, k := schedule[..|schedule| - 1], schedule[|schedule| - 1];
      var c := Run(rules, jobs, st, init);
      ScheduleOnTrack(rules, jobs, st, init, j);
      if CanTry(c, k) {
        TryOthers(rules, jobs, c, k, jobs[j].msg.id);
        if k == j {
          TryOnTrack(rules, Get(st, jobs[j].msg.id), jobs[j], Get(c.st, jobs[j].msg.id), c.progress[j]);
        } else {
          assert jobs[k].msg.Valid() ==> jobs[k].msg.id != jobs[j].msg.id;
        }
      }
    }
  }

  lemma TryOthers(rules: Rules, jobs: seq<Job>, c: Serial, k: nat, uid: Uid)
    requires |c.progress| == |jobs| && CanTry(c, k)
    ensures var tries := c.progress[k].tries + 1;
            Get(Try(rules, jobs, c, k).st, uid) ==
            (if uid == jobs[k].msg.id && jobs[k].msg.Valid()
             then Attempt(rules.node, Get(c.st, uid), jobs[k].msg, rules.force, jobs[k].env(tries)).0
             else Get(c.st, uid))
  {
  }

  lemma {:induction false} ScheduleOthers(rules: Rules, jobs: seq<Job>, st: State, schedule: seq<nat>, uid: Uid)
    requires !Concerns(jobs, uid)
    ensures Get(Run(rules, jobs, st, schedule).st, uid) == Get(st, uid)
  {
    if schedule == [] {
    } else {
      var init, k := schedule[..|schedule| - 1], schedule[|schedule| - 1];
      var c := Run(rules, jobs, st, init);
      ScheduleOthers(rules, jobs, st, init, uid);
      if CanTry(c, k) {
        TryOthers(rules, jobs, c, k, uid);
      }
    }
  }

  /** With distinct ids, every schedule that gets through all jobs ends in the state of the
      message list applied in order. */
  lemma ScheduleIrrelevant(rules: Rules, jobs: seq<Job>, st: State, schedule: seq<nat>)
    requires DistinctIds(jobs)
    requires AllFinished(Run(rules, jobs, st, schedule))
    ensures Run(rules, jobs, st, schedule).st == InOrder(rules, st, jobs)
  {
    var c := Run(rules, jobs, st, schedule);
    forall uid ensures Get(c.st, uid) == Get(InOrder(rules, st, jobs), uid) {
      if Concerns(jobs, uid) {
        var j :| 0 <= j < |jobs| && jobs[j].msg.Valid() && jobs[j].msg.id == uid;
        ScheduleOnTrack(rules, jobs, st, schedule, j);
        InOrderSlice(rules, st, jobs, j);
      } else {
        ScheduleOthers(rules, jobs, st, schedule, uid);
        InOrderOthers(rules, st, jobs, uid);
      }
    }
    SameSlices(c.st, InOrder(rules, st, jobs));
  }

  /** A schedule of these jobs, and of nothing else, that gets through all of them. */
  predicate Completes(rules: Rules, jobs: seq<Job>, st: State, schedule: seq<nat>) {
    Names(schedule, |jobs|) && AllFinished(Run(rules, jobs, st, schedule))
  }

  predicate Names(schedule: seq<nat>, jobs: nat) {
    forall i :: 0 <= i < |schedule| ==> schedule[i] < jobs
  }

  /** From `st` to `now` by whole attempts at these jobs, one at a time, until all were through. */
  ghost predicate Serialised(rules: Rules, jobs: seq<Job>, st: State, now: State) {
    exists schedule :: Completes(rules, jobs, st, schedule) && Run(rules, jobs, st, schedule).st == now
  }

  function Shifted(schedule: seq<nat>, n: nat): seq<nat> {
    if schedule == [] then [] else Shifted(schedule[..|schedule| - 1], n) + [schedule[|schedule| - 1] + n]
  }

  lemma {:induction false} ShiftedNames(schedule: seq<nat>, n: nat, jobs: nat)
    requires Names(schedule, jobs)
    ensures Names(Shifted(schedule, n), n + jobs)
  {
    if schedule == [] {
    } else {
      ShiftedNames(schedule[..|schedule| - 1], n, jobs);
    }
  }

  /** Jobs that the schedule does not name stay untouched. */
  lemma {:induction false} RunFirst(rules: Rules, first: seq<Job>, rest: seq<Job>, st: State, schedule: seq<nat>)
    requires Names(schedule, |first|)
    ensures var c := Run(rules, first, st, schedule);
            Run(rules, first + rest, st, schedule) == Serial(c.st, c.progress + Fresh(st, rest).progress)
  {
    hide Attempt, Get, Put;
    if schedule == [] {
    } else {
      var init, j := schedule[..|schedule| - 1], schedule[|schedule| - 1];
      RunFirst(rules, first, rest, st, init);
      assert (first + rest)[j] == first[j];
    }
  }

  lemma TryRest(rules: Rules, first: seq<Job>, rest: seq<Job>, done: seq<Progress>, c: Serial, j: nat)
    requires |done| == |first| && |c.progress| == |rest| && CanTry(c, j)
    ensures var c' := Try(rules, rest, c, j);
            Try(rules, first + rest, Serial(c.st, done + c.progress), |first| + j) == Serial(c'.st, done + c'.progress)
  {
    hide Attempt, Get, Put;
    assert (first + rest)[|first| + j] == rest[j];
  }

  lemma {:induction false} RunRest(rules: Rules, first: seq<Job>, rest: seq<Job>, st: State, s1: seq<nat>, s2: seq<nat>)
    requires Names(s1, |first|) && Names(s2, |rest|)
    ensures var c1 := Run(rules, first, st, s1);
            var c2 := Run(rules, rest, c1.st, s2);
            Run(rules, first + rest, st, s1 + Shifted(s2, |first|)) == Serial(c2.st, c1.progress + c2.progress)
  {
    hide Try;
    if s2 == [] {
      assert s1 + [] == s1;
      RunFirst(rules, first, rest, st, s1);
    } else {
      var init, j := s2[..|s2| - 1], s2[|s2| - 1];
      RunRest(rules, first, rest, st, s1, init);
      var schedule := s1 + Shifted(s2, |first|);
      assert schedule[..|schedule| - 1] == s1 + Shifted(init, |first|);
      var c1 := Run(rules, first, st, s1);
      var c2 := Run(rules, rest, c1.st, init);
      if CanTry(c2, j) {
        TryRest(rules, first, rest, c1.progress, c2, j);
      }
    }
  }

  lemma SerialisedConcat(rules: Rules, first: seq<Job>, rest: seq<Job>, st: State, mid: State, now: State)
    requires Serialised(rules, first, st, mid) && Serialised(rules, rest, mid, now)
    ensures Serialised(rules, first + rest, st, now)
  {
    hide Run;
    var s1 :| Completes(rules, first, st, s1) && Run(rules, first, st, s1).st == mid;
    var s2 :| Completes(rules, rest, mid, s2) && Run(rules, rest, mid, s2).st == now;
    RunRest(rules, first, rest, st, s1, s2);
    ShiftedNames(s2, |first|, |rest|);
    assert Completes(rules, first + rest, st, s1 + Shifted(s2, |first|));
  }

  lemma {:induction false} FinishJob(rules: Rules, job: Job, st: State, schedule: seq<nat>)
    returns (finished: seq<nat>)
    requires Names(schedule, 1)
    ensures Completes(rules, [job], st, finished)
    decreases rules.retries - Run(rules, [job], st, schedule).progress[0].tries,
              !Run(rules, [job], st, schedule).progress[0].finished
  {
    hide Attempt, Get, Put;
    var c := Run(rules, [job], st, schedule);
    if c.progress[0].finished {
      finished := schedule;
    } else {
      RunOneMore(rules, [job], st, schedule, 0);
      finished := FinishJob(rules, job, st, schedule + [0]);
    }
  }

  /** Applying the messages one by one is a special case. */
  lemma {:induction false} InOrderIsSerial(rules: Rules, st: State, jobs: seq<Job>)
    ensures Serialised(rules, jobs, st, InOrder(rules, st, jobs))
  {
    hide Run, Apply;
    if jobs == [] {
      RunNone(rules, jobs, st);
      assert Completes(rules, jobs, st, []);
    } else {
      var init, job := jobs[..|jobs| - 1], jobs[|jobs| - 1];
      var mid := InOrder(rules, st, init);
      InOrderIsSerial(rules, st, init);
      var schedule := FinishJob(rules, job, mid, []);
      ScheduleIrrelevant(rules, [job], mid, schedule);
      assert [job][..0] == [];
      assert Serialised(rules, [job], mid, InOrder(rules, mid, [job]));
      SerialisedConcat(rules, init, [job], st, mid, InOrder(rules, mid, [job]));
      assert jobs == init + [job];
    }
  }

  lemma SerialisedDistinct(rules: Rules, jobs: seq<Job>, st: State, now: State)
    requires Serialised(rules, jobs, st, now) && DistinctIds(jobs)
    ensures now == InOrder(rules, st, jobs)
  {
    var schedule :| Completes(rules, jobs, st, schedule) && Run(rules, jobs, st, schedule).st == now;
    ScheduleIrrelevant(rules, jobs, st, schedule);
  }

  lemma SerialisedOthers(rules: Rules, jobs: seq<Job>, st: State, now: State, uid: Uid)
    requires Serialised(rules, jobs, st, now) && !Concerns(jobs, uid)
    ensures Get(now, uid) == Get(st, uid)
  {
    var schedule :| Completes(rules, jobs, st, schedule) && Run(rules, jobs, st, schedule).st == now;
    ScheduleOthers(rules, jobs, st, schedule, uid);
  }

  /** Users whom no message is about have the slice they had. */
  ghost predicate KeptOthers(jobs: seq<Job>, st: State, now: State) {
    forall uid :: !Concerns(jobs, uid) ==> Get(now, uid) == Get(st, uid)
  }

  /** This holds for all messages received, whatever part of them was applied. */
  lemma PrefixKeepsOthers(rules: Rules, jobs: seq<Job>, n: nat, st: State, now: State)
    requires n <= |jobs| && Serialised(rules, jobs[..n], st, now)
    ensures KeptOthers(jobs, st, now)
  {
    hide Get;
    forall uid | !Concerns(jobs, uid) ensures Get(now, uid) == Get(st, uid) {
      SerialisedOthers(rules, jobs[..n], st, now, uid);
    }
  }

  /** From `st` to `now` by a repopulation with these messages, however its workers ran. */
  ghost predicate Repopulates(rules: Rules, jobs: seq<Job>, env: CleanupEnv, st: State, now: State) {
    exists mid :: Serialised(rules, jobs, st, mid) && now == Cleanup(rules.node, mid, Ids(jobs), env)
  }

  /** With distinct ids there is one result, so any two repopulations with the same messages,
      streamed or not, in chunks of any size and with any number of workers, end alike. */
  lemma RepopulatesDistinct(rules: Rules, jobs: seq<Job>, env: CleanupEnv, st: State, now: State)
    requires Repopulates(rules, jobs, env, st, now) && DistinctIds(jobs)
    ensures now == Repopulate(rules, st, jobs, env)
  {
    var mid :| Serialised(rules, jobs, st, mid) && now == Cleanup(rules.node, mid, Ids(jobs), env);
    SerialisedDistinct(rules, jobs, st, mid);
  }
}
