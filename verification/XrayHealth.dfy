/** The health monitor of xray: it probes the running child at every tick and restarts it after
    enough failures in a row, but not too soon after the last start. */
module XrayHealth {
  import opened Model

  /** What a tick finds: a stop under way, no child, no connection, or what the probe answers. */
  datatype Probe = StopPlanned | NotRunning | NoApi | Healthy | Failing

  /** A tick at time `now`; if it makes the monitor restart the child, `started` is the time that
      start records, or nothing if the restart fails. Or a start made by somebody else. */
  datatype Event = Tick(now: int, probe: Probe, started: Option<int>) | Started(now: int)
  {
    predicate Fails() { Tick? && probe.Failing? }
  }

  /** The monitor's settings and the start recorded before its first tick. */
  datatype Monitor = Monitor(maxFailures: int, cooldown: int, lastStart: Option<int>)
  {
    function Threshold(): nat { if maxFailures <= 0 then 3 else maxFailures }
  }

  datatype Status = Status(failures: nat, lastStart: Option<int>)

  predicate Ripe(m: Monitor, s: Status, e: Event) {
    e.Fails() && s.failures + 1 >= m.Threshold()
  }

  predicate Cooling(m: Monitor, last: Option<int>, now: int) {
    m.cooldown > 0 && last.Some? && now - last.value < m.cooldown
  }

  function Next(m: Monitor, s: Status, e: Event): Status {
    if e.Started? then s.(lastStart := Some(e.now))
    else if !Ripe(m, s, e) then s.(failures := if e.Fails() then s.failures + 1 else 0)
    else if Cooling(m, s.lastStart, e.now) || e.started.None? then s.(failures := 0)
    else Status(0, e.started)
  }

  /** The status before event `n`. */
  function Before(m: Monitor, events: seq<Event>, n: nat): (s: Status)
    requires n <= |events|
    ensures s.failures < m.Threshold()
  {
    if n == 0 then Status(0, m.lastStart) else Next(m, Before(m, events, n - 1), events[n - 1])
  }

  predicate Attempts(m: Monitor, events: seq<Event>, k: nat)
    requires k < |events|
  {
    var s := Before(m, events, k);
    Ripe(m, s, events[k]) && !Cooling(m, s.lastStart, events[k].now)
  }

  predicate Skips(m: Monitor, events: seq<Event>, k: nat)
    requires k < |events|
  {
    var s := Before(m, events, k);
    Ripe(m, s, events[k]) && Cooling(m, s.lastStart, events[k].now)
  }

  class Health {
    const maxFailures: int
    const cooldown: int
    var lastStart: Option<int>

    constructor (maxFailures: int, cooldown: int)
      ensures this.maxFailures == maxFailures && this.cooldown == cooldown && lastStart.None?
    {
      this.maxFailures, this.cooldown, lastStart := maxFailures, cooldown, None;
    }

    function Settings(): Monitor
      reads this
    {
      Monitor(maxFailures, cooldown, lastStart)
    }

    /** The monitor's loop; returns the ticks at which it attempted a restart. */
    method Watch(events: seq<Event>) returns (attempts: seq<nat>)
      modifies this`lastStart
      ensures forall k :: k in attempts <==> 0 <= k < |events| && Attempts(old(Settings()), events, k)
      ensures forall i, j :: 0 <= i < j < |attempts| ==> attempts[i] < attempts[j]
      ensures lastStart == Before(old(Settings()), events, |events|).lastStart
    {
      ghost var m := Settings();
      var threshold := if maxFailures <= 0 then 3 else maxFailures;
      var consecutiveFailures := 0;
      attempts := [];
      for k := 0 to |events|
        invariant Status(consecutiveFailures, lastStart) == Before(m, events, k)
        invariant forall i :: i in attempts <==> 0 <= i < k && Attempts(m, events, i)
        invariant forall i :: 0 <= i < |attempts| ==> attempts[i] < k
        invariant forall i, j :: 0 <= i < j < |attempts| ==> attempts[i] < attempts[j]
      {
        if events[k].Started? {
          lastStart := Some(events[k].now);
          continue;
        }
        if events[k].probe != Failing {
          consecutiveFailures := 0;
          continue;
        }
        consecutiveFailures := consecutiveFailures + 1;
        if consecutiveFailures < threshold {
          continue;
        }
        consecutiveFailures := 0;
        if cooldown > 0 && lastStart.Some? && events[k].now - lastStart.value < cooldown {
          continue;
        }
        attempts := attempts + [k];
        if events[k].started.Some? {
          lastStart := events[k].started;
        }
      }
    }
  }

  /** The number of failed probes from event `lo` on and before event `hi`. */
  function Failures(events: seq<Event>, lo: nat, hi: nat): nat
    requires hi <= |events|
  {
    if hi <= lo then 0 else Failures(events, lo, hi - 1) + if events[hi - 1].Tick? && events[hi - 1].probe == Failing then 1 else 0
  }

  /** From event `j` up to `k` no tick found anything but a failure, and none was acted on. */
  predicate Streak(m: Monitor, events: seq<Event>, j: nat, k: nat) {
    && j <= k <= |events|
    && (forall i :: j <= i < k && events[i].Tick? ==> events[i].probe == Failing)
    && (forall i :: j <= i < k ==> !Attempts(m, events, i) && !Skips(m, events, i))
  }

  lemma {:induction false} StreakStart(m: Monitor, events: seq<Event>, n: nat) returns (j: nat)
    requires n <= |events|
    ensures Streak(m, events, j, n) && Before(m, events, n).failures == Failures(events, j, n)
  {
    if n == 0 {
      j := 0;
    } else {
      j := StreakStart(m, events, n - 1);
      if (events[n - 1].Tick? && events[n - 1].probe != Failing) || Attempts(m, events, n - 1) || Skips(m, events, n - 1) {
        j := n;
      }
    }
  }

  lemma {:induction false} StreakCounts(m: Monitor, events: seq<Event>, j: nat, k: nat)
    requires Streak(m, events, j, k)
    ensures Before(m, events, k).failures >= Failures(events, j, k)
  {
    if j == k {
    } else {
      StreakCounts(m, events, j, k - 1);
      assert !Attempts(m, events, k - 1) && !Skips(m, events, k - 1);
    }
  }

  /** The last start recorded before event `k`: by somebody else, or by a restart of the
      monitor's own that succeeded. */
  function LastRecorded(m: Monitor, events: seq<Event>, k: nat): Option<int>
    requires k <= |events|
  {
    if k == 0 then m.lastStart
    else
      match events[k - 1]
      case Started(now) => Some(now)
      case Tick(_, _, started) =>
        if Attempts(m, events, k - 1) && started.Some? then started else LastRecorded(m, events, k - 1)
  }

  lemma {:induction false} LastRecordedIsKept(m: Monitor, events: seq<Event>, k: nat)
    requires k <= |events|
    ensures Before(m, events, k).lastStart == LastRecorded(m, events, k)
  {
    if k == 0 {
    } else {
      LastRecordedIsKept(m, events, k - 1);
    }
  }

  /** At event `k` a tick finds the last of as many failures in a row as the monitor waits for: 3
      unless the settings name a positive number. */
  ghost predicate FullStreak(m: Monitor, events: seq<Event>, k: nat)
    requires k < |events|
  {
    && events[k].Tick? && events[k].probe == Failing
    && exists j :: 0 <= j && Streak(m, events, j, k)
                   && Failures(events, j, k + 1) == if m.maxFailures <= 0 then 3 else m.maxFailures
  }

  lemma RipeIff(m: Monitor, events: seq<Event>, k: nat)
    requires k < |events|
    ensures Ripe(m, Before(m, events, k), events[k]) <==> FullStreak(m, events, k)
  {
    if events[k].Fails() {
      var j := StreakStart(m, events, k);
      assert Failures(events, j, k + 1) == Failures(events, j, k) + 1;
      if j :| 0 <= j && Streak(m, events, j, k) && Failures(events, j, k + 1) == m.Threshold() {
        StreakCounts(m, events, j, k);
      }
    }
  }

  /** A restart is attempted exactly at a failed probe that ends a full streak, counted from after
      the last tick that found anything else or was acted on, unless a start was recorded and less
      than the cooldown ago; then it is put off. */
  lemma AttemptIff(m: Monitor, events: seq<Event>, k: nat)
    requires k < |events|
    ensures Attempts(m, events, k)
       <==> && FullStreak(m, events, k)
            && var last := LastRecorded(m, events, k);
               m.cooldown <= 0 || last.None? || events[k].now - last.value >= m.cooldown
    ensures Skips(m, events, k)
       <==> && FullStreak(m, events, k)
            && var last := LastRecorded(m, events, k);
               m.cooldown > 0 && last.Some? && events[k].now - last.value < m.cooldown
  {
    hide FullStreak, Ripe;
    LastRecordedIsKept(m, events, k);
    RipeIff(m, events, k);
  }

  /** How many restarts were attempted before event `n`. */
  function Restarts(m: Monitor, events: seq<Event>, n: nat): nat
    requires n <= |events|
  {
    if n == 0 then 0 else Restarts(m, events, n - 1) + if Attempts(m, events, n - 1) then 1 else 0
  }

  /** No failed probe counts towards two restarts. */
  lemma {:induction false} RestartsNeedFailures(m: Monitor, events: seq<Event>, n: nat)
    requires n <= |events|
    ensures Restarts(m, events, n) * (if m.maxFailures <= 0 then 3 else m.maxFailures) + Before(m, events, n).failures
         <= Failures(events, 0, n)
  {
    if n == 0 {
    } else {
      RestartsNeedFailures(m, events, n - 1);
      if Attempts(m, events, n - 1) {
        assert Restarts(m, events, n) * m.Threshold() == Restarts(m, events, n - 1) * m.Threshold() + m.Threshold();
      }
    }
  }

  /** An outage is acted on: among `threshold` failed probes with no other finding between them
      there is one at which a restart is attempted or put off by the cooldown. */
  lemma OutageIsActedOn(m: Monitor, events: seq<Event>, j: nat, k: nat)
    requires j <= k <= |events| && Failures(events, j, k) >= if m.maxFailures <= 0 then 3 else m.maxFailures
    requires forall i :: j <= i < k && events[i].Tick? ==> events[i].probe == Failing
    ensures exists i :: j <= i < k && (Attempts(m, events, i) || Skips(m, events, i))
  {
    if Streak(m, events, j, k) {
      StreakCounts(m, events, j, k);
    }
  }

  /** Nothing recorded between two events leaves the last recorded start as it is. */
  lemma {:induction false} RecordedStays(m: Monitor, events: seq<Event>, j: nat, k: nat)
    requires j <= k <= |events|
    requires forall i :: j <= i < k ==> events[i].Tick? && (Attempts(m, events, i) ==> events[i].started.None?)
    ensures LastRecorded(m, events, k) == LastRecorded(m, events, j)
  {
    if j == k {
    } else {
      RecordedStays(m, events, j, k - 1);
    }
  }

  /** The last recorded start is that of the last event which is a start by somebody else, or an attempt
      of the monitor's own that succeeded; if there was none, the one from before the first tick. */
  lemma LastRecordedIs(m: Monitor, events: seq<Event>, j: nat, k: nat)
    requires j <= k <= |events|
    requires forall i :: j <= i < k ==> events[i].Tick? && (Attempts(m, events, i) ==> events[i].started.None?)
    ensures j == 0 ==> LastRecorded(m, events, k) == m.lastStart
    ensures j > 0 && events[j - 1].Started? ==> LastRecorded(m, events, k) == Some(events[j - 1].now)
    ensures j > 0 && events[j - 1].Tick? && Attempts(m, events, j - 1) && events[j - 1].started.Some? ==>
              LastRecorded(m, events, k) == events[j - 1].started
  {
    RecordedStays(m, events, j, k);
  }

  /** An outage past the cooldown is answered with a restart: so many failed probes with no other
      finding between them, all at least a cooldown after the last start recorded before them. */
  lemma OutageIsEnded(m: Monitor, events: seq<Event>, j: nat, k: nat)
    requires j <= k <= |events| && Failures(events, j, k) >= if m.maxFailures <= 0 then 3 else m.maxFailures
    requires forall i :: j <= i < k ==> events[i].Tick? && events[i].probe == Failing
    requires LastRecorded(m, events, j).Some? ==>
               forall i :: j <= i < k ==> events[i].now - LastRecorded(m, events, j).value >= m.cooldown
    ensures exists i :: j <= i < k && Attempts(m, events, i)
  {
    OutageIsActedOn(m, events, j, k);
    var i :| j <= i < k && (Attempts(m, events, i) || Skips(m, events, i));
    if forall h :: j <= h < i ==> !Attempts(m, events, h) {
      RecordedStays(m, events, j, i);
      AttemptIff(m, events, i);
    }
  }

  /** Two attempts are at least a cooldown apart, measured from the start the first recorded, if
      it succeeded and nobody else started xray between them. */
  lemma AttemptsApart(m: Monitor, events: seq<Event>, j: nat, k: nat)
    requires j < k < |events| && Attempts(m, events, j) && Attempts(m, events, k) && m.cooldown > 0
    requires events[j].started.Some? && forall i :: j < i < k ==> events[i].Tick? && !Attempts(m, events, i)
    ensures events[k].now - events[j].started.value >= m.cooldown
  {
    AttemptIff(m, events, k);
    RecordedStays(m, events, j + 1, k);
  }
}
