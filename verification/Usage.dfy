/** Traffic accounting: a backend's counters summed per user, and the backends' sums merged,
    both in unsigned 64-bit arithmetic. */
module Usage {
  import opened Model
  import opened Identifier

  const MODULUS: int := 0x1_0000_0000_0000_0000

  type Uint64 = x: int | 0 <= x < MODULUS
  type Int64 = x: int | -0x8000_0000_0000_0000 <= x < 0x8000_0000_0000_0000

  /** One counter as the statistics call returns it. */
  datatype Stat = Stat(name: string, value: Int64)

  type Totals = map<Uid, Uint64>

  function Of(totals: Totals, uid: Uid): Uint64 {
    if uid in totals then totals[uid] else 0
  }

  /** Addition with the wrap-around of the machine, the counter converted first. */
  function Add(a: Uint64, b: int): Uint64 {
    (a + b) % MODULUS
  }

  /** The counters of one user, added without wrap-around. */
  function UserSum(reader: Reader, stats: seq<Stat>, uid: Uid): int {
    if stats == [] then 0
    else
      var last := stats[|stats| - 1];
      UserSum(reader, stats[..|stats| - 1], uid)
      + (if CounterUid(reader, last.name) == Some(uid) then last.value else 0)
  }

  /** All counters that belong to some user, added without wrap-around. */
  function AcceptedSum(reader: Reader, stats: seq<Stat>): int {
    if stats == [] then 0
    else
      var last := stats[|stats| - 1];
      AcceptedSum(reader, stats[..|stats| - 1])
      + (if CounterUid(reader, last.name).Some? then last.value else 0)
  }

  predicate HasCounter(reader: Reader, stats: seq<Stat>, uid: Uid) {
    exists i :: 0 <= i < |stats| && CounterUid(reader, stats[i].name) == Some(uid)
  }

  /** The totals after reading the counters one by one. */
  function Tally(reader: Reader, stats: seq<Stat>): Totals {
    if stats == [] then map[]
    else
      var last := stats[|stats| - 1];
      var before := Tally(reader, stats[..|stats| - 1]);
      match CounterUid(reader, last.name)
      case None => before
      case Some(uid) => before[uid := Add(Of(before, uid), last.value)]
  }

  /** The backend's summing loop. */
  method UserUsages(reader: Reader, stats: seq<Stat>) returns (out: Totals)
    ensures out == Tally(reader, stats)
  {
    hide CounterUid;
    out := map[];
    for k := 0 to |stats|
      invariant out == Tally(reader, stats[..k])
    {
      assert stats[..k + 1][..k] == stats[..k];
      var uid := CounterUid(reader, stats[k].name);
      if uid.None? { continue; }
      out := out[uid.value := Add(Of(out, uid.value), stats[k].value)];
    }
    assert stats[..|stats|] == stats;
  }

  lemma Wrap(a: int, b: int)
    ensures (a % MODULUS + b) % MODULUS == (a + b) % MODULUS
  {
  }

  /** A user appears in the totals exactly if it has a counter, with the sum of its counters
      modulo 2^64. */
  lemma {:induction false} TallyPerUser(reader: Reader, stats: seq<Stat>, uid: Uid)
    ensures uid in Tally(reader, stats) <==> HasCounter(reader, stats, uid)
    ensures Of(Tally(reader, stats), uid) == UserSum(reader, stats, uid) % MODULUS
  {
    hide CounterUid;
    if stats == [] {
    } else {
      var init, last := stats[..|stats| - 1], stats[|stats| - 1];
      TallyPerUser(reader, init, uid);
      Wrap(UserSum(reader, init, uid), last.value);
      if CounterUid(reader, last.name) == Some(uid) {
        assert stats[|stats| - 1] == last;
      } else if HasCounter(reader, init, uid) {
        var i :| 0 <= i < |init| && CounterUid(reader, init[i].name) == Some(uid);
        assert stats[i] == init[i];
      } else {
        assert forall i :: 0 <= i < |init| ==> init[i] == stats[i];
      }
    }
  }

  /** Nothing accepted is lost: the totals add up to the sum of all accepted counters modulo
      2^64. */
  lemma {:induction false} TallyConserves(reader: Reader, stats: seq<Stat>)
    ensures Total(Tally(reader, stats)) % MODULUS == AcceptedSum(reader, stats) % MODULUS
  {
    hide CounterUid;
    if stats == [] {
    } else {
      var init, last := stats[..|stats| - 1], stats[|stats| - 1];
      TallyConserves(reader, init);
      var before := Tally(reader, init);
      if CounterUid(reader, last.name).Some? {
        TotalAfterAdd(before, CounterUid(reader, last.name).value, last.value);
        Wrap(Total(before), last.value);
        Wrap(AcceptedSum(reader, init), last.value);
      }
    }
  }

  /** The sum over all users, in whatever order the map is walked. */
  ghost function Total(totals: map<Uid, int>): int {
    if totals == map[] then 0
    else
      var uid :| uid in totals;
      totals[uid] + Total(totals - {uid})
  }

  lemma {:induction false} TotalWithout(totals: map<Uid, int>, uid: Uid)
    requires uid in totals
    ensures Total(totals) == totals[uid] + Total(totals - {uid})
    decreases |totals|
  {
    var first :| first in totals && Total(totals) == totals[first] + Total(totals - {first});
    if first != uid {
      TotalWithout(totals - {first}, uid);
      TotalWithout(totals - {uid}, first);
      assert totals - {first} - {uid} == totals - {uid} - {first};
    }
  }

  lemma TotalAfterAdd(totals: Totals, uid: Uid, value: int)
    ensures Total(totals[uid := Add(Of(totals, uid), value)]) % MODULUS == (Total(totals) + value) % MODULUS
  {
    var after := totals[uid := Add(Of(totals, uid), value)];
    TotalWithout(after, uid);
    assert after - {uid} == totals - {uid};
    if uid in totals {
      TotalWithout(totals, uid);
    } else {
      assert totals - {uid} == totals;
    }
    Wrap(Of(totals, uid) + value, Total(totals - {uid}));
  }

  /** What each backend answered: its totals, or nothing if its call failed. */
  type Answers = map<string, Option<Totals>>

  ghost function BackendsSum(answers: Answers, uid: Uid): int
  {
    if answers == map[] then 0
    else
      var name :| name in answers;
      (if answers[name].Some? then Of(answers[name].value, uid) else 0) + BackendsSum(answers - {name}, uid)
  }

  ghost function BackendsTotal(answers: Answers): int
  {
    if answers == map[] then 0
    else
      var name :| name in answers;
      (if answers[name].Some? then Total(answers[name].value) else 0) + BackendsTotal(answers - {name})
  }

  lemma {:induction false} BackendsSumWithout(answers: Answers, uid: Uid, name: string)
    requires name in answers
    ensures BackendsSum(answers, uid)
         == (if answers[name].Some? then Of(answers[name].value, uid) else 0) + BackendsSum(answers - {name}, uid)
    decreases |answers|
  {
    var first :| first in answers && BackendsSum(answers, uid)
      == (if answers[first].Some? then Of(answers[first].value, uid) else 0) + BackendsSum(answers - {first}, uid);
    if first != name {
      BackendsSumWithout(answers - {first}, uid, name);
      BackendsSumWithout(answers - {name}, uid, first);
      assert answers - {first} - {name} == answers - {name} - {first};
    }
  }

  lemma {:induction false} BackendsTotalWithout(answers: Answers, name: string)
    requires name in answers
    ensures BackendsTotal(answers)
         == (if answers[name].Some? then Total(answers[name].value) else 0) + BackendsTotal(answers - {name})
    decreases |answers|
  {
    var first :| first in answers && BackendsTotal(answers)
      == (if answers[first].Some? then Total(answers[first].value) else 0) + BackendsTotal(answers - {first});
    if first != name {
      BackendsTotalWithout(answers - {first}, name);
      BackendsTotalWithout(answers - {name}, first);
      assert answers - {first} - {name} == answers - {name} - {first};
    }
  }

  /** One backend's totals added into the merged ones. */
  function Merge(all: Totals, stats: Totals): Totals {
    map uid | uid in all.Keys + stats.Keys ::
      if uid in stats then Add(Of(all, uid), stats[uid]) else all[uid]
  }

  /** Equality modulo 2^64. */
  predicate Congruent(a: int, b: int) {
    a % MODULUS == b % MODULUS
  }

  lemma CongruentStep(a: int, b: int, c: int, d: int)
    requires Congruent(a, b + d) && Congruent(b, c)
    ensures Congruent(a, c + d)
  {
  }

  lemma {:induction false} MergeConserves(all: Totals, stats: Totals)
    ensures Congruent(Total(Merge(all, stats)), Total(all) + Total(stats))
    decreases |stats|
  {
    hide Merge, Add, Of, Congruent, Total;
    if stats == map[] {
      MergeNothing(all);
    } else {
      var uid :| uid in stats;
      MergeConserves(all, stats - {uid});
      MergeOneConserves(all, stats, uid);
    }
  }

  lemma MergeNothing(all: Totals)
    ensures Merge(all, map[]) == all
    ensures Congruent(Total(Merge(all, map[])), Total(all) + Total(map[]))
  {
  }

  lemma MergeOneConserves(all: Totals, stats: Totals, uid: Uid)
    requires uid in stats
    requires Congruent(Total(Merge(all, stats - {uid})), Total(all) + Total(stats - {uid}))
    ensures Congruent(Total(Merge(all, stats)), Total(all) + Total(stats))
  {
    hide Merge, Add, Of, Congruent, Total;
    var rest := stats - {uid};
    TotalWithout(stats, uid);
    MergeStep(all, rest, uid, stats[uid]);
    assert rest[uid := stats[uid]] == stats;
    TotalAfterAdd'(Merge(all, rest), uid, stats[uid]);
    CongruentStep(Total(Merge(all, stats)), Total(Merge(all, rest)), Total(all) + Total(rest), stats[uid]);
  }

  lemma TotalAfterAdd'(totals: Totals, uid: Uid, value: int)
    ensures Congruent(Total(totals[uid := Add(Of(totals, uid), value)]), Total(totals) + value)
  {
    TotalAfterAdd(totals, uid, value);
  }

  lemma MergeStep(all: Totals, stats: Totals, uid: Uid, value: Uint64)
    requires uid !in stats
    ensures Merge(all, stats[uid := value]) == Merge(all, stats)[uid := Add(Of(Merge(all, stats), uid), value)]
  {
  }

  /** One user more of the backend's totals. */
  lemma MergeNext(all: Totals, stats: Totals, left: set<Uid>, uid: Uid)
    requires left <= stats.Keys && uid in left
    ensures Merge(all, stats - (left - {uid}))
         == Merge(all, stats - left)[uid := Add(Of(Merge(all, stats - left), uid), stats[uid])]
  {
    hide Merge, Add, Of;
    MergeStep(all, stats - left, uid, stats[uid]);
    assert (stats - left)[uid := stats[uid]] == stats - (left - {uid});
  }

  /** The merging loop walks the backend's totals in any order. */
  method MergeOne(all: Totals, stats: Totals) returns (out: Totals)
    ensures out == Merge(all, stats)
  {
    hide Merge, Add, Of;
    out := all;
    var left := stats.Keys;
    MergeNothing(all);
    assert stats - left == map[];
    while left != {}
      invariant left <= stats.Keys && out == Merge(all, stats - left)
      decreases |left|
    {
      var uid :| uid in left;
      MergeNext(all, stats, left, uid);
      out := out[uid := Add(Of(out, uid), stats[uid])];
      left := left - {uid};
    }
    assert stats - {} == stats;
  }

  lemma MergedUser(all: Totals, answers: Answers, left: Answers, name: string, uid: Uid)
    requires name in left
    requires (Of(all, uid) + BackendsSum(left, uid)) % MODULUS == BackendsSum(answers, uid) % MODULUS
    ensures var all' := if left[name].Some? then Merge(all, left[name].value) else all;
            (Of(all', uid) + BackendsSum(left - {name}, uid)) % MODULUS == BackendsSum(answers, uid) % MODULUS
  {
    hide Merge, BackendsSum, Of;
    BackendsSumWithout(left, uid, name);
    if left[name].Some? {
      MergedOf(all, left[name].value, uid);
      Wrap(Of(all, uid) + Of(left[name].value, uid), BackendsSum(left - {name}, uid));
    }
  }

  lemma MergedOf(all: Totals, stats: Totals, uid: Uid)
    ensures Of(Merge(all, stats), uid) == (Of(all, uid) + Of(stats, uid)) % MODULUS
  {
  }

  lemma MergedTotal(all: Totals, answers: Answers, left: Answers, name: string)
    requires name in left
    requires (Total(all) + BackendsTotal(left)) % MODULUS == BackendsTotal(answers) % MODULUS
    ensures var all' := if left[name].Some? then Merge(all, left[name].value) else all;
            (Total(all') + BackendsTotal(left - {name})) % MODULUS == BackendsTotal(answers) % MODULUS
  {
    BackendsTotalWithout(left, name);
    if left[name].Some? {
      MergeConserves(all, left[name].value);
      assert Congruent(Total(Merge(all, left[name].value)), Total(all) + Total(left[name].value));
      Wrap(Total(all) + Total(left[name].value), BackendsTotal(left - {name}));
      Wrap(Total(Merge(all, left[name].value)), BackendsTotal(left - {name}));
    }
  }

  predicate Answered(answers: Answers, left: Answers, uid: Uid) {
    exists name :: name in answers && name !in left && answers[name].Some? && uid in answers[name].value
  }

  lemma AnsweredMore(answers: Answers, left: Answers, name: string, uid: Uid)
    requires name in left && name in answers && left[name] == answers[name]
    ensures Answered(answers, left - {name}, uid)
       <==> Answered(answers, left, uid) || (answers[name].Some? && uid in answers[name].value)
  {
  }

  /** The backends not in `left` are merged into `all`. */
  ghost predicate MergedSoFar(answers: Answers, left: Answers, all: Totals) {
    && (forall name :: name in left ==> name in answers && left[name] == answers[name])
    && (forall uid: Uid :: (Of(all, uid) + BackendsSum(left, uid)) % MODULUS == BackendsSum(answers, uid) % MODULUS)
    && (forall uid: Uid :: uid in all <==> Answered(answers, left, uid))
    && (Total(all) + BackendsTotal(left)) % MODULUS == BackendsTotal(answers) % MODULUS
  }

  lemma MergedStart(answers: Answers)
    ensures MergedSoFar(answers, answers, map[])
  {
  }

  lemma MergedMore(answers: Answers, left: Answers, all: Totals, name: string)
    requires MergedSoFar(answers, left, all) && name in left
    ensures name in answers && answers[name] == left[name]
    ensures MergedSoFar(answers, left - {name}, if left[name].Some? then Merge(all, left[name].value) else all)
  {
    hide Total, BackendsSum, BackendsTotal, Answered, Merge;
    var all' := if left[name].Some? then Merge(all, left[name].value) else all;
    forall uid: Uid
      ensures (Of(all', uid) + BackendsSum(left - {name}, uid)) % MODULUS == BackendsSum(answers, uid) % MODULUS
    {
      MergedUser(all, answers, left, name, uid);
    }
    forall uid: Uid ensures uid in all' <==> Answered(answers, left - {name}, uid) {
      AnsweredMore(answers, left, name, uid);
      if left[name].Some? { MergeKeys(all, left[name].value); }
    }
    MergedTotal(all, answers, left, name);
  }

  lemma MergedEnd(answers: Answers, all: Totals)
    requires MergedSoFar(answers, map[], all)
    ensures forall uid: Uid :: Of(all, uid) == BackendsSum(answers, uid) % MODULUS
    ensures Total(all) % MODULUS == BackendsTotal(answers) % MODULUS
    ensures forall uid: Uid :: uid in all <==> Answered(answers, map[], uid)
  {
  }

  /** The merge over all backends, in any order; failed backends are passed over. Each user's
      total is the sum over the backends modulo 2^64, and so is the total over all users. */
  method FetchUsersStats(answers: Answers) returns (all: Totals)
    ensures forall uid: Uid :: uid in all <==> Answered(answers, map[], uid)
    ensures forall uid: Uid :: Of(all, uid) == BackendsSum(answers, uid) % MODULUS
    ensures Total(all) % MODULUS == BackendsTotal(answers) % MODULUS
  {
    hide Merge, MergedSoFar;
    all := map[];
    var left := answers;
    MergedStart(answers);
    while left != map[]
      invariant MergedSoFar(answers, left, all)
      decreases |left|
    {
      var name :| name in left;
      MergedMore(answers, left, all, name);
      if answers[name].Some? {
        all := MergeOne(all, answers[name].value);
      }
      left := left - {name};
    }
    MergedEnd(answers, all);
  }

  lemma MergeKeys(all: Totals, stats: Totals)
    ensures Merge(all, stats).Keys == all.Keys + stats.Keys
  {
  }
}
