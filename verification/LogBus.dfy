/** The log bus of a child process: the last lines are kept, and every line goes to all readers
    who have room for it. */
module LogBus {
  import opened Model

  const CAPACITY := 256

  function Last(lines: seq<string>, n: nat): seq<string> {
    if |lines| <= n then lines else lines[|lines| - n..]
  }

  /** What a reader was offered: `since` is the number of lines published before it subscribed,
      `sent` the lines it got, `missed` how many it did not. */
  datatype Reader = Reader(since: nat, sent: seq<string>, missed: nat)

  /** The reader got a line or, its channel being full, missed it. */
  function Offered(reader: Reader, waiting: nat, line: string): Reader {
    if waiting < CAPACITY then reader.(sent := reader.sent + [line]) else reader.(missed := reader.missed + 1)
  }

  /** `waiting` is what the reader has not taken out of its channel yet. */
  predicate InOrder(history: seq<string>, r: Reader, waiting: seq<string>) {
    && r.since + |r.sent| + r.missed == |history|
    && (r.missed == 0 ==> r.sent == history[r.since..])
    && |waiting| <= |r.sent| && waiting == r.sent[|r.sent| - |waiting|..]
  }

  /** A send that does not wait. */
  function Put(waiting: seq<string>, line: string): seq<string> {
    if |waiting| < CAPACITY then waiting + [line] else waiting
  }

  lemma TakeInOrder(history: seq<string>, r: Reader, waiting: seq<string>)
    requires InOrder(history, r, waiting) && waiting != []
    ensures InOrder(history, r, waiting[1..])
  {
  }

  lemma OfferInOrder(history: seq<string>, line: string, r: Reader, waiting: seq<string>)
    requires InOrder(history, r, waiting)
    ensures InOrder(history + [line], Offered(r, |waiting|, line), Put(waiting, line))
  {
  }

  class Bus {
    const maxLines: nat
    var buffer: seq<string>
    /** The lines waiting in each open channel. */
    var subs: map<nat, seq<string>>
    var channels: nat
    ghost var history: seq<string>
    ghost var readers: map<nat, Reader>

    constructor (maxLines: int)
      ensures Valid() && history == [] && subs == map[]
      ensures this.maxLines == if maxLines <= 0 then 100 else maxLines
    {
      this.maxLines := if maxLines <= 0 then 100 else maxLines;
      buffer, subs, channels, history, readers := [], map[], 0, [], map[];
    }

    ghost predicate ReaderInOrder(ch: nat)
      reads this
      requires ch in subs && ch in readers
    {
      InOrder(history, readers[ch], subs[ch])
    }

    ghost predicate Valid()
      reads this
    {
      && buffer == Last(history, maxLines)
      && subs.Keys == readers.Keys
      && (forall ch :: ch in subs ==> ch < channels && ReaderInOrder(ch))
    }

    /** The buffer holds the last lines of all ever published, and every reader is offered every
        line in the order of publication. */
    method Publish(line: string)
      requires Valid()
      modifies this
      ensures Valid() && history == old(history) + [line] && channels == old(channels)
      ensures subs.Keys == old(subs.Keys)
      ensures forall ch :: ch in subs ==>
                var before, was := old(subs)[ch], old(readers)[ch];
                if |before| < 256 then subs[ch] == before + [line] && readers[ch] == was.(sent := was.sent + [line])
                else subs[ch] == before && readers[ch] == was.(missed := was.missed + 1)
    {
      hide InOrder;
      buffer := buffer + [line];
      if |buffer| > maxLines {
        buffer := buffer[|buffer| - maxLines..];
      }
      assert buffer == Last(history + [line], maxLines);
      Deliver(line);
      history := history + [line];
      forall ch | ch in subs ensures InOrder(history, readers[ch], subs[ch]) {
        assert old(ReaderInOrder(ch));
        OfferInOrder(old(history), line, old(readers)[ch], old(subs)[ch]);
      }
    }

    method Deliver(line: string)
      requires subs.Keys == readers.Keys
      modifies this`subs, this`readers
      ensures subs.Keys == old(subs.Keys) == readers.Keys
      ensures forall ch :: ch in subs ==>
                && subs[ch] == Put(old(subs)[ch], line)
                && readers[ch] == Offered(old(readers)[ch], |old(subs)[ch]|, line)
    {
      hide Put, Offered;
      var sent, left := subs, subs.Keys;
      while left != {}
        invariant left <= subs.Keys == sent.Keys
        invariant forall ch :: ch in left ==> sent[ch] == subs[ch]
        invariant forall ch :: ch in sent && ch !in left ==> sent[ch] == Put(subs[ch], line)
        decreases |left|
      {
        var ch :| ch in left;
        left := left - {ch};
        sent := sent[ch := Put(sent[ch], line)];
      }
      readers := map ch | ch in readers :: Offered(readers[ch], |subs[ch]|, line);
      subs := sent;
    }

    method Snapshot() returns (lines: seq<string>)
      requires Valid()
      ensures lines == Last(history, maxLines)
    {
      lines := buffer;
    }

    method Subscribe() returns (ch: nat)
      requires Valid()
      modifies this
      ensures Valid() && ch !in old(subs) && subs == old(subs)[ch := []]
      ensures readers == old(readers)[ch := Reader(|history|, [], 0)]
      ensures history == old(history) && buffer == old(buffer)
    {
      ch := channels;
      channels := channels + 1;
      subs := subs[ch := []];
      readers := readers[ch := Reader(|history|, [], 0)];
      assert forall c :: c in subs && c != ch ==> old(ReaderInOrder(c));
    }

    method Unsubscribe(ch: nat)
      requires Valid()
      modifies this
      ensures Valid() && subs == old(subs) - {ch} && readers == old(readers) - {ch}
      ensures history == old(history) && buffer == old(buffer)
    {
      subs := subs - {ch};
      readers := readers - {ch};
      assert forall c :: c in subs ==> old(ReaderInOrder(c));
    }

    /** The reader takes the next line out of its channel. */
    method Receive(ch: nat) returns (line: string)
      requires Valid() && ch in subs && subs[ch] != []
      modifies this
      ensures Valid() && line == old(subs)[ch][0] && subs == old(subs)[ch := old(subs)[ch][1..]]
      ensures history == old(history) && buffer == old(buffer) && readers == old(readers)
    {
      hide InOrder;
      line := subs[ch][0];
      TakeInOrder(history, readers[ch], subs[ch]);
      subs := subs[ch := subs[ch][1..]];
      assert forall c :: c in subs ==> old(ReaderInOrder(c));
    }
  }

  /** A log stream subscribes first and takes its snapshot later; `early` is the history at that moment
      and `shown` what the snapshot gave. As long as its reader has missed nothing, the snapshot
      followed by what came after it is one stretch of the history without a gap, which ends in
      whatever a snapshot gives now; and what the reader gets twice are the lines published between
      subscription and snapshot. */
  lemma NoGap(bus: Bus, ch: nat, early: seq<string>, shown: seq<string>)
    requires bus.Valid() && ch in bus.readers && bus.readers[ch].missed == 0
    requires early <= bus.history && bus.readers[ch].since <= |early| && shown == Last(early, bus.maxLines)
    ensures var reader, twice := bus.readers[ch], |early| - bus.readers[ch].since;
            && twice <= |reader.sent| && reader.sent[..twice] == early[reader.since..]
            && shown + reader.sent[twice..] == bus.history[|early| - |shown|..]
            && Last(shown + reader.sent[twice..], bus.maxLines) == bus.buffer
  {
    var reader, twice := bus.readers[ch], |early| - bus.readers[ch].since;
    assert bus.ReaderInOrder(ch);
    assert bus.history == early + bus.history[|early|..];
    assert shown + reader.sent[twice..] == bus.history[|early| - |shown|..];
  }
}
