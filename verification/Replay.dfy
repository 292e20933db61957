/** zlmb-dump: one run of the tool over a dump file (src/app_dump.c). */
module Replay {
  import opened Common
  import opened Wire
  import opened DumpFormat
  import opened Dump

  /** What one run sends, and how much of the file it consumes. */
  datatype Outcome = Outcome(sent: seq<Flagged>, size: nat)

  /** The replay loop as a function: reads until one of them returns flags 0 or
      an error. */
  function ReplayFrom(file: Bytes, r: Reader): Outcome
    decreases |file| - r.pos
  {
    var got := Read(file, r);
    if got.rc == 0 || got.rc == -1 || got.message.None? then Outcome([], got.reader.size)
    else
      var rest := ReplayFrom(file, got.reader);
      Outcome([Flagged(got.rc, got.message.value)] + rest.sent, rest.size)
  }

  /** What is in the file after a run. */
  function Remaining(file: Bytes): Bytes {
    var size := ReplayFrom(file, Reader(0, false, 0)).size;
    if size <= |file| then file[size..] else []
  }

  function SentBy(file: Bytes): seq<Flagged> {
    ReplayFrom(file, Reader(0, false, 0)).sent
  }

  /** A read that returns a message has moved on, and the message is not empty. */
  lemma ReadMoves(file: Bytes, r: Reader)
    requires r.pos <= |file|
    ensures var got := Read(file, r);
            match got.message
            case None => got.rc == 0 || got.rc == -1
            case Some(m) => m != [] && r.pos < got.reader.pos <= |file|
  {
  }

  /** One read more, after `sent` was sent. */
  lemma ReplayNext(file: Bytes, r: Reader, sent: seq<Flagged>)
    ensures var (got, all) := (Read(file, r), ReplayFrom(file, r));
            if got.rc == 0 || got.rc == -1 || got.message.None? then all == Outcome([], got.reader.size)
            else
              var rest := ReplayFrom(file, got.reader);
              all.size == rest.size
              && sent + all.sent == sent + [Flagged(got.rc, got.message.value)] + rest.sent
  {
    hide Read;
    var got := Read(file, r);
    if !(got.rc == 0 || got.rc == -1 || got.message.None?) {
      Associative(sent, [Flagged(got.rc, got.message.value)], ReplayFrom(file, got.reader).sent);
    }
  }

  /** `main` after its arguments are parsed, with a socket to send to. Sends
      that fail are only logged. `continued` is `--continue`. */
  method Run(dump: DumpFile, continued: bool, truncates: bool) returns (sent: seq<Flagged>)
    requires dump.Valid() && dump.stream == Closed && dump.size == 0
    modifies dump
    ensures dump.Valid() && dump.stream == Closed
    ensures old(dump.disk).None? ==> sent == [] && dump.disk.None?
    ensures old(dump.disk).Some? ==>
              && sent == SentBy(old(dump.disk).value)
              && dump.disk == Some(if truncates then Remaining(old(dump.disk).value) else old(dump.disk).value)
  {
    hide Read, ReplayFrom;
    sent := [];
    ghost var file := dump.Content();
    var rc := dump.ReadOpen();
    while true
      invariant dump.Valid() && dump.disk == old(dump.disk)
      invariant if dump.disk.None? then dump.stream == Closed && dump.size == 0 && sent == []
                else
                  && dump.stream.Reading?
                  && var rest := ReplayFrom(file, dump.View());
                     ReplayFrom(file, Reader(0, false, 0)) == Outcome(sent + rest.sent, rest.size)
      decreases |file| - if dump.stream.Reading? then dump.stream.pos else 0
    {
      if dump.stream.Reading? {
        ReadMoves(file, dump.View());
        ReplayNext(file, dump.View(), sent);
      }
      var flags, message := dump.ReadMessage();
      if flags == 0 {
        break;
      } else if flags == -1 {
        break;
      }
      if message.None? || |message.value| == 0 { break; }
      sent := sent + [Flagged(flags, message.value)];
      if !continued && flags == 0 { break; }
    }
    dump.Close();
    rc := dump.Truncate(truncates);
  }

  // ----- record alignment -----

  /** How many of the records one run consumes: up to and including the first
      one that is empty or stored under the flags 0 or -1. */
  function Consumed(rs: seq<Record>): (k: nat)
    ensures k <= |rs|
    ensures rs != [] ==> k > 0
  {
    if rs == [] then 0
    else if rs[0].payload == [] || rs[0].flags == 0 || rs[0].flags == -1 then 1
    else 1 + Consumed(rs[1..])
  }

  /** What one run sends of them. */
  function Forwarded(rs: seq<Record>): seq<Flagged> {
    if rs == [] || rs[0].payload == [] || rs[0].flags == 0 || rs[0].flags == -1 then []
    else [Flagged(rs[0].flags, rs[0].payload)] + Forwarded(rs[1..])
  }

  lemma {:induction false} ReplayRecords(done: seq<Record>, rs: seq<Record>, file: Bytes)
    requires file == EncodeAll(done + rs)
    requires forall i :: 0 <= i < |rs| ==> 0 !in rs[i].payload
    ensures ReplayFrom(file, At(done)) == Outcome(Forwarded(rs), |EncodeAll(done + rs[..Consumed(rs)])|)
    decreases rs
  {
    hide Read, Encode;
    if rs == [] {
      assert done + rs == done && done + rs[..0] == done;
      ReadAtEnd(file, At(done));
    } else {
      var k := Consumed(rs);
      assert done + [rs[0]] + rs[1..] == done + rs;
      ReadNext(done, rs[0], rs[1..]);
      if k == 1 && (rs[0].payload == [] || rs[0].flags == 0 || rs[0].flags == -1) {
        assert rs[..1] == [rs[0]];
      } else {
        ReplayRecords(done + [rs[0]], rs[1..], file);
        assert done + [rs[0]] + rs[1..][..k - 1] == done + rs[..k];
      }
    }
  }

  /** Alignment: from a file of records, empty frames included, one run sends a
      prefix of the records and leaves a file of records, a proper suffix of the
      ones it found. */
  lemma RunKeepsAlignment(rs: seq<Record>)
    requires forall i :: 0 <= i < |rs| ==> 0 !in rs[i].payload
    ensures SentBy(EncodeAll(rs)) == Forwarded(rs)
    ensures Remaining(EncodeAll(rs)) == EncodeAll(rs[Consumed(rs)..])
    ensures rs != [] ==> |Remaining(EncodeAll(rs))| < |EncodeAll(rs)|
  {
    hide EncodeAll, ReplayFrom, Forwarded, Consumed;
    var k := Consumed(rs);
    if rs != [] {
      EncodedLength(rs[..k]);
    }
    FromStart(rs);
    EncodeAllSplit(rs, k);
    Suffix(EncodeAll(rs[..k]), EncodeAll(rs[k..]));
  }

  lemma EncodeAllSplit(rs: seq<Record>, k: nat)
    requires k <= |rs|
    ensures EncodeAll(rs) == EncodeAll(rs[..k]) + EncodeAll(rs[k..])
    ensures |EncodeAll(rs)| == |EncodeAll(rs[..k])| + |EncodeAll(rs[k..])|
  {
    hide EncodeAll;
    EncodeAllAppend(rs[..k], rs[k..]);
    assert rs[..k] + rs[k..] == rs;
  }

  lemma FromStart(rs: seq<Record>)
    requires forall i :: 0 <= i < |rs| ==> 0 !in rs[i].payload
    ensures ReplayFrom(EncodeAll(rs), Reader(0, false, 0)) == Outcome(Forwarded(rs), |EncodeAll(rs[..Consumed(rs)])|)
  {
    hide EncodeAll, ReplayFrom, At, Forwarded, Consumed;
    AtStart();
    assert [] + rs == rs && [] + rs[..Consumed(rs)] == rs[..Consumed(rs)];
    ReplayRecords([], rs, EncodeAll(rs));
  }

  lemma AtStart()
    ensures At([]) == Reader(0, false, 0)
  {
  }

  lemma Suffix<T>(a: seq<T>, b: seq<T>)
    ensures (a + b)[|a|..] == b
  {
  }

  lemma EncodedLength(rs: seq<Record>)
    requires rs != []
    ensures |EncodeAll(rs)| >= HEAD
  {
  }

  /** A record at which the loop ends. */
  predicate Ends(rec: Record) {
    rec.payload == [] || rec.flags == 0 || rec.flags == -1
  }

  lemma {:induction false} ConsumedUpTo(rs: seq<Record>, k: nat)
    requires k <= |rs| && (forall i :: 0 <= i < k ==> !Ends(rs[i])) && (k < |rs| ==> Ends(rs[k]))
    ensures Consumed(rs) == if k < |rs| then k + 1 else k
    ensures Forwarded(rs) == Expected(rs[..k])
    decreases k
  {
    if k > 0 {
      ConsumedUpTo(rs[1..], k - 1);
      assert rs[..k][1..] == rs[1..][..k - 1];
    }
  }

  /** Record by record: a run sends the records before the first one that is empty
      or stored under the flags 0 or -1, drops that one, and leaves the others;
      if there is none it sends all and leaves nothing. */
  lemma RunStopsAt(rs: seq<Record>, k: nat)
    requires forall i :: 0 <= i < |rs| ==> 0 !in rs[i].payload
    requires k <= |rs| && (forall i :: 0 <= i < k ==> !Ends(rs[i])) && (k < |rs| ==> Ends(rs[k]))
    ensures SentBy(EncodeAll(rs)) == Expected(rs[..k])
    ensures Remaining(EncodeAll(rs)) == EncodeAll(rs[if k < |rs| then k + 1 else k..])
  {
    hide EncodeAll, SentBy, Remaining, Consumed, Forwarded, Expected;
    ConsumedUpTo(rs, k);
    RunKeepsAlignment(rs);
  }

  /** The closing frame is never sent: whatever the file holds, a receiver never
      sees the end of a message. */
  lemma {:induction false} NoRunClosesAMessage(file: Bytes, r: Reader)
    ensures forall i :: 0 <= i < |ReplayFrom(file, r).sent| ==> ReplayFrom(file, r).sent[i].flags != 0
    decreases |file| - r.pos
  {
    var got := Read(file, r);
    if !(got.rc == 0 || got.rc == -1 || got.message.None?) {
      NoRunClosesAMessage(file, got.reader);
    }
  }

  // ----- dumps of whole messages -----

  /** ZMQ_SNDMORE. */
  const SNDMORE: Flags := 2

  predicate Storable(ps: seq<Part>) {
    forall i :: 0 <= i < |ps| ==> |ps[i].frame| <= INT_MAX
  }

  /** The records that are written for frames on their way to a socket. */
  function ToRecords(ps: seq<Part>): (rs: seq<Record>)
    requires Storable(ps)
    ensures |rs| == |ps|
    ensures forall i :: 0 <= i < |ps| ==> rs[i] == Record(if ps[i].more then SNDMORE else 0, ps[i].frame)
  {
    seq(|ps|, i requires 0 <= i < |ps| => Record(if ps[i].more then SNDMORE else 0, ps[i].frame))
  }

  function ToFlagged(m: Message): (r: seq<Flagged>)
    ensures |r| == |m|
  {
    seq(|m|, i requires 0 <= i < |m| => Flagged(SNDMORE, m[i]))
  }

  predicate Replayables(m: Message) {
    m != [] && forall i :: 0 <= i < |m| ==> Replayable(m[i]) && |m[i]| <= INT_MAX
  }

  predicate ReplayableAll(ms: seq<Message>) {
    forall i :: 0 <= i < |ms| ==> Replayables(ms[i])
  }

  lemma {:induction false} PartsAllStorable(ms: seq<Message>)
    requires ReplayableAll(ms)
    ensures Storable(PartsAll(ms))
    ensures forall i :: 0 <= i < |PartsAll(ms)| ==> Replayable(PartsAll(ms)[i].frame)
  {
    if ms != [] {
      var n := |ms| - 1;
      PartsAllStorable(ms[..n]);
      PartsAt(ms[n]);
      assert Replayables(ms[n]);
    }
  }

  /** The file into which the messages `ms` were dumped. */
  function DumpOf(ms: seq<Message>): Bytes
    requires Storable(PartsAll(ms))
  {
    EncodeAll(ToRecords(PartsAll(ms)))
  }

  lemma {:induction false} MessageConsumed(m: Message, rest: seq<Record>, j: nat)
    requires j < |m| && Replayables(m)
    requires Storable(Parts(m))
    ensures Consumed(ToRecords(Parts(m))[j..] + rest) == |m| - j
    ensures Forwarded(ToRecords(Parts(m))[j..] + rest) == ToFlagged(m[j..|m| - 1])
    decreases |m| - j
  {
    hide Parts;
    PartsAt(m);
    var all := ToRecords(Parts(m))[j..] + rest;
    assert all[0] == Record(if j < |m| - 1 then SNDMORE else 0, m[j]);
    if j < |m| - 1 {
      MessageConsumed(m, rest, j + 1);
      assert all[1..] == ToRecords(Parts(m))[j + 1..] + rest;
      assert ToFlagged(m[j..|m| - 1]) == [Flagged(SNDMORE, m[j])] + ToFlagged(m[j + 1..|m| - 1]);
    }
  }

  /** One run consumes exactly one message: it sends all of its frames but the
      last and leaves exactly the dump of the later messages. */
  lemma RunTakesOneMessage(ms: seq<Message>)
    requires ms != [] && ReplayableAll(ms)
    ensures Storable(PartsAll(ms)) && Storable(PartsAll(ms[1..]))
    ensures SentBy(DumpOf(ms)) == ToFlagged(ms[0][..|ms[0]| - 1])
    ensures Remaining(DumpOf(ms)) == DumpOf(ms[1..])
    ensures |DumpOf(ms[1..])| < |DumpOf(ms)|
  {
    hide Consumed, Forwarded, PartsAll, EncodeAll, SentBy, Remaining, Parts;
    var m, rest := ms[0], ms[1..];
    assert Replayables(m);
    PartsAllStorable(ms);
    PartsAllStorable(rest);
    PartsAt(m);
    FirstMessage(m, rest);
    assert [m] + rest == ms;
    var rs := ToRecords(PartsAll(ms));
    assert rs == ToRecords(Parts(m)) + ToRecords(PartsAll(rest));
    MessageConsumed(m, ToRecords(PartsAll(rest)), 0);
    assert ToRecords(Parts(m))[0..] == ToRecords(Parts(m)) && m[0..|m| - 1] == m[..|m| - 1];
    RunKeepsAlignment(rs);
    assert rs[|m|..] == ToRecords(PartsAll(rest));
  }

  function AfterRuns(file: Bytes, k: nat): Bytes
    decreases k
  {
    if k == 0 then file else AfterRuns(Remaining(file), k - 1)
  }

  lemma NothingDumped()
    ensures PartsAll([]) == [] && DumpOf([]) == []
  {
  }

  lemma DumpIsNotEmpty(ms: seq<Message>)
    requires ReplayableAll(ms)
    ensures Storable(PartsAll(ms))
    ensures DumpOf(ms) == [] <==> ms == []
  {
    hide PartsAll, DumpOf;
    PartsAllStorable(ms);
    NothingDumped();
    if ms != [] {
      RunTakesOneMessage(ms);
    }
  }

  lemma NextRun(file: Bytes, k: nat)
    requires k > 0
    ensures AfterRuns(file, k) == AfterRuns(Remaining(file), k - 1)
  {
  }

  /** As many runs as messages empty the file, and fewer do not. */
  lemma {:induction false} RunsEmptyTheFile(ms: seq<Message>, k: nat)
    requires k <= |ms| && ReplayableAll(ms)
    ensures Storable(PartsAll(ms)) && Storable(PartsAll(ms[k..]))
    ensures AfterRuns(DumpOf(ms), k) == DumpOf(ms[k..])
    ensures AfterRuns(DumpOf(ms), k) == [] <==> k == |ms|
    decreases ms
  {
    hide PartsAll, DumpOf, Remaining, SentBy, Storable, Replayables;
    PartsAllStorable(ms);
    DumpIsNotEmpty(ms[k..]);
    if k == 0 {
      assert ms[0..] == ms;
    } else {
      RunTakesOneMessage(ms);
      NextRun(DumpOf(ms), k);
      RunsEmptyTheFile(ms[1..], k - 1);
      assert ms[1..][k - 1..] == ms[k..];
    }
  }
}
