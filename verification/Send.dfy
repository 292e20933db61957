/** `_sendmsg` (src/app_server.c): one frame goes to the socket in coded form,
    or as it is, or to the dump file, or is lost. */
module Send {
  import opened Common
  import opened Wire
  import opened DumpFormat
  import opened Dump
  import opened Replay

  /** How a frame is to be sent: ZLMB_SENDMSG, _DUMP, _COMPRESS, _UNCOMPRESS. */
  datatype SendType = Raw | ToDump | Compress | Uncompress

  /** The snappy library; `None` results are its error codes. */
  datatype Codec = Codec(compress: Bytes -> Option<Bytes>, uncompress: Bytes -> Option<Bytes>)

  /** Compression always succeeds, and uncompressing undoes it. */
  ghost predicate Lossless(c: Codec) {
    forall b: Bytes :: c.compress(b).Some? && c.uncompress(c.compress(b).value) == Some(b)
  }

  /** Whether the library calls succeed, should they be made: the send of the
      coded frame, the send of the frame itself, and those of the dump. */
  datatype Calls = Calls(coded: bool, raw: bool, file: FileCalls)

  /** What became of a frame. `Dropped` is for frames that a server mode does
      not pass to `_sendmsg` at all. */
  datatype Fate = OnWire(bytes: Bytes) | Dumped | Lost | Dropped

  /** Everything sent, dumped and lost so far, and whether the dump is open. */
  datatype Link = Link(wire: seq<Part>, dump: seq<Part>, lost: seq<Part>, handle: bool)

  const EMPTY := Link([], [], [], false)

  /** The coded form of a frame, when the build has a codec and the type asks
      for it. */
  function Coded(codec: Option<Codec>, t: SendType, frame: Bytes): Option<Bytes> {
    match (codec, t)
    case (Some(c), Compress) => c.compress(frame)
    case (Some(c), Uncompress) => c.uncompress(frame)
    case _ => None
  }

  /** The type after the coding stage. */
  function Fallback(codec: Option<Codec>, t: SendType): SendType {
    if codec.Some? && (t == Compress || t == Uncompress) then Raw else t
  }

  function FateOf(codec: Option<Codec>, hasDump: bool, t: SendType, frame: Bytes, handle: bool, c: Calls): Fate {
    if Coded(codec, t, frame).Some? && c.coded then OnWire(Coded(codec, t, frame).value)
    else if Fallback(codec, t) == Raw && c.raw then OnWire(frame)
    else if hasDump && (handle || c.file.fopen) && c.file.flock then Dumped
    else Lost
  }

  /** The links' state after a frame met its fate. */
  function Settle(hasDump: bool, l: Link, p: Part, fate: Fate): Link {
    match fate
    case OnWire(bytes) => l.(wire := l.wire + [Part(bytes, p.more)])
    case Dumped => l.(dump := l.dump + [p], handle := p.more)
    case Lost => l.(lost := l.lost + [p], handle := l.handle && !hasDump)
    case Dropped => l
  }

  function SendMsg(codec: Option<Codec>, hasDump: bool, t: SendType, p: Part, c: Calls, l: Link): Link {
    Settle(hasDump, l, p, FateOf(codec, hasDump, t, p.frame, l.handle, c))
  }

  // ----- which way a frame goes, call by call -----

  /** A coded form exists, is asked for, and its send succeeds. */
  predicate CodedSent(codec: Option<Codec>, t: SendType, frame: Bytes, c: Calls) {
    codec.Some? && c.coded
    && ((t == Compress && codec.value.compress(frame).Some?) || (t == Uncompress && codec.value.uncompress(frame).Some?))
  }

  /** The frame itself is sent: not for a dump, and for a coding only in a build
      that knows it. */
  predicate PlainSent(codec: Option<Codec>, t: SendType, c: Calls) {
    c.raw && (t == Raw || (codec.Some? && t != ToDump))
  }

  /** There is a dump, it is open or can be opened, and it can be locked. */
  predicate DumpTakes(hasDump: bool, open: bool, c: Calls) {
    hasDump && (open || c.file.fopen) && c.file.flock
  }

  /** The chain: coded, else plain, else dumped, else lost; exactly one of them,
      and nothing else changes. */
  lemma SendExactly(codec: Option<Codec>, hasDump: bool, t: SendType, p: Part, c: Calls, l: Link)
    ensures var (coded, plain, dumped) := (CodedSent(codec, t, p.frame, c), PlainSent(codec, t, c), DumpTakes(hasDump, l.handle, c));
            var r := SendMsg(codec, hasDump, t, p, c, l);
            && (coded && t == Compress ==> r == l.(wire := l.wire + [Part(codec.value.compress(p.frame).value, p.more)]))
            && (coded && t == Uncompress ==> r == l.(wire := l.wire + [Part(codec.value.uncompress(p.frame).value, p.more)]))
            && (!coded && plain ==> r == l.(wire := l.wire + [p]))
            && (!coded && !plain && dumped ==> r == l.(dump := l.dump + [p], handle := p.more))
            && (!coded && !plain && !dumped ==> r == l.(lost := l.lost + [p], handle := l.handle && !hasDump))
            && (FateOf(codec, hasDump, t, p.frame, l.handle, c) == Lost <==> !coded && !plain && !dumped)
  {
  }

  function FromRecords(rs: seq<Record>): (ps: seq<Part>)
    ensures |ps| == |rs|
  {
    seq(|rs|, i requires 0 <= i < |rs| => Part(rs[i].payload, rs[i].flags != 0))
  }

  /** The flags that `_sendmsg` is called with. */
  predicate Marked(rs: seq<Record>) {
    forall i :: 0 <= i < |rs| ==> rs[i].flags == 0 || rs[i].flags == SNDMORE
  }

  /** A socket with its dump object. */
  class Sender {
    const codec: Option<Codec>
    const dump: DumpFile?
    var wire: seq<Part>
    ghost var lost: seq<Part>

    ghost predicate Valid()
      reads this, dump
    {
      dump != null ==> dump.Valid() && dump.Logged() && !dump.stream.Reading? && Marked(dump.log)
    }

    ghost function View(): Link
      reads this, dump
    {
      Link(wire, if dump == null then [] else FromRecords(dump.log), lost,
           dump != null && dump.stream == Appending)
    }

    constructor (codec: Option<Codec>, dump: DumpFile?)
      requires dump != null ==> dump.Valid() && dump.Logged() && dump.log == [] && dump.stream == Closed
      ensures Valid() && View() == EMPTY
      ensures this.codec == codec && this.dump == dump
    {
      this.codec, this.dump := codec, dump;
      wire, lost := [], [];
    }

    /** The last stage: the dump file, if there is one. */
    method DumpOrLose(frame: Frame, more: bool, file: FileCalls) returns (rc: int)
      requires Valid()
      modifies this, dump
      ensures Valid()
      ensures var fate := if dump != null && (old(View()).handle || file.fopen) && file.flock then Dumped else Lost;
              && View() == Settle(dump != null, old(View()), Part(frame, more), fate)
              && rc == if fate == Lost then -1 else 0
    {
      hide EncodeAll, Encode;
      if dump != null {
        FromRecordsSnoc(dump.log, Record(if more then SNDMORE else 0, frame));
        rc := dump.Write(frame, if more then SNDMORE else 0, file);
        if rc != -1 { return 0; }
        dump.Close();
      }
      lost := lost + [Part(frame, more)];
      return -1;
    }

    /** The whole chain. A frame is reported lost if and only if it was sent
        neither coded nor plain and there is no dump that takes it. */
    method Sendmsg(t: SendType, frame: Frame, more: bool, c: Calls) returns (rc: int)
      requires Valid()
      modifies this, dump
      ensures Valid()
      ensures View() == SendMsg(codec, dump != null, t, Part(frame, more), c, old(View()))
      ensures var (coded, plain, dumped) :=
                (CodedSent(codec, t, frame, c), PlainSent(codec, t, c), DumpTakes(dump != null, old(View()).handle, c));
              && rc == (if coded || plain || dumped then 0 else -1)
              && (View().wire != old(View()).wire <==> coded || plain)
              && (View().dump != old(View()).dump <==> !coded && !plain && dumped)
              && (View().lost != old(View()).lost <==> !coded && !plain && !dumped)
    {
      hide EncodeAll, FromRecords;
      SendExactly(codec, dump != null, t, Part(frame, more), c, View());
      var kind := t;
      if codec.Some? {
        if kind == Compress {
          var out := codec.value.compress(frame);
          if out.Some? && c.coded {
            wire := wire + [Part(out.value, more)];
            return 0;
          }
          kind := Raw;
        } else if kind == Uncompress {
          var out := codec.value.uncompress(frame);
          if out.Some? && c.coded {
            wire := wire + [Part(out.value, more)];
            return 0;
          }
          kind := Raw;
        }
      }
      if kind == Raw && c.raw {
        wire := wire + [Part(frame, more)];
        return 0;
      }
      rc := DumpOrLose(frame, more, c.file);
    }
  }

  lemma FromRecordsSnoc(rs: seq<Record>, rec: Record)
    ensures FromRecords(rs + [rec]) == FromRecords(rs) + [Part(rec.payload, rec.flags != 0)]
  {
  }

  // ----- a run of calls -----

  /** One call. */
  datatype Call = Call(t: SendType, part: Part, calls: Calls)

  function SendAll(codec: Option<Codec>, hasDump: bool, cs: seq<Call>): Link {
    if cs == [] then EMPTY
    else
      var (l, c) := (SendAll(codec, hasDump, cs[..|cs| - 1]), cs[|cs| - 1]);
      SendMsg(codec, hasDump, c.t, c.part, c.calls, l)
  }

  /** The outcome of call `k`, and whether it got as far as the dump. */
  function FateAt(codec: Option<Codec>, hasDump: bool, cs: seq<Call>, k: nat): Fate
    requires k < |cs|
  {
    FateOf(codec, hasDump, cs[k].t, cs[k].part.frame, SendAll(codec, hasDump, cs[..k]).handle, cs[k].calls)
  }

  predicate Attempted(hasDump: bool, fate: Fate) {
    hasDump && (fate == Dumped || fate == Lost)
  }

  /** Call `k` dumped a frame with more to follow, and no later call got as far
      as the dump. */
  ghost predicate LeftOpenBy(codec: Option<Codec>, hasDump: bool, cs: seq<Call>, k: nat)
    requires k < |cs|
  {
    && FateAt(codec, hasDump, cs, k) == Dumped && cs[k].part.more
    && forall j :: k < j < |cs| ==> !Attempted(hasDump, FateAt(codec, hasDump, cs, j))
  }

  /** The dump is open exactly when it was attempted at all and the last attempt
      succeeded on a frame with more to follow. */
  lemma {:induction false} OpenAfterMore(codec: Option<Codec>, hasDump: bool, cs: seq<Call>)
    ensures SendAll(codec, hasDump, cs).handle <==> exists k :: 0 <= k < |cs| && LeftOpenBy(codec, hasDump, cs, k)
  {
    if cs != [] {
      hide FateOf, Settle;
      var n := |cs| - 1;
      OpenAfterMore(codec, hasDump, cs[..n]);
      LastAttempt(codec, hasDump, cs);
      if Attempted(hasDump, FateAt(codec, hasDump, cs, n)) {
        assert SendAll(codec, hasDump, cs).handle <==> LeftOpenBy(codec, hasDump, cs, n);
      } else {
        forall k | 0 <= k < n
          ensures LeftOpenBy(codec, hasDump, cs, k) <==> LeftOpenBy(codec, hasDump, cs[..n], k)
        {
          SameBefore(codec, hasDump, cs, k);
        }
      }
    }
  }

  lemma LastAttempt(codec: Option<Codec>, hasDump: bool, cs: seq<Call>)
    requires cs != []
    ensures var (n, init) := (|cs| - 1, cs[..|cs| - 1]);
            var fate := FateAt(codec, hasDump, cs, n);
            SendAll(codec, hasDump, cs).handle ==
            if Attempted(hasDump, fate) then fate == Dumped && cs[n].part.more else SendAll(codec, hasDump, init).handle
  {
  }

  lemma SameBefore(codec: Option<Codec>, hasDump: bool, cs: seq<Call>, k: nat)
    requires k < |cs| - 1
    requires !Attempted(hasDump, FateAt(codec, hasDump, cs, |cs| - 1))
    ensures LeftOpenBy(codec, hasDump, cs, k) <==> LeftOpenBy(codec, hasDump, cs[..|cs| - 1], k)
  {
    hide FateOf, SendAll;
    var init := cs[..|cs| - 1];
    forall j | 0 <= j < |init|
      ensures FateAt(codec, hasDump, cs, j) == FateAt(codec, hasDump, init, j)
    {
      assert init[..j] == cs[..j];
    }
  }
}
