/** ZeroMQ traffic as the broker sees it: frames with a "more follows" mark.
    `Parts` is how a message is put on a socket, `Whole` and `Open` are what a
    receiver makes of a stream of frames. */
module Wire {
  import opened Common

  type Message = seq<Bytes>

  datatype Part = Part(frame: Bytes, more: bool)

  /** The frames of one message as sent: every frame but the last is marked. */
  function Parts(m: Message): seq<Part> {
    if m == [] then [] else OpenParts(m[..|m| - 1]) + [Part(m[|m| - 1], false)]
  }

  /** The first frames of a message that is not closed yet. */
  function OpenParts(m: Message): (r: seq<Part>)
    ensures |r| == |m|
  {
    if m == [] then [] else OpenParts(m[..|m| - 1]) + [Part(m[|m| - 1], true)]
  }

  /** The frames of a stream of messages. */
  function PartsAll(ms: seq<Message>): seq<Part> {
    if ms == [] then [] else PartsAll(ms[..|ms| - 1]) + Parts(ms[|ms| - 1])
  }

  /** The messages a receiver has seen completely. */
  function Whole(ps: seq<Part>): seq<Message> {
    if ps == [] then [] else
      var (init, last) := (ps[..|ps| - 1], ps[|ps| - 1]);
      if last.more then Whole(init) else Whole(init) + [Open(init) + [last.frame]]
  }

  /** The frames of the message a receiver has seen only in part. */
  function Open(ps: seq<Part>): Message {
    if ps == [] then [] else
      var (init, last) := (ps[..|ps| - 1], ps[|ps| - 1]);
      if last.more then Open(init) + [last.frame] else []
  }

  /** What is said on the wire, without the message boundaries. */
  function Frames(ps: seq<Part>): seq<Bytes> {
    if ps == [] then [] else Frames(ps[..|ps| - 1]) + [ps[|ps| - 1].frame]
  }

  function NonEmpty(ms: seq<Message>): seq<Message> {
    if ms == [] then [] else
      var (init, last) := (ms[..|ms| - 1], ms[|ms| - 1]);
      NonEmpty(init) + (if last == [] then [] else [last])
  }

  lemma OpenPartsSnoc(m: Message, f: Bytes)
    ensures OpenParts(m + [f]) == OpenParts(m) + [Part(f, true)]
    ensures Parts(m + [f]) == OpenParts(m) + [Part(f, false)]
  {
    assert (m + [f])[..|m|] == m;
  }

  lemma NonEmptySnoc(ms: seq<Message>, m: Message)
    ensures NonEmpty(ms + [m]) == NonEmpty(ms) + (if m == [] then [] else [m])
  {
    assert (ms + [m])[..|ms|] == ms;
  }

  lemma PartsAllSnoc(ms: seq<Message>, m: Message)
    ensures PartsAll(ms + [m]) == PartsAll(ms) + Parts(m)
  {
    assert (ms + [m])[..|ms|] == ms;
  }

  lemma {:induction false} PartsAllAppend(a: seq<Message>, b: seq<Message>)
    ensures PartsAll(a + b) == PartsAll(a) + PartsAll(b)
  {
    if b == [] {
      assert a + b == a;
    } else {
      var init, last := b[..|b| - 1], b[|b| - 1];
      assert a + b == (a + init) + [last];
      PartsAllSnoc(a + init, last);
      PartsAllAppend(a, init);
      Associative(PartsAll(a), PartsAll(init), Parts(last));
    }
  }

  /** One more frame at the receiver. */
  lemma Receive(ps: seq<Part>, p: Part)
    ensures Whole(ps + [p]) == if p.more then Whole(ps) else Whole(ps) + [Open(ps) + [p.frame]]
    ensures Open(ps + [p]) == if p.more then Open(ps) + [p.frame] else []
  {
    assert (ps + [p])[..|ps|] == ps;
  }

  /** A receiver neither loses nor reorders frames. */
  lemma {:induction false} FramesReceived(ps: seq<Part>)
    ensures Concat(Whole(ps)) + Open(ps) == Frames(ps)
  {
    if ps != [] {
      hide Concat;
      var init, last := ps[..|ps| - 1], ps[|ps| - 1];
      FramesReceived(init);
      ConcatSnoc(Whole(init), Open(init) + [last.frame]);
      Associative(Concat(Whole(init)), Open(init), [last.frame]);
    }
  }

  lemma {:induction false} ReceiveOpen(ps: seq<Part>, m: Message)
    ensures Whole(ps + OpenParts(m)) == Whole(ps)
    ensures Open(ps + OpenParts(m)) == Open(ps) + m
  {
    hide Whole, Open;
    if m == [] {
      assert ps + OpenParts(m) == ps;
    } else {
      var n := |m| - 1;
      ReceiveOpen(ps, m[..n]);
      Associative(ps, OpenParts(m[..n]), [Part(m[n], true)]);
      Receive(ps + OpenParts(m[..n]), Part(m[n], true));
      Associative(Open(ps), m[..n], [m[n]]);
      assert m[..n] + [m[n]] == m;
    }
  }

  /** Message boundaries survive the wire: a receiver of the frames of `ms`
      sees exactly the non-empty messages of `ms`, and nothing left open. */
  lemma {:induction false} WholeOfPartsAll(ms: seq<Message>)
    ensures Whole(PartsAll(ms)) == NonEmpty(ms)
    ensures Open(PartsAll(ms)) == []
  {
    if ms != [] {
      var n := |ms| - 1;
      WholeOfPartsAll(ms[..n]);
      ReceiveParts(PartsAll(ms[..n]), ms[n]);
    }
  }

  lemma ReceiveParts(ps: seq<Part>, m: Message)
    requires Open(ps) == []
    ensures Whole(ps + Parts(m)) == Whole(ps) + (if m == [] then [] else [m])
    ensures Open(ps + Parts(m)) == []
  {
    hide Whole, Open, OpenParts;
    if m == [] {
      assert ps + Parts(m) == ps;
    } else {
      var k := |m| - 1;
      ReceiveOpen(ps, m[..k]);
      Receive(ps + OpenParts(m[..k]), Part(m[k], false));
      assert ps + Parts(m) == (ps + OpenParts(m[..k])) + [Part(m[k], false)];
      assert [] + m[..k] + [m[k]] == m;
    }
  }

  lemma {:induction false} NonEmptyKeepsAll(ms: seq<Message>)
    requires forall k :: 0 <= k < |ms| ==> ms[k] != []
    ensures NonEmpty(ms) == ms
  {
    hide NonEmpty;
    if ms == [] {
      NoMessages();
    } else {
      var n := |ms| - 1;
      NonEmptyKeepsAll(ms[..n]);
      NonEmptySnoc(ms[..n], ms[n]);
      assert ms == ms[..n] + [ms[n]];
    }
  }

  lemma NoMessages()
    ensures NonEmpty([]) == []
  {
  }

  lemma NoParts()
    ensures Parts([]) == [] && PartsAll([]) == []
  {
  }

  lemma FirstMessage(m: Message, rest: seq<Message>)
    ensures PartsAll([m] + rest) == Parts(m) + PartsAll(rest)
  {
    OneMessage(m);
    hide PartsAll, Parts;
    PartsAllAppend([m], rest);
  }

  lemma OneMessage(m: Message)
    ensures PartsAll([m]) == Parts(m)
  {
    hide Parts;
    assert [m][..0] == [];
    assert [] + Parts(m) == Parts(m);
  }

  lemma {:induction false} PartsAt(m: Message)
    ensures |Parts(m)| == |m|
    ensures forall i :: 0 <= i < |m| ==> Parts(m)[i] == Part(m[i], i < |m| - 1)
  {
    if m != [] {
      OpenPartsAt(m[..|m| - 1]);
    }
  }

  lemma {:induction false} OpenPartsAt(m: Message)
    ensures forall i :: 0 <= i < |m| ==> OpenParts(m)[i] == Part(m[i], true)
  {
    if m != [] {
      OpenPartsAt(m[..|m| - 1]);
    }
  }

  /** Reading a stream by frames: what is left of `Parts(m)` after one frame. */
  lemma {:induction false} PartsHead(m: Message)
    requires m != []
    ensures Parts(m) == [Part(m[0], |m| > 1)] + Parts(m[1..])
    ensures |Parts(m)| == |m|
  {
    if |m| > 1 {
      var n := |m| - 1;
      OpenPartsHead(m[..n]);
      assert m[1..][..n - 1] == m[..n][1..];
    }
  }

  lemma {:induction false} OpenPartsHead(m: Message)
    requires m != []
    ensures OpenParts(m) == [Part(m[0], true)] + OpenParts(m[1..])
  {
    if |m| > 1 {
      var n := |m| - 1;
      OpenPartsHead(m[..n]);
      assert m[1..][..n - 1] == m[..n][1..];
    } else {
      assert m[..0] == [];
    }
  }
}
