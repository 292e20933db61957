/** How zlmb-worker hands a multipart message to a spawned command
    (src/app_worker.c), and how the command takes it apart again
    (src/exp_worker_exec.py). */
module Worker {
  import opened Common
  import opened Text
  import opened Wire
  import opened Stack

  // ----- decimal numbers, as printed by %ld and read by int() -----

  const DIGITS := "0123456789"

  function Decimal(n: nat): (s: string)
    ensures s != [] && ':' !in s
  {
    if n < 10 then [DIGITS[n]] else Decimal(n / 10) + [DIGITS[n % 10]]
  }

  function DigitValue(c: char): Option<nat> {
    if '0' <= c <= '9' then Some(c as nat - '0' as nat) else None
  }

  /** `None` stands for the ValueError of int(). */
  function ParseDecimal(s: string): Option<nat> {
    if s == [] then None
    else
      match DigitValue(s[|s| - 1])
      case None => None
      case Some(d) =>
        if |s| == 1 then Some(d)
        else
          match ParseDecimal(s[..|s| - 1])
          case None => None
          case Some(high) => Some(10 * high + d)
  }

  lemma {:induction false} ParsePrinted(n: nat)
    ensures ParseDecimal(Decimal(n)) == Some(n)
  {
    DigitPrinted(n % 10);
    hide DigitValue;
    if n >= 10 {
      ParsePrinted(n / 10);
      ParseSnoc(Decimal(n / 10), DIGITS[n % 10]);
    }
  }

  lemma DigitPrinted(d: nat)
    requires d < 10
    ensures DigitValue(DIGITS[d]) == Some(d)
  {
  }

  lemma ParseSnoc(s: string, c: char)
    requires s != [] && ParseDecimal(s).Some? && DigitValue(c).Some?
    ensures ParseDecimal(s + [c]) == Some(10 * ParseDecimal(s).value + DigitValue(c).value)
  {
    hide DigitValue;
    assert (s + [c])[..|s|] == s;
  }

  // ----- the environment and the pipe -----

  /** What the command gets: the variables that are set, and standard input. */
  datatype Child = Child(frame: Option<string>, frameLength: Option<string>, length: Option<string>, stdin: Bytes)

  /** ZLMB_FRAME, ZLMB_FRAME_LENGTH and ZLMB_LENGTH as the worker keeps them. */
  datatype Environ = Environ(frame: string, frameLength: Option<string>, length: string)

  function Lengths(fs: Message): (r: seq<string>)
    ensures |r| == |fs| && forall k :: 0 <= k < |r| ==> r[k] == Decimal(|fs[k]|)
  {
    seq(|fs|, k requires 0 <= k < |fs| => Decimal(|fs[k]|))
  }

  function LengthList(fs: Message): Option<string> {
    if fs == [] then None else Some(Join(Lengths(fs), ':'))
  }

  lemma LengthListSnoc(fs: Message, f: Bytes)
    ensures LengthList(fs + [f]) == Some(
              match LengthList(fs)
              case None => Decimal(|f|)
              case Some(older) => older + [':'] + Decimal(|f|))
  {
    hide Decimal, Join, Lengths;
    LengthsSnoc(fs, f);
    if fs == [] {
      assert Lengths(fs) + [Decimal(|f|)] == [Decimal(|f|)];
      JoinOne(Decimal(|f|), ':');
    } else {
      JoinSnoc(Lengths(fs), Decimal(|f|), ':');
    }
  }

  lemma LengthsSnoc(fs: Message, f: Bytes)
    ensures Lengths(fs + [f]) == Lengths(fs) + [Decimal(|f|)]
  {
    hide Decimal;
  }

  /** One step of the walk over the frames `all`. */
  lemma EnvironStep(all: Message, k: nat)
    requires k < |all|
    ensures |Concat(all[..k + 1])| == |Concat(all[..k])| + |all[k]|
    ensures LengthList(all[..k + 1]) == Some(
              match LengthList(all[..k])
              case None => Decimal(|all[k]|)
              case Some(older) => older + [':'] + Decimal(|all[k]|))
  {
    assert all[..k + 1] == all[..k] + [all[k]];
    LengthListSnoc(all[..k], all[k]);
    ConcatSnoc(all[..k], all[k]);
  }

  method GenerateEnviron(stack: Deque<Bytes>) returns (env: Environ)
    requires stack.Valid()
    ensures env.frame == Decimal(|stack.Contents()|)
    ensures env.frameLength == LengthList(stack.Contents())
    ensures env.length == Decimal(|Concat(stack.Contents())|)
  {
    var frameLength: Option<string> := None;
    var length := 0;
    ghost var k, all := 0, stack.Contents();
    var item := stack.head;
    while item != null
      invariant 0 <= k <= |all|
      invariant if k == |all| then item == null else item == stack.items[k]
      invariant frameLength == LengthList(all[..k])
      invariant length == |Concat(all[..k])|
      decreases |all| - k
    {
      var next := item.next;
      var size := |item.data|;
      EnvironStep(all, k);
      if frameLength.None? {
        frameLength := Some(Decimal(size));
      } else {
        var older := frameLength.value;
        frameLength := Some(older + [':'] + Decimal(size));
      }
      length := length + size;
      item := next;
      k := k + 1;
    }
    assert all[..k] == all;
    env := Environ(Decimal(stack.size), frameLength, Decimal(length));
  }

  /** The environment array ends at its first null entry, so without frames
      ZLMB_LENGTH is not passed either. The frames are shifted out of the stack
      into the pipe. */
  method SpawnRun(stack: Deque<Bytes>, env: Environ) returns (child: Child)
    requires stack.Valid()
    modifies stack, stack.items
    ensures stack.Valid() && stack.Contents() == []
    ensures child == Child(Some(env.frame), env.frameLength,
                           if env.frameLength.None? then None else Some(env.length),
                           Concat(old(stack.Contents())))
  {
    hide Concat;
    var stdin: Bytes := [];
    NothingWritten();
    ghost var all, nodes, k := stack.Contents(), stack.items, 0;
    while stack.size > 0
      invariant stack.Valid()
      invariant 0 <= k <= |all|
      invariant stack.items == nodes[k..]
      invariant stack.Contents() == all[k..] && stdin == Concat(all[..k])
      decreases stack.size
    {
      var data := stack.Shift();
      if data.Some? {
        stdin := stdin + data.value;
      }
      ConcatSnoc(all[..k], all[k]);
      Around(all, k);
      k := k + 1;
    }
    assert all[..k] == all;
    child := Child(Some(env.frame), env.frameLength,
                   if env.frameLength.None? then None else Some(env.length), stdin);
  }

  lemma NothingWritten()
    ensures Concat<Byte>([]) == []
  {
  }

  /** What the command is given for the frames `fs`. */
  function ChildOf(fs: Message): Child {
    Child(Some(Decimal(|fs|)), LengthList(fs),
          if fs == [] then None else Some(Decimal(|Concat(fs)|)), Concat(fs))
  }

  /** The frames read before `stop` of them have been read or the message ends. */
  function ReadUpTo(message: Message, stop: nat): Message {
    if stop < |message| then message[..stop] else message
  }

  /** The frames received are the first ones of the message: all of them, unless
      something stopped the loop before. */
  predicate IsReceived(got: Message, message: Message, stop: nat) {
    && got <= message
    && |got| == (if stop < |message| then stop else |message|)
    && (stop >= |message| ==> got == message)
  }

  /** The receive loop: frames are read until the message ends, a receive fails
      or the interrupt flag is seen, whichever comes first (`stop` frames are
      read before one of the last two happens). */
  method ReceiveMessage(message: Message, stop: nat) returns (stack: Deque<Bytes>)
    ensures fresh(stack) && stack.Valid() && fresh(stack.items)
    ensures stack.Contents() == ReadUpTo(message, stop)
    ensures IsReceived(stack.Contents(), message, stop)
  {
    stack := new Deque<Bytes>();
    var read := 0;
    while read < stop && read < |message|
      invariant fresh(stack) && stack.Valid() && fresh(stack.items)
      invariant 0 <= read <= |message| && read <= stop
      invariant stack.Contents() == message[..read]
    {
      var rc := stack.Push(Some(message[read]));
      read := read + 1;
    }
  }

  method WorkerCommand(message: Message, stop: nat) returns (child: Child)
    ensures child == ChildOf(ReadUpTo(message, stop))
    ensures stop >= |message| ==> child == ChildOf(message)
  {
    var stack := ReceiveMessage(message, stop);
    var env := GenerateEnviron(stack);
    child := SpawnRun(stack, env);
  }

  // ----- the command's parser -----

  /** buf[i:j] in Python, for 0 <= i <= j: bounds past the end are cut off. */
  function Slice(buf: Bytes, i: nat, j: nat): Bytes
    requires i <= j
  {
    if i >= |buf| then [] else if j >= |buf| then buf[i..] else buf[i..j]
  }

  datatype Cutting = Cutting(frames: Message, end: nat)

  /** The frames that the lengths `vals` cut from the front of `buf`. */
  function Cut(vals: seq<string>, buf: Bytes): Option<Cutting> {
    if vals == [] then Some(Cutting([], 0))
    else
      match (Cut(vals[..|vals| - 1], buf), ParseDecimal(vals[|vals| - 1]))
      case (Some(c), Some(l)) => Some(Cutting(c.frames + [Slice(buf, c.end, c.end + l)], c.end + l))
      case _ => None
  }

  lemma CutSnoc(vals: seq<string>, v: string, buf: Bytes)
    requires Cut(vals, buf).Some? && ParseDecimal(v).Some?
    ensures var (c, l) := (Cut(vals, buf).value, ParseDecimal(v).value);
            Cut(vals + [v], buf) == Some(Cutting(c.frames + [Slice(buf, c.end, c.end + l)], c.end + l))
  {
    hide ParseDecimal, Slice;
    assert (vals + [v])[..|vals|] == vals;
  }

  lemma CutStops(vals: seq<string>, v: string, buf: Bytes)
    requires ParseDecimal(v).None?
    ensures Cut(vals + [v], buf) == None
  {
    hide ParseDecimal, Slice;
  }

  lemma CutWithoutLengths(buf: Bytes)
    ensures Cut([], buf) == Some(Cutting([], 0))
  {
  }

  lemma {:induction false} CutFailsEarly(vals: seq<string>, k: nat, buf: Bytes)
    requires k <= |vals| && Cut(vals[..k], buf) == None
    ensures Cut(vals, buf) == None
  {
    if k < |vals| {
      assert vals[..|vals| - 1][..k] == vals[..k];
      CutFailsEarly(vals[..|vals| - 1], k, buf);
    } else {
      assert vals[..k] == vals;
    }
  }

  /** What the script makes of its environment and input, as a function. */
  function Recovered(child: Child): Option<Message> {
    if child.frameLength.None? then Some([])
    else match Cut(Split(child.frameLength.value, ':'), child.stdin)
      case None => None
      case Some(c) => Some(c.frames)
  }

  /** The script: an unset ZLMB_FRAME_LENGTH is not greater than 0, any string
      is. `None` is the exception for a length that is no number. */
  method ParseFrames(child: Child) returns (frames: Option<Message>)
    ensures frames == Recovered(child)
  {
    hide Cut, Split, ParseDecimal, Slice;
    var list: Message := [];
    CutWithoutLengths(child.stdin);
    if child.frameLength.Some? {
      var i, j := 0, 0;
      var lines := Split(child.frameLength.value, ':');
      for k := 0 to |lines|
        invariant i == j
        invariant Cut(lines[..k], child.stdin) == Some(Cutting(list, i))
      {
        Around(lines, k);
        var val := ParseDecimal(lines[k]);
        if val.None? {
          CutStops(lines[..k], lines[k], child.stdin);
          CutFailsEarly(lines, k + 1, child.stdin);
          return None;
        }
        CutSnoc(lines[..k], lines[k], child.stdin);
        j := j + val.value;
        var buf := Slice(child.stdin, i, j);
        i := j;
        list := list + [buf];
      }
      assert lines[..|lines|] == lines;
    }
    frames := Some(list);
  }

  lemma ConcatPrefix(fs: Message, k: nat)
    requires k < |fs|
    ensures Concat(fs[..k + 1]) == Concat(fs[..k]) + fs[k]
    ensures Concat(fs[..k + 1]) <= Concat(fs)
  {
    hide Concat;
    Around(fs, k);
    ConcatSnoc(fs[..k], fs[k]);
    ConcatAppend(fs[..k + 1], fs[k + 1..]);
  }

  lemma SliceBetween(before: Bytes, f: Bytes, buf: Bytes)
    requires before + f <= buf
    ensures Slice(buf, |before|, |before| + |f|) == f
  {
    assert buf[..|before| + |f|] == before + f;
  }

  lemma CutNext(vals: seq<string>, before: Message, f: Bytes, buf: Bytes)
    requires Cut(vals, buf) == Some(Cutting(before, |Concat(before)|))
    requires Concat(before) + f <= buf
    ensures Cut(vals + [Decimal(|f|)], buf) == Some(Cutting(before + [f], |Concat(before + [f])|))
  {
    hide Cut, Concat, Decimal, Slice, ParseDecimal;
    ParsePrinted(|f|);
    CutSnoc(vals, Decimal(|f|), buf);
    SliceBetween(Concat(before), f, buf);
    ConcatSnoc(before, f);
  }

  lemma {:induction false} CutLengths(fs: Message, k: nat)
    requires k <= |fs|
    ensures Cut(Lengths(fs)[..k], Concat(fs)) == Some(Cutting(fs[..k], |Concat(fs[..k])|))
  {
    hide Cut, Concat, Decimal;
    if k == 0 {
      CutNothing(fs);
    } else {
      CutLengths(fs, k - 1);
      ConcatPrefix(fs, k - 1);
      CutNext(Lengths(fs)[..k - 1], fs[..k - 1], fs[k - 1], Concat(fs));
      Around(Lengths(fs), k - 1);
      Around(fs, k - 1);
    }
  }

  lemma CutNothing(fs: Message)
    ensures Cut(Lengths(fs)[..0], Concat(fs)) == Some(Cutting(fs[..0], |Concat(fs[..0])|))
  {
  }

  /** The round trip, for every list of frames, the empty list and empty frames
      included; and the two counters are right. */
  lemma FramingRoundTrip(fs: Message)
    ensures Recovered(ChildOf(fs)) == Some(fs)
    ensures ParseDecimal(ChildOf(fs).frame.value) == Some(|fs|)
    ensures fs != [] ==> ChildOf(fs).length.Some? && ParseDecimal(ChildOf(fs).length.value) == Some(|ChildOf(fs).stdin|)
    ensures fs == [] ==> ChildOf(fs).length.None? && ChildOf(fs).stdin == []
  {
    ParsePrinted(|fs|);
    ParsePrinted(|Concat(fs)|);
    if fs != [] {
      var ls := Lengths(fs);
      SplitJoin(ls, ':');
      SplitAllWithoutSeparator(ls, ':');
      CutLengths(fs, |fs|);
      assert ls[..|fs|] == ls && fs[..|fs|] == fs;
    }
  }

  /** What a command sees, spelt out for one message of two frames. */
  lemma TwoFrames()
    ensures ChildOf([[97], [98, 99]]) == Child(Some("2"), Some("1:2"), Some("3"), [97, 98, 99])
  {
    hide Lengths, Join;
    var one: Message := [[97]];
    assert one + [[98, 99]] == [[97], [98, 99]] && [] + one == one;
    ConcatSnoc<Byte>(one, [98, 99]);
    ConcatSnoc<Byte>([], [97]);
    NothingWritten();
    assert Concat(one + [[98, 99]]) == [97, 98, 99];
    LengthListSnoc(one, [98, 99]);
    LengthListSnoc([], [97]);
    assert Decimal(1) == "1" && Decimal(2) == "2" && Decimal(3) == "3";
    assert LengthList(one) == Some("1");
    assert "1" + [':'] + "2" == "1:2";
  }

  /** Worker and script together, under any interruption: the script sees
      exactly the frames that were received, and the whole message if nothing
      interrupted. */
  method DeliverToScript(message: Message, stop: nat) returns (frames: Option<Message>)
    ensures frames.Some? && IsReceived(frames.value, message, stop)
    ensures stop >= |message| ==> frames == Some(message)
  {
    var child := WorkerCommand(message, stop);
    frames := ParseFrames(child);
    FramingRoundTrip(ReadUpTo(message, stop));
  }
}
