/** zlmb-cli: how command-line arguments and input lines become multipart
    messages (src/app_client.c). */
module Cli {
  import opened Common
  import opened Wire

  /** `ms` is `args` cut into consecutive messages of exactly `k` frames, the
      last of which may be shorter but not empty. */
  ghost predicate Grouped(ms: seq<Message>, args: seq<Bytes>, k: nat) {
    && Concat(ms) == args
    && (forall i :: 0 <= i < |ms| - 1 ==> |ms[i]| == k)
    && (ms != [] ==> 1 <= |ms[|ms| - 1]| <= k)
  }

  /** The grouping is unique: message i starts at argument i * k. */
  lemma GroupedAt(ms: seq<Message>, args: seq<Bytes>, k: nat, i: nat)
    requires Grouped(ms, args, k) && i < |ms|
    ensures i * k + |ms[i]| <= |args| && ms[i] == args[i * k..i * k + |ms[i]|]
    ensures |ms[i]| == if i == |ms| - 1 then |args| - i * k else k
  {
    FullGroups(ms[..i], k);
    var rest := Concat(ms[i + 1..]);
    ConcatAround(ms, i);
    assert args == Concat(ms[..i]) + ms[i] + rest;
    if i == |ms| - 1 {
      assert ms[i + 1..] == [] && rest == [];
    }
  }

  lemma ConcatAround(ms: seq<Message>, i: nat)
    requires i < |ms|
    ensures Concat(ms) == Concat(ms[..i]) + ms[i] + Concat(ms[i + 1..])
  {
    hide Concat;
    Around(ms, i);
    ConcatAppend(ms[..i + 1], ms[i + 1..]);
    ConcatSnoc(ms[..i], ms[i]);
  }

  lemma {:induction false} FullGroups(ms: seq<Message>, k: nat)
    requires forall i :: 0 <= i < |ms| ==> |ms[i]| == k
    ensures |Concat(ms)| == |ms| * k
  {
    if ms != [] {
      FullGroups(ms[..|ms| - 1], k);
      assert |ms| * k == (|ms| - 1) * k + k;
    }
  }

  function GroupSize(multipart: int): nat {
    if multipart > 1 then multipart else 1
  }

  /** Sent so far: full groups `done`, then the frames `open` of the next one. */
  ghost predicate Sending(sent: seq<Part>, done: seq<Message>, open: Message, args: seq<Bytes>, k: nat) {
    && Whole(sent) == done && Open(sent) == open
    && Concat(done) + open == args
    && (forall j :: 0 <= j < |done| ==> |done[j]| == k)
  }

  /** `main` without an input file: the usage error for an empty argument list,
      otherwise one send per argument. */
  method SendArguments(args: seq<Bytes>, multipart: int) returns (rc: int, sent: seq<Part>)
    ensures rc == if args == [] then -1 else 0
    ensures args == [] ==> sent == []
    ensures args != [] ==>
              && Frames(sent) == args
              && Open(sent) == []
              && Grouped(Whole(sent), args, GroupSize(multipart))
              && var ms := Whole(sent);
                 && ms != []
                 && (forall i :: 0 <= i < |ms| - 1 ==> |ms[i]| == if multipart >= 1 then multipart else 1)
                 && 1 <= |ms[|ms| - 1]| <= if multipart >= 1 then multipart else 1
  {
    sent := [];
    if args == [] { return -1, []; }
    var size := if multipart < 0 then 0 else multipart;
    ghost var done: seq<Message>, open: Message := [], [];
    var part, i := 1, 0;
    while i != |args| - 1
      invariant 0 <= i <= |args| - 1
      invariant 1 <= part <= GroupSize(multipart) && |open| == part - 1
      invariant Sending(sent, done, open, args[..i], GroupSize(multipart))
      decreases |args| - i
    {
      var more := true;
      if part >= size {
        more := false;
        part := 0;
      }
      done, open := AfterFrame(sent, done, open, args, i, more, GroupSize(multipart));
      sent := sent + [Part(args[i], more)];
      part := part + 1;
      i := i + 1;
    }
    part := |args| - 1;
    AfterLast(sent, done, open, args, GroupSize(multipart));
    sent := sent + [Part(args[part], false)];
    rc := 0;
  }

  lemma AfterLast(sent: seq<Part>, done: seq<Message>, open: Message, args: seq<Bytes>, k: nat)
    requires args != [] && |open| < k
    requires Sending(sent, done, open, args[..|args| - 1], k)
    ensures var all := sent + [Part(args[|args| - 1], false)];
            Frames(all) == args && Open(all) == [] && Grouped(Whole(all), args, k)
  {
    var last := args[|args| - 1];
    Receive(sent, Part(last, false));
    ConcatSnoc(done, open + [last]);
    assert args == args[..|args| - 1] + [last];
    FramesReceived(sent + [Part(last, false)]);
  }

  lemma AfterFrame(sent: seq<Part>, done: seq<Message>, open: Message, args: seq<Bytes>, i: nat, more: bool, k: nat)
    returns (done': seq<Message>, open': Message)
    requires i < |args| && Sending(sent, done, open, args[..i], k)
    requires !more ==> |open| == k - 1
    ensures |open'| == if more then |open| + 1 else 0
    ensures Sending(sent + [Part(args[i], more)], done', open', args[..i + 1], k)
  {
    assert args[..i + 1] == args[..i] + [args[i]];
    if more {
      done', open' := done, open + [args[i]];
      AfterMore(sent, done, open, args[..i], args[i], k);
    } else {
      done', open' := done + [open + [args[i]]], [];
      AfterClose(sent, done, open, args[..i], args[i], k);
    }
  }

  lemma AfterMore(sent: seq<Part>, done: seq<Message>, open: Message, args: seq<Bytes>, a: Bytes, k: nat)
    requires Sending(sent, done, open, args, k)
    ensures Sending(sent + [Part(a, true)], done, open + [a], args + [a], k)
  {
    Receive(sent, Part(a, true));
    Associative(Concat(done), open, [a]);
  }

  lemma AfterClose(sent: seq<Part>, done: seq<Message>, open: Message, args: seq<Bytes>, a: Bytes, k: nat)
    requires Sending(sent, done, open, args, k) && |open| == k - 1
    ensures Sending(sent + [Part(a, false)], done + [open + [a]], [], args + [a], k)
  {
    Receive(sent, Part(a, false));
    ConcatSnoc(done, open + [a]);
    Associative(Concat(done), open, [a]);
    var done' := done + [open + [a]];
    assert Concat(done') + [] == Concat(done');
    forall j | 0 <= j < |done'|
      ensures |done'[j]| == k
    {
      assert done'[j] == if j < |done| then done[j] else open + [a];
    }
  }

  const NEWLINE: Byte := 10

  /** `fgets` leaves the newline at the end of a line; the program puts a NUL in
      place of the last one. What is sent stops at the first NUL. */
  function WithoutNewline(line: Bytes): Bytes {
    UpToNul(if line != [] && line[|line| - 1] == NEWLINE then line[..|line| - 1] else line)
  }

  function TagCount(args: seq<Bytes>, multipart: int): nat {
    if multipart <= 0 then 0 else if |args| < multipart then |args| else multipart - 1
  }

  function LineMessages(lines: seq<Bytes>, tags: Message): seq<Message> {
    seq(|lines|, k requires 0 <= k < |lines| => tags + [WithoutNewline(lines[k])])
  }

  /** The message for one line: as many arguments as leave room for the line
      among `multipart` frames, or all of them if they are fewer; then the line
      without its newline. */
  predicate LeadsLine(m: Message, line: Bytes, args: seq<Bytes>, multipart: int) {
    m != []
    && var tags := |m| - 1;
       && tags == (if multipart < 1 then 0 else if |args| < multipart then |args| else multipart - 1)
       && tags <= |args| && m[..tags] == args[..tags]
       && m[tags] <= line && 0 !in m[tags]
       && (0 !in line ==>
             m[tags] == if line != [] && line[|line| - 1] == NEWLINE then line[..|line| - 1] else line)
  }

  lemma LineIsLed(lines: seq<Bytes>, args: seq<Bytes>, multipart: int, i: nat)
    requires i < |lines|
    ensures LeadsLine(LineMessages(lines, args[..TagCount(args, multipart)])[i], lines[i], args, multipart)
  {
    var line := lines[i];
    if 0 !in line {
      UpToNulWhole(if line != [] && line[|line| - 1] == NEWLINE then line[..|line| - 1] else line);
    }
  }

  /** `main` with an input file, given the strings that `fgets` returns (each
      with at most one newline, at its end): every line becomes one message, led
      by the first `TagCount` arguments, of at most `multipart` frames. */
  method SendLines(lines: seq<Bytes>, args: seq<Bytes>, multipart: int) returns (sent: seq<Part>)
    ensures Whole(sent) == LineMessages(lines, args[..TagCount(args, multipart)])
    ensures Open(sent) == []
    ensures forall i :: 0 <= i < |Whole(sent)| ==> |Whole(sent)[i]| <= GroupSize(multipart)
    ensures |Whole(sent)| == |lines|
    ensures forall i :: 0 <= i < |lines| ==> LeadsLine(Whole(sent)[i], lines[i], args, multipart)
  {
    var size := if multipart < 0 then 0 else multipart;
    ghost var tags := args[..TagCount(args, multipart)];
    sent := [];
    assert Whole(sent) == [] && Open(sent) == [];
    hide Whole, Open, WithoutNewline;
    for n := 0 to |lines|
      invariant Whole(sent) == LineMessages(lines[..n], tags)
      invariant Open(sent) == []
    {
      var buf := WithoutNewline(lines[n]);
      if size > 0 && |args| > 0 {
        var part := if |args| < size then |args| else size - 1;
        sent := SendTags(sent, args[..part]);
      }
      assert Open(sent) == tags;
      Receive(sent, Part(buf, false));
      sent := sent + [Part(buf, false)];
      NextLine(lines, tags, n);
    }
    assert lines[..|lines|] == lines;
    forall i | 0 <= i < |lines|
      ensures LeadsLine(Whole(sent)[i], lines[i], args, multipart)
    {
      LineIsLed(lines, args, multipart, i);
    }
  }

  lemma NextLine(lines: seq<Bytes>, tags: Message, n: nat)
    requires n < |lines|
    ensures LineMessages(lines[..n + 1], tags) == LineMessages(lines[..n], tags) + [tags + [WithoutNewline(lines[n])]]
  {
    hide WithoutNewline;
  }

  method SendTags(before: seq<Part>, tags: Message) returns (sent: seq<Part>)
    requires Open(before) == []
    ensures Whole(sent) == Whole(before) && Open(sent) == tags
  {
    sent := before;
    assert tags[..0] == [];
    hide Whole, Open;
    for i := 0 to |tags|
      invariant Whole(sent) == Whole(before) && Open(sent) == tags[..i]
    {
      Receive(sent, Part(tags[i], true));
      sent := sent + [Part(tags[i], true)];
      Around(tags, i);
    }
    assert tags[..|tags|] == tags;
  }
}
