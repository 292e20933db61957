/** The binary dump file: what one write appends and what one read consumes
    (src/dump.c). Integers are stored as on a little-endian machine with 4-byte
    int and 8-byte size_t. */
module DumpFormat {
  import opened Common

  // ----- fixed-width integers -----

  function Little(n: nat, width: nat): (r: Bytes)
    ensures |r| == width
  {
    if width == 0 then [] else [n % 256] + Little(n / 256, width - 1)
  }

  function FromLittle(b: Bytes): nat {
    if b == [] then 0 else b[0] + 256 * FromLittle(b[1..])
  }

  function Pow256(width: nat): nat {
    if width == 0 then 1 else 256 * Pow256(width - 1)
  }

  lemma {:induction false} LittleRoundTrip(n: nat, width: nat)
    requires n < Pow256(width)
    ensures FromLittle(Little(n, width)) == n
  {
    if width > 0 {
      LittleRoundTrip(n / 256, width - 1);
      assert Little(n, width)[1..] == Little(n / 256, width - 1);
    }
  }

  const INT_MAX := 0x7fff_ffff

  /** Two's complement. */
  function EncodeInt(n: int): (r: Bytes)
    requires -INT_MAX - 1 <= n <= INT_MAX
    ensures |r| == 4
  {
    Little(if n < 0 then n + 0x1_0000_0000 else n, 4)
  }

  function DecodeInt(b: Bytes): int {
    var u := FromLittle(b);
    if u > INT_MAX then u - 0x1_0000_0000 else u
  }

  lemma IntRoundTrip(n: int)
    requires -INT_MAX - 1 <= n <= INT_MAX
    ensures DecodeInt(EncodeInt(n)) == n
  {
    assert Pow256(4) == 0x1_0000_0000 by {
      assert Pow256(2) == 0x1_0000;
    }
    LittleRoundTrip(if n < 0 then n + 0x1_0000_0000 else n, 4);
  }

  function EncodeSize(n: nat): (r: Bytes)
    ensures |r| == 8
  {
    Little(n, 8)
  }

  lemma SizeRoundTrip(n: nat)
    requires n < 0x1_0000_0000_0000_0000
    ensures FromLittle(EncodeSize(n)) == n
  {
    assert Pow256(8) == 0x1_0000_0000_0000_0000 by {
      assert Pow256(2) == 0x1_0000;
      assert Pow256(4) == 0x1_0000_0000;
      assert Pow256(6) == 0x1_0000_0000_0000;
    }
    LittleRoundTrip(n, 8);
  }

  // ----- records -----

  const HEADER: Bytes := [0x00, 0x7a, 0x6c, 0x6d, 0x62]
  const HEAD := 5 + 4 + 8

  /** A frame that the broker may be asked to dump. Its length is an `int`, as
      the conversion in the writer supposes. */
  type Frame = b: Bytes | |b| <= INT_MAX

  type Flags = n: int | -INT_MAX - 1 <= n <= INT_MAX

  datatype Record = Record(flags: Flags, payload: Frame)

  lemma {:induction false} UpToNulCuts(b: Bytes)
    requires 0 in b
    ensures |UpToNul(b)| < |b|
  {
    if b[0] != 0 {
      UpToNulCuts(b[1..]);
    }
  }

  function Head(r: Record): (b: Bytes)
    ensures |b| == HEAD
  {
    HEADER + EncodeInt(r.flags) + EncodeSize(|r.payload|)
  }

  /** What one write appends. */
  function Encode(r: Record): Bytes {
    Head(r) + UpToNul(r.payload)
  }

  function EncodeAll(rs: seq<Record>): Bytes {
    if rs == [] then [] else Encode(rs[0]) + EncodeAll(rs[1..])
  }

  lemma EncodeAllCons(rec: Record, rs: seq<Record>)
    ensures EncodeAll([rec] + rs) == Encode(rec) + EncodeAll(rs)
  {
    assert ([rec] + rs)[1..] == rs;
  }

  lemma {:induction false} EncodeAllAppend(a: seq<Record>, b: seq<Record>)
    ensures EncodeAll(a + b) == EncodeAll(a) + EncodeAll(b)
  {
    if a == [] {
      assert a + b == b;
    } else {
      assert a + b == [a[0]] + (a[1..] + b);
      EncodeAllCons(a[0], a[1..] + b);
      EncodeAllAppend(a[1..], b);
      Associative(Encode(a[0]), EncodeAll(a[1..]), EncodeAll(b));
    }
  }

  // ----- one read -----

  /** The reader: position and end-of-file mark of the stream, and the count of
      consumed bytes. */
  datatype Reader = Reader(pos: nat, eof: bool, size: nat)

  datatype Got = Got(rc: int, message: Option<Bytes>, reader: Reader)

  /** The bytes that fread finds. */
  function Available(file: Bytes, pos: nat, n: nat): (r: Bytes)
    ensures |r| <= n
    ensures pos + n <= |file| ==> r == file[pos..pos + n]
    ensures pos <= |file| < pos + n ==> r == file[pos..]
  {
    if pos >= |file| then [] else if pos + n <= |file| then file[pos..pos + n] else file[pos..]
  }

  function Zeros(n: nat): (r: Bytes)
    ensures |r| == n
  {
    if n == 0 then [] else [0] + Zeros(n - 1)
  }

  /** The stream after fread of `n` bytes that found `got`. */
  function After(r: Reader, n: nat, got: Bytes): Reader {
    Reader(r.pos + |got|, r.eof || |got| < n, r.size)
  }

  /** The fixed part of a record: either an error, or flags and length. */
  datatype HeadRead = BadHead(reader: Reader) | GoodHead(flags: int, length: nat, reader: Reader)

  function ReadFixed(file: Bytes, r: Reader): HeadRead {
    var header := Available(file, r.pos, 5);
    var r1 := After(r, 5, header);
    if header != HEADER then BadHead(r1)
    else
      var r2 := r1.(size := r1.size + 5);
      var flags := Available(file, r2.pos, 4);
      var r3 := After(r2, 4, flags);
      if |flags| < 4 then BadHead(r3)
      else
        var r4 := r3.(size := r3.size + 4);
        var length := Available(file, r4.pos, 8);
        var r5 := After(r4, 8, length);
        if |length| < 8 then BadHead(r5)
        else GoodHead(DecodeInt(flags), FromLittle(length), r5.(size := r5.size + 8))
  }

  /** `zlmb_dump_read` on an open stream. Short heads are errors; a short
      payload is filled up with zero bytes. */
  function Read(file: Bytes, r: Reader): Got {
    if r.eof then Got(0, None, r)
    else
      match ReadFixed(file, r)
      case BadHead(bad) => Got(-1, None, bad)
      case GoodHead(flags, n, at) =>
        if n == 0 then Got(-1, None, at)
        else
          var data := Available(file, at.pos, n);
          var end := After(at, n, data);
          if data == [] then Got(-1, None, end)
          else Got(flags, Some(data + Zeros(n - |data|)), end.(size := end.size + |data|))
  }

  /** At a record whose payload is stored whole, a read returns flags and
      payload and moves by exactly the record; at a record of length 0 it
      reports an error and moves by exactly the record too. */
  lemma ReadRecord(before: Bytes, rec: Record, rest: Bytes, r: Reader)
    requires 0 !in rec.payload
    requires !r.eof && r.pos == |before|
    ensures var n := |Encode(rec)|;
            Read(before + Encode(rec) + rest, r) ==
            Got(if rec.payload == [] then -1 else rec.flags,
                if rec.payload == [] then None else Some(rec.payload),
                Reader(r.pos + n, false, r.size + n))
  {
    hide Encode, Available, FromLittle, EncodeInt, EncodeSize, DecodeInt;
    ReadHead(before, rec, rest);
    ReadPayload(before, rec, rest);
    IntRoundTrip(rec.flags);
    SizeRoundTrip(|rec.payload|);
    assert rec.payload + Zeros(0) == rec.payload;
  }

  lemma ReadPayload(before: Bytes, rec: Record, rest: Bytes)
    requires 0 !in rec.payload
    ensures Available(before + Encode(rec) + rest, |before| + HEAD, |rec.payload|) == rec.payload
    ensures |Encode(rec)| == HEAD + |rec.payload|
  {
    UpToNulWhole(rec.payload);
    var file, p := before + Encode(rec) + rest, |before| + HEAD;
    assert file == (before + Head(rec)) + (rec.payload + rest);
    assert file[p..p + |rec.payload|] == rec.payload;
  }

  lemma ReadHead(before: Bytes, rec: Record, rest: Bytes)
    ensures var (file, p) := (before + Encode(rec) + rest, |before|);
            && Available(file, p, 5) == HEADER
            && Available(file, p + 5, 4) == EncodeInt(rec.flags)
            && Available(file, p + 9, 8) == EncodeSize(|rec.payload|)
  {
    var file, p := before + Encode(rec) + rest, |before|;
    var tail := UpToNul(rec.payload) + rest;
    assert file == before + (HEADER + EncodeInt(rec.flags) + EncodeSize(|rec.payload|) + tail);
    assert file[p..p + 5] == HEADER;
    assert file[p + 5..p + 9] == EncodeInt(rec.flags);
    assert file[p + 9..p + 17] == EncodeSize(|rec.payload|);
  }

  /** At the end of the file a read reports an error and consumes nothing. */
  lemma ReadAtEnd(file: Bytes, r: Reader)
    requires !r.eof && r.pos == |file|
    ensures Read(file, r) == Got(-1, None, r.(eof := true))
  {
  }

  /** Anything but the header where a record should begin: an error, and nothing
      is consumed. */
  lemma ForeignBytes(file: Bytes, r: Reader)
    requires !r.eof && Available(file, r.pos, 5) != HEADER
    ensures var got := Read(file, r); got.rc == -1 && got.message == None && got.reader.size == r.size
  {
    hide Available;
  }

  /** A record of which the last bytes are missing: the frame is filled up with
      zero bytes to its stored length, and only the bytes that exist are
      consumed. */
  lemma TornRecord(before: Bytes, rec: Record, k: nat, r: Reader)
    requires 0 !in rec.payload && k < |rec.payload|
    requires !r.eof && r.pos == |before|
    ensures HEAD + k <= |Encode(rec)|
    ensures var got := Read(before + Encode(rec)[..HEAD + k], r);
            if k == 0 then got.rc == -1 && got.message == None && got.reader.size == r.size + HEAD
            else got.rc == rec.flags && got.message == Some(rec.payload[..k] + Zeros(|rec.payload| - k)) && got.reader.size == r.size + HEAD + k
  {
    hide Encode, Available, FromLittle, EncodeInt, EncodeSize, DecodeInt;
    TornHead(before, rec, k);
    IntRoundTrip(rec.flags);
    SizeRoundTrip(|rec.payload|);
  }

  lemma TornHead(before: Bytes, rec: Record, k: nat)
    requires 0 !in rec.payload && k < |rec.payload|
    ensures HEAD + k <= |Encode(rec)|
    ensures var (file, p) := (before + Encode(rec)[..HEAD + k], |before|);
            && Available(file, p, 5) == HEADER
            && Available(file, p + 5, 4) == EncodeInt(rec.flags)
            && Available(file, p + 9, 8) == EncodeSize(|rec.payload|)
            && Available(file, p + HEAD, |rec.payload|) == rec.payload[..k]
  {
    UpToNulWhole(rec.payload);
    var file, p := before + Encode(rec)[..HEAD + k], |before|;
    assert Encode(rec)[..HEAD + k] == HEADER + EncodeInt(rec.flags) + EncodeSize(|rec.payload|) + rec.payload[..k];
    assert file[p..p + 5] == HEADER;
    assert file[p + 5..p + 9] == EncodeInt(rec.flags);
    assert file[p + 9..p + 17] == EncodeSize(|rec.payload|);
    assert file[p + 17..p + 17 + k] == rec.payload[..k];
  }

  /** The bytes of one record, spelt out: the frame "A" with more to follow. */
  lemma RecordBytes()
    ensures Encode(Record(2, [65])) == [0, 0x7a, 0x6c, 0x6d, 0x62, 2, 0, 0, 0, 1, 0, 0, 0, 0, 0, 0, 0, 65]
  {
    hide EncodeInt, EncodeSize, UpToNul;
    UpToNulWhole([65]);
    SmallInt(2);
    SmallSize(1);
  }

  lemma SmallInt(n: Byte)
    ensures EncodeInt(n) == [n, 0, 0, 0]
  {
    hide Little;
    SmallNumber(n, 4);
    assert Zeros(3) == [0, 0, 0];
  }

  lemma SmallSize(n: Byte)
    ensures EncodeSize(n) == [n, 0, 0, 0, 0, 0, 0, 0]
  {
    hide Little;
    SmallNumber(n, 8);
    assert Zeros(7) == [0, 0, 0, 0, 0, 0, 0];
  }

  lemma {:induction false} SmallNumber(n: Byte, width: nat)
    requires width > 0
    ensures Little(n, width) == [n] + Zeros(width - 1)
  {
    NoNumber(width - 1);
  }

  lemma {:induction false} NoNumber(width: nat)
    ensures Little(0, width) == Zeros(width)
  {
    if width > 0 {
      NoNumber(width - 1);
    }
  }

  // ----- which frames survive -----

  predicate Replayable(payload: Bytes) {
    payload != [] && 0 !in payload
  }

  /** A frame comes back from the file, whatever is written after it, exactly
      when it is not empty and has no NUL byte. */
  lemma RoundTripExactly(rec: Record)
    ensures (forall rest: Bytes :: Read(Encode(rec) + rest, Reader(0, false, 0)).message == Some(rec.payload)
                                   && Read(Encode(rec) + rest, Reader(0, false, 0)).rc == rec.flags)
            <==> Replayable(rec.payload)
  {
    hide Read, Encode;
    var r := Reader(0, false, 0);
    if Replayable(rec.payload) {
      forall rest: Bytes
        ensures Read(Encode(rec) + rest, r).message == Some(rec.payload) && Read(Encode(rec) + rest, r).rc == rec.flags
      {
        ReadRecord([], rec, rest, r);
        assert [] + Encode(rec) + rest == Encode(rec) + rest;
      }
    } else {
      LostPayload(rec);
    }
  }

  lemma LostPayload(rec: Record)
    requires !Replayable(rec.payload)
    ensures Read(Encode(rec) + [1], Reader(0, false, 0)).message != Some(rec.payload)
  {
    hide Head, UpToNul, Available, EncodeInt, EncodeSize, FromLittle;
    ReadHead([], rec, [1]);
    assert [] + Encode(rec) + [1] == Encode(rec) + [1];
    SizeRoundTrip(|rec.payload|);
    if rec.payload != [] {
      WrongByte(rec);
    }
  }

  lemma WrongByte(rec: Record)
    requires 0 in rec.payload
    ensures var data := Available(Encode(rec) + [1], HEAD, |rec.payload|);
            exists k :: 0 <= k < |data| && data[k] != rec.payload[k]
  {
    var printed := UpToNul(rec.payload);
    UpToNulCuts(rec.payload);
    var file := Encode(rec) + [1];
    assert file[HEAD..] == printed + [1];
    assert Available(file, HEAD, |rec.payload|)[|printed|] == 1;
  }

  // ----- reading a whole file back -----

  /** A message frame with the flags it was stored under. */
  datatype Flagged = Flagged(flags: int, frame: Bytes)

  /** The records that reads return one after the other, until one of them
      fails or reaches the end. */
  function ReadAll(file: Bytes, r: Reader): seq<Flagged>
    decreases |file| - r.pos
  {
    var got := Read(file, r);
    if got.message.None? then [] else [Flagged(got.rc, got.message.value)] + ReadAll(file, got.reader)
  }

  function Expected(rs: seq<Record>): seq<Flagged> {
    if rs == [] then [] else [Flagged(rs[0].flags, rs[0].payload)] + Expected(rs[1..])
  }

  /** The stream at the first record after `done`. */
  function At(done: seq<Record>): Reader {
    Reader(|EncodeAll(done)|, false, |EncodeAll(done)|)
  }

  lemma ReadNext(done: seq<Record>, rec: Record, rs: seq<Record>)
    requires 0 !in rec.payload
    ensures Read(EncodeAll(done + [rec] + rs), At(done)) ==
            if rec.payload == [] then Got(-1, None, At(done + [rec]))
            else Got(rec.flags, Some(rec.payload), At(done + [rec]))
  {
    EncodeAllAround(done, rec, rs);
    ReadRecord(EncodeAll(done), rec, EncodeAll(rs), At(done));
  }

  /** Reading back what was written: every record, in order. */
  lemma {:induction false} ReadBack(done: seq<Record>, rs: seq<Record>, file: Bytes)
    requires forall k :: 0 <= k < |rs| ==> Replayable(rs[k].payload)
    requires file == EncodeAll(done + rs)
    ensures ReadAll(file, At(done)) == Expected(rs)
    decreases rs
  {
    if rs == [] {
      assert done + rs == done;
      ReadAtEnd(file, At(done));
    } else {
      assert done + [rs[0]] + rs[1..] == done + rs;
      ReadNext(done, rs[0], rs[1..]);
      ReadBack(done + [rs[0]], rs[1..], file);
    }
  }

  /** The reader after `k` reads. */
  function ReaderAfter(file: Bytes, r: Reader, k: nat): Reader
    decreases k
  {
    if k == 0 then r else Read(file, ReaderAfter(file, r, k - 1)).reader
  }

  lemma ReadAt(rs: seq<Record>, k: nat)
    requires k < |rs| && 0 !in rs[k].payload
    ensures Read(EncodeAll(rs), At(rs[..k])).reader == At(rs[..k + 1])
  {
    Around(rs, k);
    ReadNext(rs[..k], rs[k], rs[k + 1..]);
  }

  /** After `k` reads the consumed size is the offset of record k + 1, also when
      some of the records are rejected because they are empty. */
  lemma {:induction false} SizeIsOffset(rs: seq<Record>, k: nat, file: Bytes)
    requires file == EncodeAll(rs)
    requires k <= |rs| && forall i :: 0 <= i < k ==> 0 !in rs[i].payload
    ensures ReaderAfter(file, Reader(0, false, 0), k) == At(rs[..k])
  {
    hide Read, EncodeAll;
    NothingEncoded();
    if k > 0 {
      SizeIsOffset(rs, k - 1, file);
      ReadAt(rs, k - 1);
    }
  }

  lemma NothingEncoded()
    ensures EncodeAll([]) == []
  {
  }

  lemma EncodeAllAround(done: seq<Record>, rec: Record, rs: seq<Record>)
    ensures EncodeAll(done + [rec] + rs) == EncodeAll(done) + Encode(rec) + EncodeAll(rs)
    ensures |EncodeAll(done + [rec])| == |EncodeAll(done)| + |Encode(rec)|
  {
    EncodeAllSnoc(done, rec);
    EncodeAllAppend(done + [rec], rs);
  }

  /** The four pieces of one write, behind the records written before. */
  lemma AppendRecord(base: Bytes, rs: seq<Record>, rec: Record)
    ensures base + EncodeAll(rs) + HEADER + EncodeInt(rec.flags) + EncodeSize(|rec.payload|) + UpToNul(rec.payload)
            == base + EncodeAll(rs + [rec])
  {
    EncodeAllSnoc(rs, rec);
    Pieces(base + EncodeAll(rs), HEADER, EncodeInt(rec.flags), EncodeSize(|rec.payload|), UpToNul(rec.payload));
    Associative(base, EncodeAll(rs), Encode(rec));
  }

  lemma Pieces<T>(a: seq<T>, b: seq<T>, c: seq<T>, d: seq<T>, e: seq<T>)
    ensures a + b + c + d + e == a + (b + c + d + e)
  {
  }

  lemma EncodeAllSnoc(rs: seq<Record>, rec: Record)
    ensures EncodeAll(rs + [rec]) == EncodeAll(rs) + Encode(rec)
  {
    EncodeAllAppend(rs, [rec]);
    assert [rec][1..] == [];
    assert Encode(rec) + [] == Encode(rec);
  }
}
