/** The dump object: a file and the stream that the object may hold open on it
    (src/dump.c), written by one process at a time and flushed by every write. */
module Dump {
  import opened Common
  import opened DumpFormat

  datatype Stream = Closed | Appending | Reading(pos: nat, eof: bool)

  /** Whether fopen and flock succeed, should they be called. */
  datatype FileCalls = FileCalls(fopen: bool, flock: bool)

  const BUFSIZ: nat := 8192

  class DumpFile {
    /** The file; `None` when it does not exist. */
    var disk: Option<Bytes>
    var stream: Stream
    var size: nat
    /** The records written since the object was made, after `base`. */
    ghost var base: Bytes
    ghost var log: seq<Record>

    ghost predicate Valid()
      reads this
    {
      && (stream != Closed ==> disk.Some?)
      && (stream.Reading? ==> stream.pos <= |disk.value|)
    }

    function Content(): Bytes
      reads this
    {
      if disk.Some? then disk.value else []
    }

    /** The file is what it was, followed by the records written. */
    ghost predicate Logged()
      reads this
    {
      Content() == base + EncodeAll(log)
    }

    constructor (disk: Option<Bytes>)
      ensures Valid() && Logged() && log == [] && stream == Closed && size == 0 && this.disk == disk
    {
      this.disk := disk;
      stream, size := Closed, 0;
      base, log := if disk.Some? then disk.value else [], [];
      new;
      assert base + EncodeAll(log) == base;
    }

    /** `zlmb_dump_write` for the binary type. */
    method Write(frame: Frame, flags: Flags, calls: FileCalls) returns (rc: int)
      requires Valid() && Logged() && !stream.Reading?
      modifies this
      ensures Valid() && Logged() && size == old(size) && base == old(base)
      ensures rc == if (old(stream) == Appending || calls.fopen) && calls.flock then 0 else -1
      ensures log == if rc == 0 then old(log) + [Record(flags, frame)] else old(log)
      ensures stream == if flags != 0 && (old(stream) == Appending || calls.fopen) then Appending else Closed
    {
      var closed := flags == 0;
      if stream == Closed {
        if !calls.fopen { return -1; }
        stream := Appending;
        if disk.None? { disk := Some([]); }
      }
      if !calls.flock {
        if closed { stream := Closed; }
        return -1;
      }
      AppendRecord(base, log, Record(flags, frame));
      disk := Some(disk.value + HEADER);
      disk := Some(disk.value + EncodeInt(flags));
      disk := Some(disk.value + EncodeSize(|frame|));
      disk := Some(disk.value + UpToNul(frame));
      log := log + [Record(flags, frame)];
      if closed { stream := Closed; }
      return 0;
    }

    method Close()
      requires Valid()
      modifies this
      ensures Valid() && stream == Closed
      ensures disk == old(disk) && size == old(size) && base == old(base) && log == old(log)
    {
      stream := Closed;
    }

    method ReadOpen() returns (rc: int)
      requires stream == Closed && Valid()
      modifies this
      ensures Valid() && disk == old(disk) && size == old(size)
      ensures rc == if disk.None? then -1 else 0
      ensures stream == if disk.None? then Closed else Reading(0, false)
    {
      if disk.None? { return -1; }
      stream := Reading(0, false);
      return 0;
    }

    /** fread of `n` bytes from the open stream. */
    method Fread(n: nat) returns (got: Bytes)
      requires Valid() && stream.Reading?
      modifies this
      ensures Valid() && disk == old(disk) && size == old(size)
      ensures got == Available(disk.value, old(stream).pos, n)
      ensures stream == Reading(old(stream).pos + |got|, old(stream).eof || |got| < n)
    {
      got := Available(disk.value, stream.pos, n);
      stream := Reading(stream.pos + |got|, stream.eof || |got| < n);
    }

    ghost function View(): Reader
      reads this
      requires stream.Reading?
    {
      Reader(stream.pos, stream.eof, size)
    }

    /** The reads of header, flags and length; `None` stands for the error return. */
    method ReadHead() returns (head: Option<(int, nat)>)
      requires Valid() && stream.Reading?
      modifies this
      ensures Valid() && disk == old(disk) && stream.Reading?
      ensures match head
              case None => ReadFixed(disk.value, old(View())) == BadHead(View())
              case Some(h) => ReadFixed(disk.value, old(View())) == GoodHead(h.0, h.1, View())
    {
      hide FromLittle, DecodeInt, Available;
      var header := Fread(5);
      if header != HEADER { return None; }
      size := size + 5;
      var flags := Fread(4);
      if |flags| < 4 { return None; }
      size := size + 4;
      var length := Fread(8);
      if |length| < 8 { return None; }
      size := size + 8;
      return Some((DecodeInt(flags), FromLittle(length)));
    }

    /** `zlmb_dump_read` on a stream that is open. */
    method ReadStream() returns (rc: int, message: Option<Bytes>)
      requires Valid() && stream.Reading?
      modifies this
      ensures Valid() && disk == old(disk) && stream.Reading?
      ensures Got(rc, message, View()) == Read(disk.value, old(View()))
    {
      if stream.eof { return 0, None; }
      var head := ReadHead();
      if head.None? { return -1, None; }
      var (more, n) := head.value;
      if n == 0 { return -1, None; }
      var data := Fread(n);
      if data == [] { return -1, None; }
      size := size + |data|;
      return more, Some(data + Zeros(n - |data|));
    }

    /** `zlmb_dump_read`: a closed file is opened for this one read, and stays
        open when the read fails. */
    method ReadMessage() returns (rc: int, message: Option<Bytes>)
      requires Valid() && !stream.Appending?
      modifies this
      ensures Valid() && disk == old(disk) && !stream.Appending?
      ensures old(stream) == Closed && disk.None? ==> rc == -1 && message == None && stream == Closed && size == old(size)
      ensures disk.Some? ==>
                var start := if old(stream) == Closed then Reader(0, false, old(size)) else old(View());
                var got := Read(disk.value, start);
                && rc == got.rc && message == got.message && size == got.reader.size
                && stream == if old(stream) == Closed && message.Some? then Closed
                             else Reading(got.reader.pos, got.reader.eof)
    {
      var closed := false;
      if stream == Closed {
        if disk.None? { return -1, None; }
        stream := Reading(0, false);
        closed := true;
      }
      rc, message := ReadStream();
      if closed && message.Some? { stream := Closed; }
    }

    /** `zlmb_dump_truncate`: what lies behind the consumed size is copied to a
        new file, which then takes the name; `calls` says whether every call on
        the way succeeds. */
    method Truncate(calls: bool) returns (rc: int)
      requires Valid() && stream == Closed
      modifies this
      ensures Valid() && stream == Closed && size == old(size)
      ensures rc == if old(disk).Some? && calls then 0 else -1
      ensures disk == if rc == -1 then old(disk)
                      else if size <= |old(disk).value| then Some(old(disk).value[size..])
                      else Some([])
    {
      if disk.None? || !calls { return -1; }
      var file := disk.value;
      var tmp: Bytes := [];
      var pos := size;
      while true
        invariant size <= pos && (pos <= |file| || pos == size)
        invariant tmp == if pos <= |file| then file[size..pos] else []
        decreases |file| - pos
      {
        var buf := Available(file, pos, BUFSIZ);
        if buf == [] {
          assert pos >= |file|;
          break;
        }
        tmp := tmp + buf;
        pos := pos + |buf|;
      }
      assert tmp == if size <= |file| then file[size..] else [];
      disk := Some(tmp);
      return 0;
    }
  }
}
