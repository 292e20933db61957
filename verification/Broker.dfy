/** The forwarding loops of zlmb-server as one state machine (src/app_server.c).
    The seven loops differ in a key frame sent first, a first frame dropped, the
    way frames are sent, whether connections are counted, and a dump; `Config`
    has these differences. Each step of the loop is atomic, and messages,
    connection events and the interrupt may arrive between any two of them. */
module Broker {
  import opened Common
  import opened Wire
  import opened Send

  datatype Config = Config(
    /** Bytes of the key frame, if the mode sends one. */
    key: Option<Bytes>,
    /** The first frame of every message is not passed on. */
    dropFirst: bool,
    /** How frames are sent while there is a connection. */
    live: SendType,
    /** Without a connection, frames are dumped. */
    watched: bool,
    hasDump: bool,
    codec: Option<Codec>,
    /** The monitored sockets. */
    endpoints: nat,
    /** A refresh connects and disconnects endpoints of its own; otherwise it
        only counts the peers of one bound socket. */
    dials: bool)

  // ----- the modes -----

  /** The send type of the client side, and that of the subscribe side, in a
      build with or without snappy. */
  function Compressing(codec: Option<Codec>): SendType { if codec.Some? then Compress else Raw }

  function Uncompressing(codec: Option<Codec>): SendType { if codec.Some? then Uncompress else Raw }

  /** A key as it goes over the wire. */
  function KeyBytes(codec: Option<Codec>, key: Bytes): Bytes {
    match codec
    case None => key
    case Some(c) => match c.compress(key) case None => key case Some(out) => out
  }

  function PublishKey(codec: Option<Codec>, key: Bytes, sendkey: bool): Option<Bytes> {
    if sendkey then Some(KeyBytes(codec, key)) else None
  }

  /** `_client_backend`. */
  function Client(codec: Option<Codec>, hasDump: bool, endpoints: nat): Config {
    Config(None, false, Compressing(codec), true, hasDump, codec, endpoints, true)
  }

  /** `_server_publish`: plain zmq_sendmsg, no dump. */
  function Publish(codec: Option<Codec>, key: Bytes, sendkey: bool): Config {
    Config(PublishKey(codec, key, sendkey), false, Raw, false, false, codec, 0, false)
  }

  /** `_server_subscribe`. */
  function Subscribe(codec: Option<Codec>, dropkey: bool, hasDump: bool): Config {
    Config(None, dropkey, Uncompressing(codec), true, hasDump, codec, 1, false)
  }

  /** `_server_client_publish`. */
  function ClientPublish(codec: Option<Codec>, key: Bytes, sendkey: bool): Config {
    Config(PublishKey(codec, key, sendkey), false, Compressing(codec), false, false, codec, 0, false)
  }

  /** `_server_publish_subscribe`. */
  function PublishSubscribe(codec: Option<Codec>, hasDump: bool): Config {
    Config(None, false, Uncompressing(codec), true, hasDump, codec, 1, false)
  }

  /** The client half of `_server_client_subscribe`, up to the inproc socket. */
  function Relay(codec: Option<Codec>): Config {
    Config(None, false, Raw, false, false, codec, 0, false)
  }

  /** `_server_stand_alone`. */
  function StandAlone(codec: Option<Codec>, hasDump: bool): Config {
    Config(None, false, Raw, true, hasDump, codec, 1, false)
  }

  // ----- state and events -----

  /** The event word of a monitored socket: CONNECTED or ACCEPTED, and
      DISCONNECTED. */
  datatype Word = Word(up: bool, down: bool)

  const CLEAR := Word(false, false)

  /** Event words, the connections that really exist on each socket, and the
      count that the loop keeps. */
  datatype Watch = Watch(words: seq<Word>, live: seq<nat>, connect: int)

  /** Where the loop is: before zmq_poll; before receiving a frame, with the
      send type chosen and the frames of the message received so far; at the
      tests of event word `i`, and inside the critical sections that follow. */
  datatype PC = Poll | Receive(kind: SendType, frames: nat) | TestUp(i: nat) | LockUp(i: nat) | TestDown(i: nat) | LockDown(i: nat) | Stopped

  /** `arrived` is every message ever queued; `cur` the frames still to come of a
      message whose first frames were received. */
  datatype State = State(
    arrived: seq<Message>,
    inbox: seq<Message>,
    cur: Message,
    link: Link,
    watch: Watch,
    pc: PC,
    interrupted: bool)

  /** The outcome of whatever library call the loop makes next. */
  datatype Outcome = Outcome(pollFails: bool, recvFails: bool, keySent: bool, calls: Calls, endpointCall: bool)

  datatype Event = Arrive(m: Message) | Raise(i: nat, up: bool) | Interrupt | Tick(o: Outcome)

  function Init(cfg: Config): State {
    State([], [], [], EMPTY,
          Watch(seq(cfg.endpoints, _ => CLEAR), seq(cfg.endpoints, _ => 0), 0), Poll, false)
  }

  // ----- steps -----

  /** One frame of a message, the `index`-th: the key first, if it is due, then
      the frame, unless it is dropped. */
  function ForwardFrame(cfg: Config, kind: SendType, index: nat, p: Part, o: Outcome, l: Link): Link {
    var l1 := if cfg.key.Some? && index == 0 && o.keySent then l.(wire := l.wire + [Part(cfg.key.value, true)]) else l;
    if cfg.dropFirst && index == 0 then l1 else SendMsg(cfg.codec, cfg.hasDump, kind, p, o.calls, l1)
  }

  /** The send type for the next message. */
  function Choose(cfg: Config, connect: int): SendType {
    if !cfg.watched || connect > 0 then cfg.live else ToDump
  }

  predicate Readable(s: State) {
    s.cur != [] || s.inbox != []
  }

  /** A frame is received and forwarded. */
  function ReceiveFrame(cfg: Config, s: State, o: Outcome): State
    requires s.pc.Receive? && Readable(s)
  {
    var (cur, inbox) := if s.cur != [] then (s.cur, s.inbox) else (s.inbox[0], s.inbox[1..]);
    if cur == [] then s
    else
      var p := Part(cur[0], |cur| > 1);
      s.(cur := cur[1..],
         inbox := inbox,
         link := ForwardFrame(cfg, s.pc.kind, s.pc.frames, p, o, s.link),
         pc := if p.more then Receive(s.pc.kind, s.pc.frames + 1) else TestUp(0))
  }

  /** The critical section after a CONNECTED or ACCEPTED bit was seen. */
  function CountUp(cfg: Config, w: Watch, i: nat, ok: bool): Watch {
    if i < |w.words| && (ok || !cfg.dials) then w.(connect := w.connect + 1, words := w.words[i := CLEAR])
    else w
  }

  /** The critical section after a DISCONNECTED bit was seen. */
  function CountDown(cfg: Config, w: Watch, i: nat, ok: bool): Watch {
    if i < |w.words| && (ok || !cfg.dials) then w.(connect := w.connect - 1, words := w.words[i := CLEAR])
    else w
  }

  /** The loop's next step. */
  function Step(cfg: Config, s: State, o: Outcome): State {
    match s.pc
    case Poll =>
      if s.interrupted || o.pollFails then s.(pc := Stopped)
      else if Readable(s) then s.(pc := Receive(Choose(cfg, s.watch.connect), 0))
      else s.(pc := TestUp(0))
    case Receive(_, _) =>
      if s.interrupted || o.recvFails || !Readable(s) then s.(pc := TestUp(0))
      else ReceiveFrame(cfg, s, o)
    case TestUp(i) =>
      if i >= |s.watch.words| then s.(pc := Poll)
      else if s.watch.words[i].up then s.(pc := LockUp(i))
      else s.(pc := TestDown(i))
    case LockUp(i) => s.(watch := CountUp(cfg, s.watch, i, o.endpointCall), pc := TestDown(i))
    case TestDown(i) =>
      if i < |s.watch.words| && s.watch.words[i].down then s.(pc := LockDown(i))
      else s.(pc := TestUp(i + 1))
    case LockDown(i) => s.(watch := CountDown(cfg, s.watch, i, o.endpointCall), pc := TestUp(i + 1))
    case Stopped => s
  }

  /** A connection comes or goes, and the monitor thread marks it. An endpoint of
      the client has at most one connection. */
  function RaiseEvent(cfg: Config, w: Watch, i: nat, up: bool): Watch {
    if i >= |w.words| || i >= |w.live| then w
    else if up then
      if cfg.dials && w.live[i] > 0 then w
      else w.(live := w.live[i := w.live[i] + 1], words := w.words[i := w.words[i].(up := true)])
    else
      if w.live[i] == 0 then w
      else w.(live := w.live[i := w.live[i] - 1], words := w.words[i := w.words[i].(down := true)])
  }

  /** Any event. Events that cannot happen leave the state as it is. */
  function Next(cfg: Config, s: State, e: Event): State {
    match e
    case Arrive(m) => if m == [] then s else s.(arrived := s.arrived + [m], inbox := s.inbox + [m])
    case Raise(i, up) => s.(watch := RaiseEvent(cfg, s.watch, i, up))
    case Interrupt => s.(interrupted := true)
    case Tick(o) => Step(cfg, s, o)
  }

  /** The state after a run: any sequence of events. */
  function Exec(cfg: Config, es: seq<Event>): State {
    if es == [] then Init(cfg) else Next(cfg, Exec(cfg, es[..|es| - 1]), es[|es| - 1])
  }

  lemma ExecSnoc(cfg: Config, es: seq<Event>, e: Event)
    ensures Exec(cfg, es + [e]) == Next(cfg, Exec(cfg, es), e)
  {
    hide Next;
    assert (es + [e])[..|es|] == es;
  }

  // ----- every frame is accounted for -----

  /** One received frame: its place in the message, the send type, the outcome of
      the calls made for it, and whether the dump was open; then whether a key
      went out before it, and its fate. */
  datatype Entry = Entry(part: Part, index: nat, kind: SendType, o: Outcome, open: bool, key: Option<Bytes>, fate: Fate)

  /** The fate that the mode and the calls demand: the first frame of a message
      is dropped exactly if the mode drops it, and preceded by the key exactly if
      the mode has one that could be sent; a frame is sent coded, else plain,
      else dumped, and lost only if nothing of this can be done. */
  predicate Legitimate(cfg: Config, e: Entry) {
    && (e.kind == cfg.live || e.kind == ToDump)
    && e.key == (if cfg.key.Some? && e.index == 0 && e.o.keySent then cfg.key else None)
    && (e.fate.Dropped? <==> cfg.dropFirst && e.index == 0)
    && (!e.fate.Dropped? ==>
          var (coded, plain, dumped) :=
            (CodedSent(cfg.codec, e.kind, e.part.frame, e.o.calls), PlainSent(cfg.codec, e.kind, e.o.calls), DumpTakes(cfg.hasDump, e.open, e.o.calls));
          && (e.fate.OnWire? <==> coded || plain)
          && (e.fate.Dumped? <==> !coded && !plain && dumped)
          && (e.fate.Lost? <==> !coded && !plain && !dumped)
          && (coded && e.kind == Compress ==> cfg.codec.value.compress(e.part.frame) == Some(e.fate.bytes))
          && (coded && e.kind == Uncompress ==> cfg.codec.value.uncompress(e.part.frame) == Some(e.fate.bytes))
          && (!coded && plain ==> e.fate.bytes == e.part.frame))
  }

  function TakenOf(es: seq<Entry>): seq<Part> {
    if es == [] then [] else TakenOf(es[..|es| - 1]) + [es[|es| - 1].part]
  }

  function WireOf(es: seq<Entry>): seq<Part> {
    if es == [] then [] else
      var e := es[|es| - 1];
      WireOf(es[..|es| - 1])
      + (if e.key.Some? then [Part(e.key.value, true)] else [])
      + (if e.fate.OnWire? then [Part(e.fate.bytes, e.part.more)] else [])
  }

  function WithFate(es: seq<Entry>, fate: Fate): seq<Part> {
    if es == [] then [] else
      WithFate(es[..|es| - 1], fate) + (if es[|es| - 1].fate == fate then [es[|es| - 1].part] else [])
  }

  /** `es` gives every frame taken from the queue exactly one fate, and wire,
      dump and losses are exactly the frames with that fate, each in order. */
  ghost predicate Accounts(cfg: Config, s: State, es: seq<Entry>) {
    && PartsAll(s.arrived) == TakenOf(es) + Parts(s.cur) + PartsAll(s.inbox)
    && s.link.wire == WireOf(es)
    && s.link.dump == WithFate(es, Dumped)
    && s.link.lost == WithFate(es, Lost)
    && (forall i :: 0 <= i < |es| ==> Legitimate(cfg, es[i]))
  }

  ghost predicate Queued(cfg: Config, s: State) {
    && (forall i :: 0 <= i < |s.inbox| ==> s.inbox[i] != [])
    && (s.pc.Receive? ==> s.pc.kind == cfg.live || s.pc.kind == ToDump)
  }

  lemma NextQueued(cfg: Config, s: State, e: Event)
    requires Queued(cfg, s)
    ensures Queued(cfg, Next(cfg, s, e))
  {
  }

  function EntryFor(cfg: Config, s: State, p: Part, o: Outcome): Entry
    requires s.pc.Receive?
  {
    var first := s.pc.frames == 0;
    Entry(p, s.pc.frames, s.pc.kind, o, s.link.handle,
          if cfg.key.Some? && first && o.keySent then cfg.key else None,
          if cfg.dropFirst && first then Dropped
          else FateOf(cfg.codec, cfg.hasDump, s.pc.kind, p.frame, s.link.handle, o.calls))
  }

  lemma EntrySnoc(es: seq<Entry>, e: Entry)
    ensures TakenOf(es + [e]) == TakenOf(es) + [e.part]
    ensures WireOf(es + [e]) == WireOf(es) + (if e.key.Some? then [Part(e.key.value, true)] else [])
                                + (if e.fate.OnWire? then [Part(e.fate.bytes, e.part.more)] else [])
    ensures WithFate(es + [e], Dumped) == WithFate(es, Dumped) + (if e.fate == Dumped then [e.part] else [])
    ensures WithFate(es + [e], Lost) == WithFate(es, Lost) + (if e.fate == Lost then [e.part] else [])
  {
    assert (es + [e])[..|es|] == es;
  }

  /** The frames of the queue lose their first one when it is taken. */
  lemma TakeFrame(s: State, taken: seq<Part>)
    requires Readable(s) && (forall i :: 0 <= i < |s.inbox| ==> s.inbox[i] != [])
    requires PartsAll(s.arrived) == taken + Parts(s.cur) + PartsAll(s.inbox)
    ensures var (cur, inbox) := if s.cur != [] then (s.cur, s.inbox) else (s.inbox[0], s.inbox[1..]);
            PartsAll(s.arrived) == taken + [Part(cur[0], |cur| > 1)] + Parts(cur[1..]) + PartsAll(inbox)
  {
    hide PartsAll, Parts;
    if s.cur != [] {
      PartsHead(s.cur);
    } else {
      PartsHead(s.inbox[0]);
      assert [s.inbox[0]] + s.inbox[1..] == s.inbox;
      FirstMessage(s.inbox[0], s.inbox[1..]);
      NoParts();
    }
  }

  lemma ForwardAccounts(cfg: Config, s: State, p: Part, o: Outcome, es: seq<Entry>)
    requires s.pc.Receive? && (s.pc.kind == cfg.live || s.pc.kind == ToDump)
    requires s.link.wire == WireOf(es) && s.link.dump == WithFate(es, Dumped) && s.link.lost == WithFate(es, Lost)
    ensures var (l, es') := (ForwardFrame(cfg, s.pc.kind, s.pc.frames, p, o, s.link), es + [EntryFor(cfg, s, p, o)]);
            l.wire == WireOf(es') && l.dump == WithFate(es', Dumped) && l.lost == WithFate(es', Lost)
    ensures Legitimate(cfg, EntryFor(cfg, s, p, o))
  {
    hide WireOf, WithFate, TakenOf, FateOf, Legitimate;
    EntrySnoc(es, EntryFor(cfg, s, p, o));
    EntryIsLegitimate(cfg, s, p, o);
  }

  lemma EntryIsLegitimate(cfg: Config, s: State, p: Part, o: Outcome)
    requires s.pc.Receive? && (s.pc.kind == cfg.live || s.pc.kind == ToDump)
    ensures Legitimate(cfg, EntryFor(cfg, s, p, o))
  {
  }

  /** The accounts after one more event. */
  lemma NextAccounts(cfg: Config, s: State, e: Event, es: seq<Entry>) returns (es': seq<Entry>)
    requires Queued(cfg, s) && Accounts(cfg, s, es)
    ensures Accounts(cfg, Next(cfg, s, e), es')
  {
    hide PartsAll, Parts, WireOf, WithFate, TakenOf, ForwardFrame, RaiseEvent, CountUp, CountDown;
    es' := es;
    match e
    case Arrive(m) =>
      if m != [] {
        PartsAllSnoc(s.arrived, m);
        PartsAllSnoc(s.inbox, m);
      }
    case Raise(_, _) =>
    case Interrupt =>
    case Tick(o) =>
      if s.pc.Receive? && !s.interrupted && !o.recvFails && Readable(s) {
        es' := ReceiveAccounts(cfg, s, o, es);
      }
  }

  lemma ReceiveAccounts(cfg: Config, s: State, o: Outcome, es: seq<Entry>) returns (es': seq<Entry>)
    requires s.pc.Receive? && Readable(s) && Queued(cfg, s) && Accounts(cfg, s, es)
    ensures Accounts(cfg, ReceiveFrame(cfg, s, o), es')
  {
    hide PartsAll, Parts, WireOf, WithFate, TakenOf, ForwardFrame;
    var cur := if s.cur != [] then s.cur else s.inbox[0];
    var p := Part(cur[0], |cur| > 1);
    var entry := EntryFor(cfg, s, p, o);
    es' := es + [entry];
    TakeFrame(s, TakenOf(es));
    EntrySnoc(es, entry);
    ForwardAccounts(cfg, s, p, o, es);
  }

  /** Conservation, in every run: the frames that were queued are those taken so
      far and those still queued, and every frame taken is on the wire, in the
      dump, lost or dropped by the mode. */
  lemma {:induction false} Conservation(cfg: Config, es: seq<Event>) returns (entries: seq<Entry>)
    ensures Queued(cfg, Exec(cfg, es))
    ensures Accounts(cfg, Exec(cfg, es), entries)
  {
    if es == [] {
      entries := [];
      NoParts();
    } else {
      hide Accounts, Queued, Next;
      var n := |es| - 1;
      var before := Conservation(cfg, es[..n]);
      NextQueued(cfg, Exec(cfg, es[..n]), es[n]);
      entries := NextAccounts(cfg, Exec(cfg, es[..n]), es[n], before);
    }
  }

  /** Every library call of the dump succeeds. */
  predicate FilesWork(es: seq<Event>) {
    forall i :: 0 <= i < |es| ==> es[i].Tick? ==> es[i].o.calls.file == Dump.FileCalls(true, true)
  }

  lemma NextLosesNothing(cfg: Config, s: State, e: Event)
    requires cfg.hasDump && (e.Tick? ==> e.o.calls.file == Dump.FileCalls(true, true))
    ensures Next(cfg, s, e).link.lost == s.link.lost
  {
    hide RaiseEvent, CountUp, CountDown;
  }

  /** With a dump that works nothing is lost, in any run, whatever sends fail. */
  lemma {:induction false} NothingLost(cfg: Config, es: seq<Event>)
    requires cfg.hasDump && FilesWork(es)
    ensures Exec(cfg, es).link.lost == []
  {
    if es != [] {
      hide Next;
      NothingLost(cfg, es[..|es| - 1]);
      NextLosesNothing(cfg, Exec(cfg, es[..|es| - 1]), es[|es| - 1]);
    }
  }

  lemma {:induction false} CountFates(cfg: Config, es: seq<Entry>)
    requires forall i :: 0 <= i < |es| ==> Legitimate(cfg, es[i]) && es[i].key.None? && !es[i].fate.Dropped?
    ensures |WireOf(es)| + |WithFate(es, Dumped)| + |WithFate(es, Lost)| == |TakenOf(es)| == |es|
  {
    if es != [] {
      CountFates(cfg, es[..|es| - 1]);
    }
  }

  /** For the client: as many frames on the socket, in the dump and lost as were
      taken from the queue. */
  lemma ClientCounts(codec: Option<Codec>, hasDump: bool, endpoints: nat, es: seq<Event>)
    ensures var s := Exec(Client(codec, hasDump, endpoints), es);
            |s.link.wire| + |s.link.dump| + |s.link.lost| + |Parts(s.cur)| + |PartsAll(s.inbox)| == |PartsAll(s.arrived)|
  {
    hide WireOf, WithFate, TakenOf, PartsAll, Parts, Exec;
    var cfg := Client(codec, hasDump, endpoints);
    var entries := Conservation(cfg, es);
    forall i | 0 <= i < |entries|
      ensures Legitimate(cfg, entries[i]) && entries[i].key.None? && !entries[i].fate.Dropped?
    {
      assert Legitimate(cfg, entries[i]);
    }
    CountFates(cfg, entries);
  }
}
