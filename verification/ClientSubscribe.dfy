/** client-subscribe (src/app_server.c: `_server_client_subscribe`): one thread
    serves two streams in one loop. Every run of it is a run of the client relay
    and a run of subscribe, neither of which notices the other. */
module ClientSubscribe {
  import opened Common
  import opened Wire
  import opened Send
  import opened Broker
  import opened Routes
  import opened Integrity

  /** One direction of traffic. */
  datatype Stream = Stream(arrived: seq<Message>, inbox: seq<Message>, cur: Message, link: Link)

  /** Where the loop is. A poll looks at both sockets, so whether the subscribe
      socket was readable is remembered during the client part. */
  datatype Phase =
    | Polling
    | ClientPart(frames: nat, ready: bool)
    | SubTest(ready: bool)
    | SubPart(kind: SendType, frames: nat)
    | TestAccepted | LockAccepted | TestGone | LockGone
    | Ended

  datatype Both = Both(client: Stream, sub: Stream, watch: Watch, phase: Phase, interrupted: bool)

  datatype BothEvent = ToClient(m: Message) | ToSub(m: Message) | Raised(up: bool) | Interrupted | Ticked(o: Outcome)

  const NOTHING := Stream([], [], [], EMPTY)

  function InitBoth(): Both {
    Both(NOTHING, NOTHING, Watch([CLEAR], [0], 0), Polling, false)
  }

  predicate Waiting(s: Stream) {
    s.cur != [] || s.inbox != []
  }

  function Queue(s: Stream, m: Message): Stream {
    if m == [] then s else s.(arrived := s.arrived + [m], inbox := s.inbox + [m])
  }

  /** The frame that is received next, and the stream without it. */
  function NextFrame(s: Stream): (r: (Part, Stream))
    requires Waiting(s) && (s.cur == [] ==> s.inbox[0] != [])
  {
    if s.cur != [] then (Part(s.cur[0], |s.cur| > 1), s.(cur := s.cur[1..]))
    else (Part(s.inbox[0][0], |s.inbox[0]| > 1), s.(cur := s.inbox[0][1..], inbox := s.inbox[1..]))
  }

  /** A client frame goes to the backend as it is; if that fails it is gone. */
  function RelayFrame(b: Both, p: Part, o: Outcome): Link {
    if o.calls.raw then b.client.link.(wire := b.client.link.wire + [p])
    else b.client.link.(lost := b.client.link.lost + [p])
  }

  /** A subscribe frame, unless it is the first and the key is dropped. */
  function PassFrame(codec: Option<Codec>, dropkey: bool, b: Both, kind: SendType, frames: nat, p: Part, o: Outcome): Link {
    if dropkey && frames == 0 then b.sub.link else SendMsg(codec, true, kind, p, o.calls, b.sub.link)
  }

  function StepBoth(codec: Option<Codec>, dropkey: bool, b: Both, o: Outcome): Both {
    match b.phase
    case Polling =>
      if b.interrupted || o.pollFails then b.(phase := Ended)
      else if Waiting(b.client) then b.(phase := ClientPart(0, Waiting(b.sub)))
      else b.(phase := SubTest(Waiting(b.sub)))
    case ClientPart(frames, ready) =>
      if b.interrupted || o.recvFails || !Waiting(b.client) then b.(phase := SubTest(ready))
      else if b.client.cur == [] && b.client.inbox[0] == [] then b
      else
        var (p, rest) := NextFrame(b.client);
        b.(client := rest.(link := RelayFrame(b, p, o)), phase := if p.more then ClientPart(frames + 1, ready) else SubTest(ready))
    case SubTest(ready) =>
      var kind := if b.watch.connect > 0 then Uncompressing(codec) else ToDump;
      b.(phase := if ready then SubPart(kind, 0) else TestAccepted)
    case SubPart(kind, frames) =>
      if b.interrupted || o.recvFails || !Waiting(b.sub) then b.(phase := TestAccepted)
      else if b.sub.cur == [] && b.sub.inbox[0] == [] then b
      else
        var (p, rest) := NextFrame(b.sub);
        b.(sub := rest.(link := PassFrame(codec, dropkey, b, kind, frames, p, o)),
           phase := if p.more then SubPart(kind, frames + 1) else TestAccepted)
    case TestAccepted => b.(phase := if b.watch.words != [] && b.watch.words[0].up then LockAccepted else TestGone)
    case LockAccepted => b.(watch := b.watch.(words := [CLEAR], connect := b.watch.connect + 1), phase := TestGone)
    case TestGone => b.(phase := if b.watch.words != [] && b.watch.words[0].down then LockGone else Polling)
    case LockGone => b.(watch := b.watch.(words := [CLEAR], connect := b.watch.connect - 1), phase := Polling)
    case Ended => b
  }

  /** A worker comes or goes. */
  function Worker(w: Watch, up: bool): Watch
    requires |w.words| == |w.live| == 1
  {
    if up then w.(live := [w.live[0] + 1], words := [w.words[0].(up := true)])
    else if w.live[0] == 0 then w
    else w.(live := [w.live[0] - 1], words := [w.words[0].(down := true)])
  }

  predicate OneMonitor(b: Both) {
    |b.watch.words| == |b.watch.live| == 1
  }

  function NextBoth(codec: Option<Codec>, dropkey: bool, b: Both, e: BothEvent): (r: Both)
    requires OneMonitor(b)
    ensures OneMonitor(r)
  {
    match e
    case ToClient(m) => b.(client := Queue(b.client, m))
    case ToSub(m) => b.(sub := Queue(b.sub, m))
    case Raised(up) => b.(watch := Worker(b.watch, up))
    case Interrupted => b.(interrupted := true)
    case Ticked(o) => StepBoth(codec, dropkey, b, o)
  }

  function ExecBoth(codec: Option<Codec>, dropkey: bool, es: seq<BothEvent>): (r: Both)
    ensures OneMonitor(r)
  {
    if es == [] then InitBoth()
    else NextBoth(codec, dropkey, ExecBoth(codec, dropkey, es[..|es| - 1]), es[|es| - 1])
  }

  // ----- what each half sees -----

  const UNWATCHED := Watch([], [], 0)

  function ClientView(b: Both): State {
    var pc := match b.phase
      case Polling => Poll
      case ClientPart(frames, _) => Receive(Raw, frames)
      case Ended => Stopped
      case _ => TestUp(0);
    State(b.client.arrived, b.client.inbox, b.client.cur, b.client.link, UNWATCHED, pc, b.interrupted)
  }

  function SubView(codec: Option<Codec>, b: Both): State {
    var kind := if b.watch.connect > 0 then Uncompressing(codec) else ToDump;
    var pc := match b.phase
      case Polling => Poll
      case ClientPart(_, ready) => if ready then Receive(kind, 0) else TestUp(0)
      case SubTest(ready) => if ready then Receive(kind, 0) else TestUp(0)
      case SubPart(t, frames) => Receive(t, frames)
      case TestAccepted => TestUp(0)
      case LockAccepted => LockUp(0)
      case TestGone => TestDown(0)
      case LockGone => LockDown(0)
      case Ended => Stopped;
    State(b.sub.arrived, b.sub.inbox, b.sub.cur, b.sub.link, b.watch, pc, b.interrupted)
  }

  /** The events of one half of the loop. */
  function ClientEvents(b: Both, e: BothEvent): seq<Event>
    requires OneMonitor(b)
  {
    match e
    case ToClient(m) => [Arrive(m)]
    case ToSub(_) => []
    case Raised(_) => []
    case Interrupted => [Interrupt]
    case Ticked(o) =>
      if b.phase.Polling? || b.phase.ClientPart? || b.phase.LockGone? || (b.phase.TestGone? && !b.watch.words[0].down)
      then [Tick(o)] else []
  }

  function SubEvents(b: Both, e: BothEvent): seq<Event>
    requires OneMonitor(b)
  {
    match e
    case ToClient(_) => []
    case ToSub(m) => [Arrive(m)]
    case Raised(up) => [Raise(0, up)]
    case Interrupted => [Interrupt]
    case Ticked(o) =>
      if b.phase.ClientPart? || b.phase.SubTest? then []
      else if b.phase.LockGone? || (b.phase.TestGone? && !b.watch.words[0].down) then [Tick(o), Tick(o)]
      else [Tick(o)]
  }

  function ClientRun(codec: Option<Codec>, dropkey: bool, es: seq<BothEvent>): seq<Event> {
    if es == [] then []
    else
      var init := es[..|es| - 1];
      ClientRun(codec, dropkey, init) + ClientEvents(ExecBoth(codec, dropkey, init), es[|es| - 1])
  }

  function SubRun(codec: Option<Codec>, dropkey: bool, es: seq<BothEvent>): seq<Event> {
    if es == [] then []
    else
      var init := es[..|es| - 1];
      SubRun(codec, dropkey, init) + SubEvents(ExecBoth(codec, dropkey, init), es[|es| - 1])
  }

  // ----- the two halves do not interfere -----

  /** At most two events of the simple machine. */
  function Few(cfg: Config, s: State, es: seq<Event>): State {
    if es == [] then s else if |es| == 1 then Next(cfg, s, es[0]) else Next(cfg, Next(cfg, s, es[0]), es[1])
  }

  lemma ExecFew(cfg: Config, es: seq<Event>, few: seq<Event>)
    requires |few| <= 2
    ensures Exec(cfg, es + few) == Few(cfg, Exec(cfg, es), few)
  {
    hide Next;
    if few == [] {
      assert es + few == es;
    } else if |few| == 1 {
      assert (es + few)[..|es|] == es;
    } else {
      assert (es + few)[..|es| + 1] == es + [few[0]];
      assert (es + [few[0]])[..|es|] == es;
    }
  }

  /** A frame of either stream is treated as the simple machine does it. */
  lemma ClientFrame(codec: Option<Codec>, dropkey: bool, b: Both, o: Outcome)
    requires OneMonitor(b) && b.phase.ClientPart?
    ensures ClientView(StepBoth(codec, dropkey, b, o)) == Step(Relay(codec), ClientView(b), o)
    ensures SubView(codec, StepBoth(codec, dropkey, b, o)) == SubView(codec, b)
  {
  }

  lemma SubFrame(codec: Option<Codec>, dropkey: bool, b: Both, o: Outcome)
    requires OneMonitor(b) && b.phase.SubPart?
    ensures SubView(codec, StepBoth(codec, dropkey, b, o)) == Step(Subscribe(codec, dropkey, true), SubView(codec, b), o)
    ensures ClientView(StepBoth(codec, dropkey, b, o)) == ClientView(b)
  {
    hide SendMsg;
  }

  /** The poll, which is one for both. */
  lemma PollStep(codec: Option<Codec>, dropkey: bool, b: Both, o: Outcome)
    requires OneMonitor(b) && (b.phase.Polling? || b.phase.SubTest? || b.phase.Ended?)
    ensures ClientView(StepBoth(codec, dropkey, b, o)) == Few(Relay(codec), ClientView(b), ClientEvents(b, Ticked(o)))
    ensures SubView(codec, StepBoth(codec, dropkey, b, o)) == Few(Subscribe(codec, dropkey, true), SubView(codec, b), SubEvents(b, Ticked(o)))
  {
    hide ReceiveFrame, RelayFrame, PassFrame, NextFrame;
  }

  /** The count of workers, which the client half waits for. */
  lemma RefreshStep(codec: Option<Codec>, dropkey: bool, b: Both, o: Outcome)
    requires OneMonitor(b) && (b.phase.TestAccepted? || b.phase.LockAccepted? || b.phase.TestGone? || b.phase.LockGone?)
    ensures ClientView(StepBoth(codec, dropkey, b, o)) == Few(Relay(codec), ClientView(b), ClientEvents(b, Ticked(o)))
    ensures SubView(codec, StepBoth(codec, dropkey, b, o)) == Few(Subscribe(codec, dropkey, true), SubView(codec, b), SubEvents(b, Ticked(o)))
  {
    hide ReceiveFrame, RelayFrame, PassFrame, NextFrame;
  }

  lemma BothStep(codec: Option<Codec>, dropkey: bool, b: Both, e: BothEvent)
    requires OneMonitor(b)
    ensures ClientView(NextBoth(codec, dropkey, b, e)) == Few(Relay(codec), ClientView(b), ClientEvents(b, e))
    ensures SubView(codec, NextBoth(codec, dropkey, b, e)) == Few(Subscribe(codec, dropkey, true), SubView(codec, b), SubEvents(b, e))
  {
    hide StepBoth, Step;
    if e.Ticked? {
      if b.phase.ClientPart? {
        ClientFrame(codec, dropkey, b, e.o);
      } else if b.phase.SubPart? {
        SubFrame(codec, dropkey, b, e.o);
      } else if b.phase.Polling? || b.phase.SubTest? || b.phase.Ended? {
        PollStep(codec, dropkey, b, e.o);
      } else {
        RefreshStep(codec, dropkey, b, e.o);
      }
    }
  }

  lemma NothingHappened(codec: Option<Codec>, dropkey: bool)
    ensures ClientView(ExecBoth(codec, dropkey, [])) == Exec(Relay(codec), ClientRun(codec, dropkey, []))
    ensures SubView(codec, ExecBoth(codec, dropkey, [])) == Exec(Subscribe(codec, dropkey, true), SubRun(codec, dropkey, []))
  {
  }

  lemma RunSnoc(codec: Option<Codec>, dropkey: bool, es: seq<BothEvent>)
    requires es != []
    ensures var (init, last) := (es[..|es| - 1], es[|es| - 1]);
            var b := ExecBoth(codec, dropkey, init);
            && ExecBoth(codec, dropkey, es) == NextBoth(codec, dropkey, b, last)
            && ClientRun(codec, dropkey, es) == ClientRun(codec, dropkey, init) + ClientEvents(b, last)
            && SubRun(codec, dropkey, es) == SubRun(codec, dropkey, init) + SubEvents(b, last)
  {
    hide NextBoth, ClientEvents, SubEvents;
  }

  /** Each half goes through exactly the states of the simple machine that sees
      its own events only. */
  lemma {:induction false} NoInterference(codec: Option<Codec>, dropkey: bool, es: seq<BothEvent>)
    ensures ClientView(ExecBoth(codec, dropkey, es)) == Exec(Relay(codec), ClientRun(codec, dropkey, es))
    ensures SubView(codec, ExecBoth(codec, dropkey, es)) == Exec(Subscribe(codec, dropkey, true), SubRun(codec, dropkey, es))
  {
    hide ClientView, SubView, NextBoth, Next, Few, Exec, ExecBoth, ClientRun, SubRun;
    if es == [] {
      NothingHappened(codec, dropkey);
    } else {
      var init, last := es[..|es| - 1], es[|es| - 1];
      var b := ExecBoth(codec, dropkey, init);
      NoInterference(codec, dropkey, init);
      RunSnoc(codec, dropkey, es);
      BothStep(codec, dropkey, b, last);
      ExecFew(Relay(codec), ClientRun(codec, dropkey, init), ClientEvents(b, last));
      ExecFew(Subscribe(codec, dropkey, true), SubRun(codec, dropkey, init), SubEvents(b, last));
    }
  }

  /** A subscribe message is sent if the loop has counted a worker, and dumped if
      not. */
  lemma WorkersDecide(codec: Option<Codec>, dropkey: bool, es: seq<BothEvent>)
    ensures var b := ExecBoth(codec, dropkey, es);
            b.phase.SubPart? ==> b.phase.kind == if b.watch.connect > 0 then Uncompressing(codec) else ToDump
  {
    hide ExecBoth, Exec, ClientRun, SubRun;
    NoInterference(codec, dropkey, es);
    KindByCounter(Subscribe(codec, dropkey, true), SubRun(codec, dropkey, es));
  }

  // ----- finished runs -----

  predicate NothingFails(es: seq<BothEvent>) {
    forall i :: 0 <= i < |es| ==> es[i].Ticked? ==> Succeeds(Tick(es[i].o))
  }

  lemma {:induction false} NothingFailsInHalves(codec: Option<Codec>, dropkey: bool, es: seq<BothEvent>)
    requires NothingFails(es)
    ensures NoFailures(ClientRun(codec, dropkey, es)) && NoFailures(SubRun(codec, dropkey, es))
  {
    if es != [] {
      hide ExecBoth;
      NothingFailsInHalves(codec, dropkey, es[..|es| - 1]);
    }
  }

  /** Once both queues are empty, the backend has been handed exactly the client's
      messages, and every subscribe message lies whole where the count of workers
      sent it. */
  lemma TwoStreams(codec: Option<Codec>, dropkey: bool, es: seq<BothEvent>)
    requires NothingFails(es)
    requires var b := ExecBoth(codec, dropkey, es); !Waiting(b.client) && !Waiting(b.sub)
    ensures var b := ExecBoth(codec, dropkey, es);
            && Whole(b.client.link.wire) == b.client.arrived && b.client.link.wire == PartsAll(b.client.arrived)
            && b.client.link.lost == []
            && Delivered(Subscribe(codec, dropkey, true), SubView(codec, b), RoutesOf(Subscribe(codec, dropkey, true), SubRun(codec, dropkey, es)))
  {
    hide ExecBoth, ClientRun, SubRun, Exec, Whole, PartsAll, Routed, WireAll, DumpAll, RoutesOf, NoFailures, NothingFails;
    NothingFailsInHalves(codec, dropkey, es);
    NoInterference(codec, dropkey, es);
    var b := ExecBoth(codec, dropkey, es);
    var relay := Relay(codec);
    DrainedRun(relay, ClientRun(codec, dropkey, es));
    RoutedLive(b.client.arrived, RoutesOf(relay, ClientRun(codec, dropkey, es)));
    RelayIsPlain(codec, b.client.arrived);
    WholeOfPartsAll(b.client.arrived);
    NonEmptyKeepsAll(b.client.arrived);
    DrainedRun(Subscribe(codec, dropkey, true), SubRun(codec, dropkey, es));
  }

  lemma {:induction false} RelayIsPlain(codec: Option<Codec>, ms: seq<Message>)
    ensures WireAll(Relay(codec), ms) == ms
  {
    hide WireFrames;
    if ms != [] {
      var n := |ms| - 1;
      RelayIsPlain(codec, ms[..n]);
      PlainMessage(codec, ms[n]);
      assert ms == ms[..n] + [ms[n]];
    }
  }

  lemma PlainMessage(codec: Option<Codec>, m: Message)
    ensures WireFrames(Relay(codec), m) == m
  {
    hide CodeAll;
    PlainFrames(codec, m);
  }

  lemma {:induction false} PlainFrames(codec: Option<Codec>, m: Message)
    ensures CodeAll(Relay(codec), m) == m
  {
    if m != [] {
      var n := |m| - 1;
      PlainFrames(codec, m[..n]);
      assert m == m[..n] + [m[n]];
    }
  }
}
