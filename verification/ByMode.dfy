/** Mode by mode, and by name: which send type the loop of each server mode
    chooses, what a refresh counts, and where messages end up
    (src/app_server.c). Nothing here speaks of the settings that make a mode. */
module ByMode {
  import opened Common
  import opened Wire
  import opened Send
  import opened Dump
  import opened Broker
  import opened Routes
  import opened Integrity
  import opened Modes
  import opened Progress
  import Connections
  import Windows

  // ----- the choice -----

  /** A message is received for live sending, as `live`, while the count is
      positive, and for the dump otherwise. */
  predicate Consults(cfg: Config, live: SendType, es: seq<Event>) {
    var s := Exec(cfg, es);
    s.pc.Receive? ==> s.pc.kind == if s.watch.connect > 0 then live else ToDump
  }

  /** A message is always received for live sending; nothing is watched, and
      nothing dumped, whatever fails. */
  predicate AlwaysLive(cfg: Config, live: SendType, es: seq<Event>) {
    var s := Exec(cfg, es);
    && (s.pc.Receive? ==> s.pc.kind == live)
    && s.watch == Watch([], [], 0)
    && s.link.dump == [] && !s.link.handle
  }

  function Coding(codec: Option<Codec>): SendType { if codec.Some? then Compress else Raw }

  function Decoding(codec: Option<Codec>): SendType { if codec.Some? then Uncompress else Raw }

  /** In every run: client and the modes with workers consult the counter. */
  lemma CountersDecide(codec: Option<Codec>, hasDump: bool, endpoints: nat, dropkey: bool, es: seq<Event>)
    ensures Consults(Client(codec, hasDump, endpoints), Coding(codec), es)
    ensures Consults(Subscribe(codec, dropkey, hasDump), Decoding(codec), es)
    ensures Consults(PublishSubscribe(codec, hasDump), Decoding(codec), es)
    ensures Consults(StandAlone(codec, hasDump), Raw, es)
  {
    hide Exec;
    KindByCounter(Client(codec, hasDump, endpoints), es);
    KindByCounter(Subscribe(codec, dropkey, hasDump), es);
    KindByCounter(PublishSubscribe(codec, hasDump), es);
    KindByCounter(StandAlone(codec, hasDump), es);
  }

  lemma NextUnwatched(cfg: Config, s: State, e: Event)
    requires !cfg.hasDump && s.watch == Watch([], [], 0) && s.link.dump == [] && !s.link.handle
    ensures var t := Next(cfg, s, e); t.watch == s.watch && t.link.dump == [] && !t.link.handle
  {
  }

  lemma {:induction false} Unwatched(cfg: Config, es: seq<Event>)
    requires !cfg.watched && !cfg.hasDump && cfg.endpoints == 0
    ensures AlwaysLive(cfg, cfg.live, es)
  {
    hide Next;
    KindByCounter(cfg, es);
    if es == [] {
      StartsUnwatched(cfg);
    } else {
      Unwatched(cfg, es[..|es| - 1]);
      NextUnwatched(cfg, Exec(cfg, es[..|es| - 1]), es[|es| - 1]);
    }
  }

  lemma StartsUnwatched(cfg: Config)
    requires cfg.endpoints == 0
    ensures Init(cfg).watch == Watch([], [], 0) && Init(cfg).link == EMPTY
  {
  }

  /** In every run: publish and client-publish count nothing and dump nothing. */
  lemma PublishersNeverDump(codec: Option<Codec>, key: Bytes, sendkey: bool, es: seq<Event>)
    ensures AlwaysLive(Publish(codec, key, sendkey), Raw, es)
    ensures AlwaysLive(ClientPublish(codec, key, sendkey), Coding(codec), es)
    ensures AlwaysLive(Relay(codec), Raw, es)
  {
    hide Exec;
    Unwatched(Publish(codec, key, sendkey), es);
    Unwatched(ClientPublish(codec, key, sendkey), es);
    Unwatched(Relay(codec), es);
  }

  /** With a dump file that works, no mode that has one loses a frame, whatever
      sends fail. */
  lemma NoModeLoses(codec: Option<Codec>, endpoints: nat, dropkey: bool, es: seq<Event>)
    requires FilesWork(es)
    ensures Exec(Client(codec, true, endpoints), es).link.lost == []
    ensures Exec(Subscribe(codec, dropkey, true), es).link.lost == []
    ensures Exec(PublishSubscribe(codec, true), es).link.lost == []
    ensures Exec(StandAlone(codec, true), es).link.lost == []
  {
    hide Exec;
    NothingLost(Client(codec, true, endpoints), es);
    NothingLost(Subscribe(codec, dropkey, true), es);
    NothingLost(PublishSubscribe(codec, true), es);
    NothingLost(StandAlone(codec, true), es);
  }

  // ----- the count -----

  /** A critical section for socket `i` of the client: counted and cleared if the
      call succeeds, and left as it is for another try if not. */
  lemma ClientSections(codec: Option<Codec>, hasDump: bool, endpoints: nat, es: seq<Event>, o: Outcome)
    ensures var (s, t) := (Exec(Client(codec, hasDump, endpoints), es), Exec(Client(codec, hasDump, endpoints), es + [Tick(o)]));
            && |s.watch.words| == |s.watch.live| == endpoints
            && (s.pc.LockUp? || s.pc.LockDown? ==> s.pc.i < endpoints)
            && (s.pc.LockUp? || s.pc.LockDown? ==>
                  t.watch == if o.endpointCall
                             then s.watch.(connect := s.watch.connect + (if s.pc.LockUp? then 1 else -1), words := s.watch.words[s.pc.i := CLEAR])
                             else s.watch)
  {
    hide Exec;
    var cfg := Client(codec, hasDump, endpoints);
    ExecSnoc(cfg, es, Tick(o));
    Connections.RunInSection(cfg, es);
    Connections.CountIsDifference(cfg, es);
  }

  /** The same for the bound socket of a mode with workers, where no call is made
      that could fail. */
  predicate CountsAlways(cfg: Config, es: seq<Event>, o: Outcome) {
    var (s, t) := (Exec(cfg, es), Exec(cfg, es + [Tick(o)]));
    && |s.watch.words| == |s.watch.live| == 1
    && (s.pc.LockUp? ==> t.watch == s.watch.(connect := s.watch.connect + 1, words := [CLEAR]))
    && (s.pc.LockDown? ==> t.watch == s.watch.(connect := s.watch.connect - 1, words := [CLEAR]))
  }

  lemma BoundCounts(cfg: Config, es: seq<Event>, o: Outcome)
    requires !cfg.dials && cfg.endpoints == 1
    ensures CountsAlways(cfg, es, o)
  {
    hide Exec;
    ExecSnoc(cfg, es, Tick(o));
    Connections.RunInSection(cfg, es);
    Connections.CountIsDifference(cfg, es);
    var s := Exec(cfg, es);
    assert s.watch.words[0 := CLEAR] == [CLEAR];
  }

  lemma WorkerSections(codec: Option<Codec>, dropkey: bool, hasDump: bool, es: seq<Event>, o: Outcome)
    ensures CountsAlways(Subscribe(codec, dropkey, hasDump), es, o)
    ensures CountsAlways(PublishSubscribe(codec, hasDump), es, o)
    ensures CountsAlways(StandAlone(codec, hasDump), es, o)
  {
    hide CountsAlways;
    BoundCounts(Subscribe(codec, dropkey, hasDump), es, o);
    BoundCounts(PublishSubscribe(codec, hasDump), es, o);
    BoundCounts(StandAlone(codec, hasDump), es, o);
  }

  // ----- where messages end up -----

  /** The count at every poll that found a message. */
  function CountsAt(cfg: Config, es: seq<Event>): seq<int> {
    if es == [] then []
    else
      var n := |es| - 1;
      var s := Exec(cfg, es[..n]);
      CountsAt(cfg, es[..n]) + (if Polls(s, es[n]) then [s.watch.connect] else [])
  }

  function Positive(counts: seq<int>): (r: seq<bool>)
    ensures |r| == |counts| && forall i :: 0 <= i < |r| ==> r[i] == (counts[i] > 0)
  {
    seq(|counts|, i requires 0 <= i < |counts| => counts[i] > 0)
  }

  lemma {:induction false} RoutesAreCounts(cfg: Config, es: seq<Event>)
    ensures |RoutesOf(cfg, es)| == |CountsAt(cfg, es)|
    ensures cfg.watched ==> RoutesOf(cfg, es) == Positive(CountsAt(cfg, es))
    ensures !cfg.watched ==> forall i :: 0 <= i < |RoutesOf(cfg, es)| ==> RoutesOf(cfg, es)[i]
  {
    if es != [] {
      hide Exec, Polls;
      RoutesAreCounts(cfg, es[..|es| - 1]);
    }
  }

  /** Frame by frame, and message by message. */
  function Each(code: Bytes -> Bytes, m: Message): (r: Message)
    ensures |r| == |m| && forall i :: 0 <= i < |r| ==> r[i] == code(m[i])
  {
    seq(|m|, i requires 0 <= i < |m| => code(m[i]))
  }

  function EachMessage(f: Message -> Message, ms: seq<Message>): (r: seq<Message>)
    ensures |r| == |ms| && forall i :: 0 <= i < |r| ==> r[i] == f(ms[i])
  {
    seq(|ms|, i requires 0 <= i < |ms| => f(ms[i]))
  }

  /** What snappy makes of a frame, or the frame where it is not built in or
      refuses. */
  function Compressed(codec: Option<Codec>): Bytes -> Bytes {
    (f: Bytes) => match codec
      case None => f
      case Some(c) => (match c.compress(f) case None => f case Some(b) => b)
  }

  function Uncompressed(codec: Option<Codec>): Bytes -> Bytes {
    (f: Bytes) => match codec
      case None => f
      case Some(c) => (match c.uncompress(f) case None => f case Some(b) => b)
  }

  function WithoutFirst(drop: bool, m: Message): Message {
    if drop && m != [] then m[1..] else m
  }

  function WithKey(codec: Option<Codec>, key: Bytes, sendkey: bool, m: Message): Message {
    if sendkey then [Compressed(codec)(key)] + m else m
  }

  /** Of the messages that arrived, those found while the count was positive lie
      on the socket as `sent` makes them, the others in the dump as `dumped`
      does, whole and in order, and nothing is lost. */
  ghost predicate Sorted(cfg: Config, es: seq<Event>, sent: Message -> Message, dumped: Message -> Message) {
    var (s, counted) := (Exec(cfg, es), Positive(CountsAt(cfg, es)));
    && |counted| == |s.arrived|
    && s.link.wire == PartsAll(EachMessage(sent, Routed(s.arrived, counted, true)))
    && s.link.dump == PartsAll(EachMessage(dumped, Routed(s.arrived, counted, false)))
    && s.link.lost == [] && !s.link.handle
  }

  /** All messages lie on the socket. */
  ghost predicate AllSent(cfg: Config, es: seq<Event>, sent: Message -> Message) {
    var s := Exec(cfg, es);
    && s.link.wire == PartsAll(EachMessage(sent, s.arrived))
    && s.link.dump == [] && s.link.lost == []
  }

  lemma SortedBy(cfg: Config, es: seq<Event>, sent: Message -> Message, dumped: Message -> Message)
    requires IsMode(cfg) && cfg.watched && Finished(cfg, es)
    requires forall m: Message :: m != [] ==> sent(m) == WireFrames(cfg, m) && dumped(m) == DumpFrames(cfg, m)
    ensures Sorted(cfg, es, sent, dumped)
  {
    hide Exec, NoFailures, Drained, PartsAll, WireFrames, DumpFrames, RoutesOf, CountsAt, WireAll, DumpAll, Routed;
    DrainedRun(cfg, es);
    RoutesAreCounts(cfg, es);
    var ms, routes := Exec(cfg, es).arrived, RoutesOf(cfg, es);
    RoutedMembers(ms, routes, true);
    RoutedMembers(ms, routes, false);
    WireAllAt(cfg, Routed(ms, routes, true));
    WireAllAt(cfg, Routed(ms, routes, false));
    assert EachMessage(sent, Routed(ms, routes, true)) == WireAll(cfg, Routed(ms, routes, true));
    assert EachMessage(dumped, Routed(ms, routes, false)) == DumpAll(cfg, Routed(ms, routes, false));
  }

  lemma AllSentBy(cfg: Config, es: seq<Event>, sent: Message -> Message)
    requires IsMode(cfg) && !cfg.watched && Finished(cfg, es)
    requires forall m: Message :: m != [] ==> sent(m) == WireFrames(cfg, m)
    ensures AllSent(cfg, es, sent)
  {
    hide Exec, NoFailures, Drained, PartsAll, WireFrames, RoutesOf, WireAll, DumpAll, Routed;
    DrainedRun(cfg, es);
    var ms, routes := Exec(cfg, es).arrived, RoutesOf(cfg, es);
    RoutedLive(ms, routes);
    WireAllAt(cfg, ms);
    NothingDumped(cfg);
    assert EachMessage(sent, ms) == WireAll(cfg, ms);
  }

  lemma NothingDumped(cfg: Config)
    ensures PartsAll(DumpAll(cfg, [])) == []
  {
  }

  lemma CodeAllIs(cfg: Config, code: Bytes -> Bytes, m: Message)
    requires forall f: Bytes :: code(f) == CodeFrame(cfg, f)
    ensures CodeAll(cfg, m) == Each(code, m)
  {
    hide CodeAll, CodeFrame;
    CodeAllAt(cfg, m);
  }

  /** In every finished run without failures: what each mode sends and dumps. */
  lemma ClientSorts(codec: Option<Codec>, endpoints: nat, es: seq<Event>)
    requires Finished(Client(codec, true, endpoints), es)
    ensures Sorted(Client(codec, true, endpoints), es, m => Each(Compressed(codec), m), m => m)
  {
    hide Exec, NoFailures, Drained, CodeAll, Sorted;
    var cfg := Client(codec, true, endpoints);
    forall m: Message
      ensures Each(Compressed(codec), m) == WireFrames(cfg, m)
    {
      CodeAllIs(cfg, Compressed(codec), m);
    }
    SortedBy(cfg, es, m => Each(Compressed(codec), m), m => m);
  }

  /** What subscribe sends of a message, and what it dumps. */
  function ForWorkers(codec: Option<Codec>, dropkey: bool): Message -> Message {
    (m: Message) => Each(Uncompressed(codec), WithoutFirst(dropkey, m))
  }

  function ForDump(dropkey: bool): Message -> Message {
    (m: Message) => WithoutFirst(dropkey, m)
  }

  lemma SubscribeMessage(codec: Option<Codec>, dropkey: bool, m: Message)
    ensures ForWorkers(codec, dropkey)(m) == WireFrames(Subscribe(codec, dropkey, true), m)
    ensures ForDump(dropkey)(m) == DumpFrames(Subscribe(codec, dropkey, true), m)
  {
    hide CodeAll;
    CodeAllIs(Subscribe(codec, dropkey, true), Uncompressed(codec), WithoutFirst(dropkey, m));
  }

  lemma SubscribeSorts(codec: Option<Codec>, dropkey: bool, es: seq<Event>)
    requires Finished(Subscribe(codec, dropkey, true), es)
    ensures Sorted(Subscribe(codec, dropkey, true), es, ForWorkers(codec, dropkey), ForDump(dropkey))
  {
    hide Exec, NoFailures, Drained, WireFrames, DumpFrames, Sorted, ForWorkers, ForDump;
    forall m: Message
      ensures ForWorkers(codec, dropkey)(m) == WireFrames(Subscribe(codec, dropkey, true), m)
      ensures ForDump(dropkey)(m) == DumpFrames(Subscribe(codec, dropkey, true), m)
    {
      SubscribeMessage(codec, dropkey, m);
    }
    SortedBy(Subscribe(codec, dropkey, true), es, ForWorkers(codec, dropkey), ForDump(dropkey));
  }

  lemma PublishSubscribeSorts(codec: Option<Codec>, es: seq<Event>)
    requires Finished(PublishSubscribe(codec, true), es)
    ensures Sorted(PublishSubscribe(codec, true), es, m => Each(Uncompressed(codec), m), m => m)
  {
    hide Exec, NoFailures, Drained, CodeAll, Sorted;
    var cfg := PublishSubscribe(codec, true);
    forall m: Message
      ensures Each(Uncompressed(codec), m) == WireFrames(cfg, m)
    {
      CodeAllIs(cfg, Uncompressed(codec), m);
    }
    SortedBy(cfg, es, m => Each(Uncompressed(codec), m), m => m);
  }

  lemma StandAloneSorts(codec: Option<Codec>, es: seq<Event>)
    requires Finished(StandAlone(codec, true), es)
    ensures Sorted(StandAlone(codec, true), es, m => m, m => m)
  {
    hide Exec, NoFailures, Drained, CodeAll, Sorted;
    var cfg := StandAlone(codec, true);
    forall m: Message
      ensures m == WireFrames(cfg, m)
    {
      NoCodingAtAll(cfg, m);
    }
    SortedBy(cfg, es, m => m, m => m);
  }

  lemma PublishSendsAll(codec: Option<Codec>, key: Bytes, sendkey: bool, es: seq<Event>)
    requires Finished(Publish(codec, key, sendkey), es)
    ensures AllSent(Publish(codec, key, sendkey), es, m => WithKey(codec, key, sendkey, m))
  {
    hide Exec, NoFailures, Drained, CodeAll, AllSent;
    var cfg := Publish(codec, key, sendkey);
    forall m: Message | m != []
      ensures WithKey(codec, key, sendkey, m) == WireFrames(cfg, m)
    {
      NoCodingAtAll(cfg, m);
    }
    AllSentBy(cfg, es, m => WithKey(codec, key, sendkey, m));
  }

  lemma ClientPublishSendsAll(codec: Option<Codec>, key: Bytes, sendkey: bool, es: seq<Event>)
    requires Finished(ClientPublish(codec, key, sendkey), es)
    ensures AllSent(ClientPublish(codec, key, sendkey), es, m => WithKey(codec, key, sendkey, Each(Compressed(codec), m)))
  {
    hide Exec, NoFailures, Drained, CodeAll, AllSent;
    var cfg := ClientPublish(codec, key, sendkey);
    forall m: Message | m != []
      ensures WithKey(codec, key, sendkey, Each(Compressed(codec), m)) == WireFrames(cfg, m)
    {
      CodeAllIs(cfg, Compressed(codec), m);
    }
    AllSentBy(cfg, es, m => WithKey(codec, key, sendkey, Each(Compressed(codec), m)));
  }

  /** For every stream and every choice of ways there is a run of the client (of
      the modes with workers) without failures in which the count is positive for
      exactly the messages chosen for the socket. */
  ghost predicate CanSort(cfg: Config, ms: seq<Message>, live: seq<bool>) {
    exists es :: Finished(cfg, es) && Exec(cfg, es).arrived == ms && Positive(CountsAt(cfg, es)) == live
  }

  lemma SomeRunSorts(cfg: Config, ms: seq<Message>, live: seq<bool>)
    requires cfg.watched && cfg.endpoints > 0
    requires |ms| == |live| && forall i :: 0 <= i < |ms| ==> ms[i] != []
    ensures CanSort(cfg, ms, live)
  {
    hide Exec, NoFailures, Idle, Drained, RoutesOf, CountsAt;
    var es := RunWithRoutes(cfg, ms, live);
    IdleIsDrained(cfg, Exec(cfg, es));
    RoutesAreCounts(cfg, es);
  }

  lemma EveryModeCanSort(codec: Option<Codec>, endpoints: nat, dropkey: bool, ms: seq<Message>, live: seq<bool>)
    requires endpoints > 0 && |ms| == |live| && forall i :: 0 <= i < |ms| ==> ms[i] != []
    ensures CanSort(Client(codec, true, endpoints), ms, live)
    ensures CanSort(Subscribe(codec, dropkey, true), ms, live)
    ensures CanSort(PublishSubscribe(codec, true), ms, live)
    ensures CanSort(StandAlone(codec, true), ms, live)
  {
    hide CanSort;
    SomeRunSorts(Client(codec, true, endpoints), ms, live);
    SomeRunSorts(Subscribe(codec, dropkey, true), ms, live);
    SomeRunSorts(PublishSubscribe(codec, true), ms, live);
    SomeRunSorts(StandAlone(codec, true), ms, live);
  }

  /** While the client has no connection, a message is dumped: found by a poll of
      a run in which nothing has connected yet. */
  lemma UnconnectedClientDumps(codec: Option<Codec>, f: Bytes)
    ensures var t := GOOD;
            var s := Exec(Client(codec, true, 1), [Arrive([f]), t, t]);
            s.link.dump == [Part(f, false)] && s.link.wire == [] && s.watch.connect == 0
  {
    hide Exec;
    var cfg, t := Client(codec, true, 1), GOOD;
    ExecSnoc(cfg, [], Arrive([f]));
    ExecSnoc(cfg, [Arrive([f])], t);
    ExecSnoc(cfg, [Arrive([f]), t], t);
    Windows.Start(cfg);
    assert [] + [Arrive([f])] == [Arrive([f])] && [Arrive([f])] + [t] == [Arrive([f]), t] && [Arrive([f]), t] + [t] == [Arrive([f]), t, t];
  }
}
