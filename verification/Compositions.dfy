/** The combined modes with a counter of workers against the simple ones:
    publish-subscribe and stand-alone (src/app_server.c). */
module Compositions {
  import opened Common
  import opened Wire
  import opened Send
  import opened Broker
  import opened Routes
  import opened Integrity
  import opened Modes
  import opened Progress

  // ----- publish-subscribe -----

  /** A keyless publish hands on what it got, and an empty subscription takes it
      all: whenever the counter chooses the same ways, subscribe behind it and
      publish-subscribe put the same frames on the socket and into the dump. */
  lemma {:induction false} PublishSubscribeIsComposition(
      codec: Option<Codec>, key: Bytes, publish: seq<Event>, subscribe: seq<Event>, combined: seq<Event>)
    requires Finished(Publish(codec, key, false), publish)
    requires Finished(Subscribe(codec, false, true), subscribe)
    requires Finished(PublishSubscribe(codec, true), combined)
    requires Exec(Subscribe(codec, false, true), subscribe).arrived
             == Subscribed(SubscribeKey(codec, []), Whole(Exec(Publish(codec, key, false), publish).link.wire))
    requires Exec(PublishSubscribe(codec, true), combined).arrived == Exec(Publish(codec, key, false), publish).arrived
    requires RoutesOf(Subscribe(codec, false, true), subscribe) == RoutesOf(PublishSubscribe(codec, true), combined)
    ensures Exec(PublishSubscribe(codec, true), combined).link == Exec(Subscribe(codec, false, true), subscribe).link
  {
    hide Whole, PartsAll, Exec, WireFrames, CodeAll, Routed, DumpAll, RoutesOf, NoFailures, Drained;
    PassedOn(codec, key, publish);
    DrainedRun(Subscribe(codec, false, true), subscribe);
    DrainedRun(PublishSubscribe(codec, true), combined);
  }

  /** Keyless publish and unkeyed subscription in front of a subscribe stage. */
  lemma PassedOn(codec: Option<Codec>, key: Bytes, publish: seq<Event>)
    requires Finished(Publish(codec, key, false), publish)
    ensures Subscribed(SubscribeKey(codec, []), Whole(Exec(Publish(codec, key, false), publish).link.wire))
            == Exec(Publish(codec, key, false), publish).arrived
  {
    hide Whole, PartsAll, Exec, WireFrames, CodeAll, NoFailures, Drained, Subscribed;
    var pc := Publish(codec, key, false);
    ConnectedRun(pc, publish);
    KeylessPublish(codec, key, Exec(pc, publish).arrived);
    SubscribedToAll(Exec(pc, publish).arrived);
  }

  /** The refinement: every finished run of publish-subscribe, with whatever
      history of workers, is matched by runs of publish and subscribe with the
      same frames sent and dumped and the same history. */
  lemma {:induction false} PublishSubscribeRefines(codec: Option<Codec>, key: Bytes, combined: seq<Event>)
      returns (publish: seq<Event>, subscribe: seq<Event>)
    requires Finished(PublishSubscribe(codec, true), combined)
    ensures Finished(Publish(codec, key, false), publish) && Finished(Subscribe(codec, false, true), subscribe)
    ensures Exec(Publish(codec, key, false), publish).arrived == Exec(PublishSubscribe(codec, true), combined).arrived
    ensures Exec(Subscribe(codec, false, true), subscribe).arrived
            == Subscribed(SubscribeKey(codec, []), Whole(Exec(Publish(codec, key, false), publish).link.wire))
    ensures |subscribe| == |combined|
            && forall k :: 0 <= k <= |combined| ==>
                 Exec(Subscribe(codec, false, true), subscribe[..k]).watch == Exec(PublishSubscribe(codec, true), combined[..k]).watch
    ensures Exec(Subscribe(codec, false, true), subscribe).link == Exec(PublishSubscribe(codec, true), combined).link
  {
    hide Exec, NoFailures, Drained, Whole, Subscribed, SubscribeKey, AlwaysConnected;
    subscribe := combined;
    ArrivedNonEmpty(PublishSubscribe(codec, true), combined);
    publish := ConnectedRunExists(Publish(codec, key, false), Exec(PublishSubscribe(codec, true), combined).arrived);
    PassedOn(codec, key, publish);
  }

  lemma KeylessPublish(codec: Option<Codec>, key: Bytes, ms: seq<Message>)
    ensures WireAll(Publish(codec, key, false), ms) == ms
  {
    var pc := Publish(codec, key, false);
    WireAllAt(pc, ms);
    forall i | 0 <= i < |ms|
      ensures WireFrames(pc, ms[i]) == ms[i]
    {
      NoCodingAtAll(pc, ms[i]);
    }
  }

  /** The coded messages. */
  function CodedAll(codec: Option<Codec>, ms: seq<Message>): (r: seq<Message>)
    ensures |r| == |ms| && forall i :: 0 <= i < |ms| ==> r[i] == CodeAll(Client(codec, true, 0), ms[i])
  {
    seq(|ms|, i requires 0 <= i < |ms| => CodeAll(Client(codec, true, 0), ms[i]))
  }

  lemma {:induction false} RoutedCoded(codec: Option<Codec>, ms: seq<Message>, routes: seq<bool>, live: bool)
    requires |ms| == |routes|
    ensures Routed(CodedAll(codec, ms), routes, live) == CodedAll(codec, Routed(ms, routes, live))
  {
    if ms != [] {
      hide CodeAll;
      var n := |ms| - 1;
      RoutedCoded(codec, ms[..n], routes[..n], live);
      assert CodedAll(codec, ms)[..n] == CodedAll(codec, ms[..n]);
    }
  }

  /** stand-alone against client, keyless publish and unkeyed subscribe, whenever
      the counter of workers chooses the same ways: the wire is always the same;
      the dumps are the same exactly when the dumped messages are not changed by
      coding, so always in a build without snappy and always when nothing is
      dumped. */
  lemma {:induction false} StandAloneIsComposition(
      codec: Option<Codec>, endpoints: nat, key: Bytes,
      client: seq<Event>, publish: seq<Event>, subscribe: seq<Event>, alone: seq<Event>)
    requires codec.Some? ==> Lossless(codec.value)
    requires Finished(Client(codec, true, endpoints), client) && AlwaysConnected(Client(codec, true, endpoints), client)
    requires Finished(Publish(codec, key, false), publish)
    requires Exec(Publish(codec, key, false), publish).arrived == Whole(Exec(Client(codec, true, endpoints), client).link.wire)
    requires Finished(Subscribe(codec, false, true), subscribe)
    requires Exec(Subscribe(codec, false, true), subscribe).arrived
             == Subscribed(SubscribeKey(codec, []), Whole(Exec(Publish(codec, key, false), publish).link.wire))
    requires Finished(StandAlone(codec, true), alone)
    requires Exec(StandAlone(codec, true), alone).arrived == Exec(Client(codec, true, endpoints), client).arrived
    requires RoutesOf(Subscribe(codec, false, true), subscribe) == RoutesOf(StandAlone(codec, true), alone)
    ensures SameDelivery(codec, alone, Exec(Subscribe(codec, false, true), subscribe).link)
  {
    hide Whole, PartsAll, Exec, RoutesOf, NoFailures, Drained, AlwaysConnected, PublishedAll, SameDelivery;
    ClientThenPublish(codec, endpoints, key, false, client, publish);
    UnkeyedArrivals(codec, key, Exec(StandAlone(codec, true), alone).arrived);
    CodedSubscribe(codec, subscribe, alone);
  }

  /** `link` is what stand-alone sends, and what it dumps if coding does not
      matter. */
  ghost predicate SameDelivery(codec: Option<Codec>, alone: seq<Event>, link: Link) {
    var (a, routes) := (Exec(StandAlone(codec, true), alone), RoutesOf(StandAlone(codec, true), alone));
    && |routes| == |a.arrived|
    && a.link.wire == link.wire
    && (a.link.dump == link.dump <==>
        CodedAll(codec, Routed(a.arrived, routes, false)) == Routed(a.arrived, routes, false))
    && (codec.None? || (forall i :: 0 <= i < |routes| ==> routes[i]) ==> a.link.dump == link.dump)
  }

  /** A subscribe run that gets the coded messages, with the same routes. */
  lemma {:induction false} CodedSubscribe(codec: Option<Codec>, subscribe: seq<Event>, alone: seq<Event>)
    requires codec.Some? ==> Lossless(codec.value)
    requires Finished(StandAlone(codec, true), alone) && Finished(Subscribe(codec, false, true), subscribe)
    requires Exec(Subscribe(codec, false, true), subscribe).arrived == CodedAll(codec, Exec(StandAlone(codec, true), alone).arrived)
    requires RoutesOf(Subscribe(codec, false, true), subscribe) == RoutesOf(StandAlone(codec, true), alone)
    ensures SameDelivery(codec, alone, Exec(Subscribe(codec, false, true), subscribe).link)
  {
    hide PartsAll, Exec, CodeAll, Routed, DumpAll, WireAll, RoutesOf, NoFailures, Drained, Lossless;
    var ms, routes := Exec(StandAlone(codec, true), alone).arrived, RoutesOf(StandAlone(codec, true), alone);
    DrainedRun(Subscribe(codec, false, true), subscribe);
    DrainedRun(StandAlone(codec, true), alone);
    RoutedCoded(codec, ms, routes, true);
    RoutedCoded(codec, ms, routes, false);
    RoutedMembers(ms, routes, true);
    RoutedMembers(ms, routes, false);
    var live, dead := Routed(ms, routes, true), Routed(ms, routes, false);
    UndoCoding(codec, live);
    PlainDump(StandAlone(codec, true), dead);
    PlainDump(Subscribe(codec, false, true), CodedAll(codec, dead));
    DifferentDumps(codec, dead);
    if codec.None? {
      NoCoding(codec, dead);
    } else if forall i :: 0 <= i < |routes| ==> routes[i] {
      RoutedLive(ms, routes);
    }
  }

  lemma UnkeyedArrivals(codec: Option<Codec>, key: Bytes, ms: seq<Message>)
    requires forall i :: 0 <= i < |ms| ==> ms[i] != []
    ensures Subscribed(SubscribeKey(codec, []), PublishedAll(codec, key, false, ms)) == CodedAll(codec, ms)
  {
    hide CodeAll, Subscribed;
    var all := PublishedAll(codec, key, false, ms);
    forall i | 0 <= i < |ms|
      ensures all[i] == CodeAll(Client(codec, true, 0), ms[i]) && all[i] != []
    {
      CodeAllAt(Client(codec, true, 0), ms[i]);
    }
    assert all == CodedAll(codec, ms);
    SubscribedToAll(all);
  }

  /** Sending plain is what coding and uncoding amount to. */
  lemma UndoCoding(codec: Option<Codec>, ms: seq<Message>)
    requires (codec.Some? ==> Lossless(codec.value)) && forall i :: 0 <= i < |ms| ==> ms[i] != []
    ensures WireAll(StandAlone(codec, true), ms) == WireAll(Subscribe(codec, false, true), CodedAll(codec, ms))
  {
    hide WireFrames, CodeAll;
    var alone, sub := StandAlone(codec, true), Subscribe(codec, false, true);
    WireAllAt(alone, ms);
    WireAllAt(sub, CodedAll(codec, ms));
    forall i | 0 <= i < |ms|
      ensures WireFrames(alone, ms[i]) == WireFrames(sub, CodedAll(codec, ms)[i])
    {
      UndoCodingOne(codec, ms[i]);
    }
  }

  lemma UndoCodingOne(codec: Option<Codec>, m: Message)
    requires codec.Some? ==> Lossless(codec.value)
    ensures WireFrames(StandAlone(codec, true), m) == WireFrames(Subscribe(codec, false, true), CodeAll(Client(codec, true, 0), m))
  {
    hide CodeAll, Lossless;
    Uncode(codec, false, m);
    NoCodingAtAll(StandAlone(codec, true), m);
  }

  lemma PlainDump(cfg: Config, ms: seq<Message>)
    requires !cfg.dropFirst
    ensures DumpAll(cfg, ms) == ms
  {
    WireAllAt(cfg, ms);
  }

  /** Different streams of messages look different in the dump. */
  lemma DifferentDumps(codec: Option<Codec>, ms: seq<Message>)
    requires forall i :: 0 <= i < |ms| ==> ms[i] != []
    ensures PartsAll(ms) == PartsAll(CodedAll(codec, ms)) <==> ms == CodedAll(codec, ms)
  {
    hide CodeAll, PartsAll, Whole, NonEmpty;
    var coded := CodedAll(codec, ms);
    forall i | 0 <= i < |ms|
      ensures coded[i] != []
    {
      CodeAllAt(Client(codec, true, 0), ms[i]);
    }
    WholeOfPartsAll(ms);
    WholeOfPartsAll(coded);
    NonEmptyKeepsAll(ms);
    NonEmptyKeepsAll(coded);
  }

  lemma NoCoding(codec: Option<Codec>, ms: seq<Message>)
    requires codec.None?
    ensures CodedAll(codec, ms) == ms
  {
    forall i | 0 <= i < |ms|
      ensures CodedAll(codec, ms)[i] == ms[i]
    {
      CodeAllAt(Client(codec, true, 0), ms[i]);
      assert CodeAll(Client(codec, true, 0), ms[i]) == ms[i];
    }
  }
  // ----- every stand-alone run has its composition -----

  function CodedEvent(codec: Option<Codec>, e: Event): Event {
    match e
    case Arrive(m) => Arrive(CodeAll(Client(codec, true, 0), m))
    case _ => e
  }

  /** The same events, but for messages that arrive coded. */
  function CodedEvents(codec: Option<Codec>, es: seq<Event>): (r: seq<Event>)
    ensures |r| == |es| && forall k :: 0 <= k < |r| ==> r[k] == CodedEvent(codec, es[k])
  {
    seq(|es|, k requires 0 <= k < |es| => CodedEvent(codec, es[k]))
  }

  function ShadowPC(codec: Option<Codec>, pc: PC): PC {
    match pc
    case Receive(kind, frames) => Receive(if kind == ToDump then ToDump else Uncompressing(codec), frames)
    case _ => pc
  }

  /** `t` is `s` but for the coding of messages and for what was sent. */
  predicate Shadows(codec: Option<Codec>, s: State, t: State) {
    && t.arrived == CodedAll(codec, s.arrived) && t.inbox == CodedAll(codec, s.inbox)
    && t.cur == CodeAll(Client(codec, true, 0), s.cur)
    && t.watch == s.watch && t.pc == ShadowPC(codec, s.pc) && t.interrupted == s.interrupted
    && (s.pc.Receive? ==> s.pc.kind == Raw || s.pc.kind == ToDump)
  }

  lemma CodedLength(codec: Option<Codec>, m: Message)
    ensures |CodeAll(Client(codec, true, 0), m)| == |m|
    ensures m != [] ==> CodeAll(Client(codec, true, 0), m)[1..] == CodeAll(Client(codec, true, 0), m[1..])
  {
    hide CodeAll;
    CodeAllAt(Client(codec, true, 0), m);
    if m != [] {
      CodeAllAt(Client(codec, true, 0), m[1..]);
    }
  }

  lemma CodedAllSnoc(codec: Option<Codec>, ms: seq<Message>, m: Message)
    ensures CodedAll(codec, ms + [m]) == CodedAll(codec, ms) + [CodeAll(Client(codec, true, 0), m)]
  {
    hide CodeAll;
  }

  lemma ShadowArrive(codec: Option<Codec>, s: State, t: State, m: Message)
    requires Shadows(codec, s, t)
    ensures Shadows(codec, Next(StandAlone(codec, true), s, Arrive(m)),
                    Next(Subscribe(codec, false, true), t, CodedEvent(codec, Arrive(m))))
  {
    hide CodeAll, CodedAll;
    CodedLength(codec, m);
    CodedAllSnoc(codec, s.arrived, m);
    CodedAllSnoc(codec, s.inbox, m);
  }

  lemma ShadowReceive(codec: Option<Codec>, s: State, t: State, o: Outcome)
    requires Shadows(codec, s, t) && s.pc.Receive?
    ensures Shadows(codec, Step(StandAlone(codec, true), s, o), Step(Subscribe(codec, false, true), t, o))
  {
    hide CodeAll, ForwardFrame;
    CodedLength(codec, s.cur);
    if s.inbox != [] {
      CodedLength(codec, s.inbox[0]);
      assert CodedAll(codec, s.inbox)[1..] == CodedAll(codec, s.inbox[1..]);
    }
  }

  lemma ShadowOther(codec: Option<Codec>, s: State, t: State, o: Outcome)
    requires Shadows(codec, s, t) && !s.pc.Receive?
    ensures Shadows(codec, Step(StandAlone(codec, true), s, o), Step(Subscribe(codec, false, true), t, o))
  {
    hide CodeAll, ReceiveFrame;
    CodedLength(codec, s.cur);
  }

  lemma NextShadows(codec: Option<Codec>, s: State, t: State, e: Event)
    requires Shadows(codec, s, t)
    ensures Shadows(codec, Next(StandAlone(codec, true), s, e), Next(Subscribe(codec, false, true), t, CodedEvent(codec, e)))
    ensures Polls(s, e) <==> Polls(t, CodedEvent(codec, e))
    ensures Connected(StandAlone(codec, true), s) == Connected(Subscribe(codec, false, true), t)
  {
    hide CodeAll, CodedAll, Step;
    CodedLength(codec, s.cur);
    SameLength(codec, s.inbox);
    match e
    case Arrive(m) => ShadowArrive(codec, s, t, m);
    case Raise(_, _) =>
    case Interrupt =>
    case Tick(o) =>
      if s.pc.Receive? {
        ShadowReceive(codec, s, t, o);
      } else {
        ShadowOther(codec, s, t, o);
      }
  }

  lemma SameLength(codec: Option<Codec>, ms: seq<Message>)
    ensures |CodedAll(codec, ms)| == |ms|
  {
  }

  lemma ShadowInit(codec: Option<Codec>)
    ensures Shadows(codec, Init(StandAlone(codec, true)), Init(Subscribe(codec, false, true)))
  {
  }

  /** Step by step, in every run, subscribe with the coded messages is where
      stand-alone is: same connections, same count, same ways. */
  lemma {:induction false} RunShadows(codec: Option<Codec>, es: seq<Event>)
    ensures Shadows(codec, Exec(StandAlone(codec, true), es), Exec(Subscribe(codec, false, true), CodedEvents(codec, es)))
    ensures RoutesOf(StandAlone(codec, true), es) == RoutesOf(Subscribe(codec, false, true), CodedEvents(codec, es))
  {
    hide Shadows, Next, CodedEvent, Polls, Connected;
    if es == [] {
      assert CodedEvents(codec, es) == [];
      ShadowInit(codec);
    } else {
      var n := |es| - 1;
      RunShadows(codec, es[..n]);
      assert CodedEvents(codec, es)[..n] == CodedEvents(codec, es[..n]);
      NextShadows(codec, Exec(StandAlone(codec, true), es[..n]),
                  Exec(Subscribe(codec, false, true), CodedEvents(codec, es[..n])), es[n]);
    }
  }

  lemma CodedRunFinishes(codec: Option<Codec>, es: seq<Event>)
    requires Finished(StandAlone(codec, true), es)
    ensures Finished(Subscribe(codec, false, true), CodedEvents(codec, es))
    ensures Exec(Subscribe(codec, false, true), CodedEvents(codec, es)).arrived
            == CodedAll(codec, Exec(StandAlone(codec, true), es).arrived)
    ensures RoutesOf(StandAlone(codec, true), es) == RoutesOf(Subscribe(codec, false, true), CodedEvents(codec, es))
  {
    hide Exec, RoutesOf, CodeAll;
    RunShadows(codec, es);
    CodedLength(codec, Exec(StandAlone(codec, true), es).cur);
  }

  lemma SameHistory(codec: Option<Codec>, es: seq<Event>, k: nat)
    requires k <= |es|
    ensures Exec(Subscribe(codec, false, true), CodedEvents(codec, es)[..k]).watch == Exec(StandAlone(codec, true), es[..k]).watch
  {
    hide Exec, RoutesOf, CodeAll;
    RunShadows(codec, es[..k]);
    assert CodedEvents(codec, es)[..k] == CodedEvents(codec, es[..k]);
  }

  /** The refinement: every finished run of stand-alone, with whatever history of
      workers, is matched by runs of client, publish and subscribe, one behind
      the other, of which the last has the same history of workers step by step;
      they send what stand-alone sends, and dump what it dumps exactly when
      coding does not change that. */
  lemma {:induction false} StandAloneRefines(codec: Option<Codec>, endpoints: nat, key: Bytes, alone: seq<Event>)
      returns (client: seq<Event>, publish: seq<Event>, subscribe: seq<Event>)
    requires (codec.Some? ==> Lossless(codec.value)) && endpoints > 0
    requires Finished(StandAlone(codec, true), alone)
    ensures Finished(Client(codec, true, endpoints), client) && AlwaysConnected(Client(codec, true, endpoints), client)
    ensures Finished(Publish(codec, key, false), publish) && Finished(Subscribe(codec, false, true), subscribe)
    ensures Exec(Client(codec, true, endpoints), client).arrived == Exec(StandAlone(codec, true), alone).arrived
    ensures Exec(Publish(codec, key, false), publish).arrived == Whole(Exec(Client(codec, true, endpoints), client).link.wire)
    ensures Exec(Subscribe(codec, false, true), subscribe).arrived
            == Subscribed(SubscribeKey(codec, []), Whole(Exec(Publish(codec, key, false), publish).link.wire))
    ensures |subscribe| == |alone|
            && forall k :: 0 <= k <= |alone| ==>
                 Exec(Subscribe(codec, false, true), subscribe[..k]).watch == Exec(StandAlone(codec, true), alone[..k]).watch
    ensures SameDelivery(codec, alone, Exec(Subscribe(codec, false, true), subscribe).link)
  {
    hide Exec, NoFailures, Drained, Whole, Subscribed, SubscribeKey, AlwaysConnected, RoutesOf, Lossless, SameDelivery, PublishedAll, PartsAll;
    var ms := Exec(StandAlone(codec, true), alone).arrived;
    ArrivedNonEmpty(StandAlone(codec, true), alone);
    client := ConnectedRunExists(Client(codec, true, endpoints), ms);
    WholeMembers(Exec(Client(codec, true, endpoints), client).link.wire);
    publish := ConnectedRunExists(Publish(codec, key, false), Whole(Exec(Client(codec, true, endpoints), client).link.wire));
    ClientThenPublish(codec, endpoints, key, false, client, publish);
    UnkeyedArrivals(codec, key, ms);
    subscribe := CodedEvents(codec, alone);
    CodedRunFinishes(codec, alone);
    forall k | 0 <= k <= |alone|
      ensures Exec(Subscribe(codec, false, true), subscribe[..k]).watch == Exec(StandAlone(codec, true), alone[..k]).watch
    {
      SameHistory(codec, alone, k);
    }
    CodedSubscribe(codec, subscribe, alone);
  }
}
