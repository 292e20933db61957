/** The server modes put together: a message through client, publish and
    subscribe, and the combined modes against the simple ones. All statements
    are about runs of the machine that no failing call disturbs and that have
    emptied their queue. */
module Modes {
  import opened Common
  import opened Wire
  import opened Send
  import opened Broker
  import opened Routes
  import opened Integrity

  /** A run that ends with an empty queue and in which no call failed. */
  ghost predicate Finished(cfg: Config, es: seq<Event>) {
    NoFailures(es) && Drained(Exec(cfg, es))
  }

  // ----- subscriptions -----

  /** The subscription, as set on the SUB socket. */
  function SubscribeKey(codec: Option<Codec>, key: Bytes): Bytes {
    if key == [] then [] else KeyBytes(codec, key)
  }

  /** What a SUB socket lets through: messages whose first frame starts with the
      subscription. */
  function Subscribed(prefix: Bytes, ms: seq<Message>): seq<Message> {
    if ms == [] then []
    else
      var m := ms[|ms| - 1];
      Subscribed(prefix, ms[..|ms| - 1]) + (if m != [] && prefix <= m[0] then [m] else [])
  }

  lemma {:induction false} SubscribedToAll(ms: seq<Message>)
    requires forall i :: 0 <= i < |ms| ==> ms[i] != []
    ensures Subscribed([], ms) == ms
  {
    if ms != [] {
      SubscribedToAll(ms[..|ms| - 1]);
    }
  }

  // ----- frames of whole messages -----

  lemma {:induction false} CodeAllAt(cfg: Config, m: Message)
    ensures |CodeAll(cfg, m)| == |m|
    ensures forall i :: 0 <= i < |m| ==> CodeAll(cfg, m)[i] == CodeFrame(cfg, m[i])
  {
    if m != [] {
      CodeAllAt(cfg, m[..|m| - 1]);
    }
  }

  lemma {:induction false} WireAllAt(cfg: Config, ms: seq<Message>)
    ensures |WireAll(cfg, ms)| == |ms| == |DumpAll(cfg, ms)|
    ensures forall i :: 0 <= i < |ms| ==> WireAll(cfg, ms)[i] == WireFrames(cfg, ms[i]) && DumpAll(cfg, ms)[i] == DumpFrames(cfg, ms[i])
  {
    if ms != [] {
      hide WireFrames, DumpFrames;
      WireAllAt(cfg, ms[..|ms| - 1]);
    }
  }

  /** A mode that drops nothing sends one non-empty message per message. */
  lemma WireNonEmpty(cfg: Config, ms: seq<Message>)
    requires !cfg.dropFirst && forall i :: 0 <= i < |ms| ==> ms[i] != []
    ensures Whole(PartsAll(WireAll(cfg, ms))) == WireAll(cfg, ms)
  {
    hide Whole, Open, PartsAll;
    WireAllAt(cfg, ms);
    forall i | 0 <= i < |ms|
      ensures WireAll(cfg, ms)[i] != []
    {
      CodeAllAt(cfg, ms[i]);
    }
    WholeOfPartsAll(WireAll(cfg, ms));
    NonEmptyKeepsAll(WireAll(cfg, ms));
  }

  /** What a connected run of a mode that drops nothing has sent. */
  lemma ConnectedRun(cfg: Config, es: seq<Event>)
    requires IsMode(cfg) && Finished(cfg, es) && !cfg.dropFirst
    requires !cfg.watched || AlwaysConnected(cfg, es)
    ensures var s := Exec(cfg, es);
            s.link.wire == PartsAll(WireAll(cfg, s.arrived)) && Whole(s.link.wire) == WireAll(cfg, s.arrived)
    ensures forall i :: 0 <= i < |Exec(cfg, es).arrived| ==> Exec(cfg, es).arrived[i] != []
  {
    hide Whole, PartsAll, WireAll, Exec, Routed;
    DrainedRun(cfg, es);
    RoutedLive(Exec(cfg, es).arrived, RoutesOf(cfg, es));
    WireNonEmpty(cfg, Exec(cfg, es).arrived);
  }

  // ----- a message through the three stages -----

  /** The frames that publish makes of what client made of `m`. */
  function Published(codec: Option<Codec>, key: Bytes, sendkey: bool, m: Message): Message {
    (if sendkey then [KeyBytes(codec, key)] else []) + CodeAll(Client(codec, true, 0), m)
  }

  lemma PublishedIs(codec: Option<Codec>, endpoints: nat, key: Bytes, sendkey: bool, m: Message)
    requires m != []
    ensures var sent := WireFrames(Client(codec, true, endpoints), m);
            sent == CodeAll(Client(codec, true, 0), m) && sent != []
            && WireFrames(Publish(codec, key, sendkey), sent) == Published(codec, key, sendkey, m)
            && WireFrames(ClientPublish(codec, key, sendkey), m) == Published(codec, key, sendkey, m)
  {
    hide CodeAll;
    var c := Client(codec, true, endpoints);
    CodeAllAt(c, m);
    SameCoding(c, Client(codec, true, 0), m);
    SameCoding(c, ClientPublish(codec, key, sendkey), m);
    NoCodingAtAll(Publish(codec, key, sendkey), CodeAll(c, m));
  }

  lemma SameCoding(a: Config, b: Config, m: Message)
    requires a.codec == b.codec && a.live == b.live
    ensures CodeAll(a, m) == CodeAll(b, m)
  {
    hide CodeAll;
    CodeAllAt(a, m);
    CodeAllAt(b, m);
  }

  lemma NoCodingAtAll(cfg: Config, m: Message)
    requires cfg.live == Raw
    ensures CodeAll(cfg, m) == m
  {
    hide CodeAll;
    CodeAllAt(cfg, m);
  }

  function PublishedAll(codec: Option<Codec>, key: Bytes, sendkey: bool, ms: seq<Message>): (r: seq<Message>)
    ensures |r| == |ms| && forall i :: 0 <= i < |ms| ==> r[i] == Published(codec, key, sendkey, ms[i])
  {
    seq(|ms|, i requires 0 <= i < |ms| => Published(codec, key, sendkey, ms[i]))
  }

  /** The two stages, message by message. */
  lemma PublishedStream(codec: Option<Codec>, endpoints: nat, key: Bytes, sendkey: bool, ms: seq<Message>)
    requires forall i :: 0 <= i < |ms| ==> ms[i] != []
    ensures WireAll(Publish(codec, key, sendkey), WireAll(Client(codec, true, endpoints), ms)) == PublishedAll(codec, key, sendkey, ms)
    ensures WireAll(ClientPublish(codec, key, sendkey), ms) == PublishedAll(codec, key, sendkey, ms)
  {
    hide WireFrames, Published, CodeAll, WireAll;
    var cc, pc := Client(codec, true, endpoints), Publish(codec, key, sendkey);
    WireAllAt(cc, ms);
    WireAllAt(pc, WireAll(cc, ms));
    WireAllAt(ClientPublish(codec, key, sendkey), ms);
    forall i | 0 <= i < |ms|
      ensures WireFrames(pc, WireFrames(cc, ms[i])) == Published(codec, key, sendkey, ms[i])
      ensures WireFrames(ClientPublish(codec, key, sendkey), ms[i]) == Published(codec, key, sendkey, ms[i])
    {
      PublishedIs(codec, endpoints, key, sendkey, ms[i]);
    }
  }

  /** Client and publish one after the other, as runs. */
  lemma {:induction false} ClientThenPublish(codec: Option<Codec>, endpoints: nat, key: Bytes, sendkey: bool, client: seq<Event>, publish: seq<Event>)
    requires Finished(Client(codec, true, endpoints), client) && AlwaysConnected(Client(codec, true, endpoints), client)
    requires Finished(Publish(codec, key, sendkey), publish)
    requires Exec(Publish(codec, key, sendkey), publish).arrived == Whole(Exec(Client(codec, true, endpoints), client).link.wire)
    ensures var (ms, p) := (Exec(Client(codec, true, endpoints), client).arrived, Exec(Publish(codec, key, sendkey), publish));
            && (forall i :: 0 <= i < |ms| ==> ms[i] != [])
            && Whole(p.link.wire) == PublishedAll(codec, key, sendkey, ms)
            && p.link.wire == PartsAll(PublishedAll(codec, key, sendkey, ms))
  {
    hide Whole, PartsAll, Exec, WireAll, PublishedAll, AlwaysConnected, NoFailures, Drained;
    var cc, pc := Client(codec, true, endpoints), Publish(codec, key, sendkey);
    ConnectedRun(cc, client);
    ConnectedRun(pc, publish);
    PublishedStream(codec, endpoints, key, sendkey, Exec(cc, client).arrived);
  }

  /** client-publish is client followed by publish. */
  lemma {:induction false} ClientPublishIsComposition(
      codec: Option<Codec>, endpoints: nat, key: Bytes, sendkey: bool,
      client: seq<Event>, publish: seq<Event>, combined: seq<Event>)
    requires Finished(Client(codec, true, endpoints), client) && AlwaysConnected(Client(codec, true, endpoints), client)
    requires Finished(Publish(codec, key, sendkey), publish)
    requires Exec(Publish(codec, key, sendkey), publish).arrived == Whole(Exec(Client(codec, true, endpoints), client).link.wire)
    requires Finished(ClientPublish(codec, key, sendkey), combined)
    requires Exec(ClientPublish(codec, key, sendkey), combined).arrived == Exec(Client(codec, true, endpoints), client).arrived
    ensures Exec(ClientPublish(codec, key, sendkey), combined).link.wire == Exec(Publish(codec, key, sendkey), publish).link.wire
  {
    hide Whole, PartsAll, Exec, WireAll, PublishedAll, AlwaysConnected, NoFailures, Drained;
    ClientThenPublish(codec, endpoints, key, sendkey, client, publish);
    ConnectedRun(ClientPublish(codec, key, sendkey), combined);
    PublishedStream(codec, endpoints, key, sendkey, Exec(ClientPublish(codec, key, sendkey), combined).arrived);
  }

  /** Whether the subscription lets the published form of `m` through. */
  predicate Kept(codec: Option<Codec>, key: Bytes, sendkey: bool, subkey: Bytes, m: Message) {
    m != [] && SubscribeKey(codec, subkey) <= Published(codec, key, sendkey, m)[0]
  }

  /** What a worker gets for `m`: the plain frames, with the plain key in front
      when it is sent and not dropped, or without the first frame when there is
      no key to drop. */
  function Unpacked(key: Bytes, sendkey: bool, dropkey: bool, m: Message): Message {
    if sendkey && !dropkey then [key] + m
    else if dropkey && !sendkey && m != [] then m[1..]
    else m
  }

  lemma CodeAllCons(cfg: Config, f: Bytes, m: Message)
    ensures CodeAll(cfg, [f] + m) == [CodeFrame(cfg, f)] + CodeAll(cfg, m)
  {
    hide CodeFrame, CodeAll;
    CodeAllAt(cfg, m);
    CodeAllAt(cfg, [f] + m);
  }

  /** Uncompressing at the subscribe side undoes compressing at the client. */
  lemma Uncode(codec: Option<Codec>, dropkey: bool, m: Message)
    requires codec.Some? ==> Lossless(codec.value)
    ensures CodeAll(Subscribe(codec, dropkey, true), CodeAll(Client(codec, true, 0), m)) == m
  {
    hide CodeAll;
    CodeAllAt(Client(codec, true, 0), m);
    CodeAllAt(Subscribe(codec, dropkey, true), CodeAll(Client(codec, true, 0), m));
  }

  lemma UncodeKey(codec: Option<Codec>, dropkey: bool, key: Bytes)
    requires codec.Some? ==> Lossless(codec.value)
    ensures CodeFrame(Subscribe(codec, dropkey, true), KeyBytes(codec, key)) == key
  {
  }

  lemma UnpackedIs(codec: Option<Codec>, key: Bytes, sendkey: bool, dropkey: bool, m: Message)
    requires m != [] && (codec.Some? ==> Lossless(codec.value))
    ensures WireFrames(Subscribe(codec, dropkey, true), Published(codec, key, sendkey, m)) == Unpacked(key, sendkey, dropkey, m)
    ensures Published(codec, key, sendkey, m) != []
  {
    hide CodeAll, CodeFrame, KeyBytes, Lossless;
    var sub, client := Subscribe(codec, dropkey, true), Client(codec, true, 0);
    var coded := CodeAll(client, m);
    CodeAllAt(client, m);
    Uncode(codec, dropkey, m);
    if sendkey {
      UncodeKey(codec, dropkey, key);
      CodeAllCons(sub, KeyBytes(codec, key), coded);
      assert ([KeyBytes(codec, key)] + coded)[1..] == coded;
    } else {
      assert [] + coded == coded;
      assert m == [m[0]] + m[1..];
      CodeAllCons(client, m[0], m[1..]);
      assert coded[1..] == CodeAll(client, m[1..]);
      Uncode(codec, dropkey, m[1..]);
    }
  }

  /** What the workers get for a stream of messages. */
  function Received(codec: Option<Codec>, key: Bytes, sendkey: bool, subkey: Bytes, dropkey: bool, ms: seq<Message>): seq<Message> {
    if ms == [] then []
    else
      var m := ms[|ms| - 1];
      Received(codec, key, sendkey, subkey, dropkey, ms[..|ms| - 1])
      + (if Kept(codec, key, sendkey, subkey, m) && Unpacked(key, sendkey, dropkey, m) != []
         then [Unpacked(key, sendkey, dropkey, m)] else [])
  }

  lemma SubscribedSnoc(prefix: Bytes, ms: seq<Message>, m: Message)
    ensures Subscribed(prefix, ms + [m]) == Subscribed(prefix, ms) + (if m != [] && prefix <= m[0] then [m] else [])
  {
    assert (ms + [m])[..|ms|] == ms;
  }

  lemma PublishedAllSnoc(codec: Option<Codec>, key: Bytes, sendkey: bool, ms: seq<Message>, m: Message)
    ensures PublishedAll(codec, key, sendkey, ms + [m]) == PublishedAll(codec, key, sendkey, ms) + [Published(codec, key, sendkey, m)]
  {
    hide Published;
  }

  lemma ReceivedSnoc(codec: Option<Codec>, key: Bytes, sendkey: bool, subkey: Bytes, dropkey: bool, ms: seq<Message>, m: Message)
    ensures Received(codec, key, sendkey, subkey, dropkey, ms + [m])
            == Received(codec, key, sendkey, subkey, dropkey, ms)
               + (if Kept(codec, key, sendkey, subkey, m) && Unpacked(key, sendkey, dropkey, m) != []
                  then [Unpacked(key, sendkey, dropkey, m)] else [])
  {
    hide Kept, Unpacked;
    assert (ms + [m])[..|ms|] == ms;
  }

  lemma {:induction false} SubscribeStage(codec: Option<Codec>, key: Bytes, sendkey: bool, subkey: Bytes, dropkey: bool, ms: seq<Message>)
    requires (codec.Some? ==> Lossless(codec.value)) && forall i :: 0 <= i < |ms| ==> ms[i] != []
    ensures NonEmpty(WireAll(Subscribe(codec, dropkey, true), Subscribed(SubscribeKey(codec, subkey), PublishedAll(codec, key, sendkey, ms))))
            == Received(codec, key, sendkey, subkey, dropkey, ms)
  {
    hide Subscribed, PublishedAll, Received, WireAll, NonEmpty, Lossless, SubscribeKey;
    if ms == [] {
      SubscribeNothing(codec, key, sendkey, subkey, dropkey);
    } else {
      var n := |ms| - 1;
      SubscribeStage(codec, key, sendkey, subkey, dropkey, ms[..n]);
      assert ms == ms[..n] + [ms[n]];
      SubscribeNext(codec, key, sendkey, subkey, dropkey, ms[..n], ms[n]);
    }
  }

  lemma SubscribeNothing(codec: Option<Codec>, key: Bytes, sendkey: bool, subkey: Bytes, dropkey: bool)
    ensures NonEmpty(WireAll(Subscribe(codec, dropkey, true), Subscribed(SubscribeKey(codec, subkey), PublishedAll(codec, key, sendkey, []))))
            == Received(codec, key, sendkey, subkey, dropkey, [])
  {
    hide SubscribeKey;
    assert PublishedAll(codec, key, sendkey, []) == [];
  }

  lemma SubscribeNext(codec: Option<Codec>, key: Bytes, sendkey: bool, subkey: Bytes, dropkey: bool, ms: seq<Message>, m: Message)
    requires (codec.Some? ==> Lossless(codec.value)) && m != []
    ensures var (sub, prefix) := (Subscribe(codec, dropkey, true), SubscribeKey(codec, subkey));
            NonEmpty(WireAll(sub, Subscribed(prefix, PublishedAll(codec, key, sendkey, ms)))) == Received(codec, key, sendkey, subkey, dropkey, ms)
            ==> NonEmpty(WireAll(sub, Subscribed(prefix, PublishedAll(codec, key, sendkey, ms + [m]))))
                == Received(codec, key, sendkey, subkey, dropkey, ms + [m])
  {
    hide WireFrames, Published, Unpacked, SubscribeKey, Subscribed, PublishedAll, Received, WireAll, NonEmpty, Lossless;
    var sub, prefix, p := Subscribe(codec, dropkey, true), SubscribeKey(codec, subkey), Published(codec, key, sendkey, m);
    UnpackedIs(codec, key, sendkey, dropkey, m);
    PublishedAllSnoc(codec, key, sendkey, ms, m);
    SubscribedSnoc(prefix, PublishedAll(codec, key, sendkey, ms), p);
    ReceivedSnoc(codec, key, sendkey, subkey, dropkey, ms, m);
    var before := Subscribed(prefix, PublishedAll(codec, key, sendkey, ms));
    WireAllSnoc(sub, before, p);
    NonEmptySnoc(WireAll(sub, before), WireFrames(sub, p));
    assert before + [] == before;
  }

  /** End to end, for every run of the three stages: the workers get exactly
      `Received`. */
  lemma {:induction false} EndToEnd(
      codec: Option<Codec>, endpoints: nat, key: Bytes, sendkey: bool, subkey: Bytes, dropkey: bool,
      client: seq<Event>, publish: seq<Event>, subscribe: seq<Event>)
    requires codec.Some? ==> Lossless(codec.value)
    requires Finished(Client(codec, true, endpoints), client) && AlwaysConnected(Client(codec, true, endpoints), client)
    requires Finished(Publish(codec, key, sendkey), publish)
    requires Exec(Publish(codec, key, sendkey), publish).arrived == Whole(Exec(Client(codec, true, endpoints), client).link.wire)
    requires Finished(Subscribe(codec, dropkey, true), subscribe) && AlwaysConnected(Subscribe(codec, dropkey, true), subscribe)
    requires Exec(Subscribe(codec, dropkey, true), subscribe).arrived
             == Subscribed(SubscribeKey(codec, subkey), Whole(Exec(Publish(codec, key, sendkey), publish).link.wire))
    ensures Whole(Exec(Subscribe(codec, dropkey, true), subscribe).link.wire)
            == Received(codec, key, sendkey, subkey, dropkey, Exec(Client(codec, true, endpoints), client).arrived)
  {
    hide Whole, PartsAll, Exec, WireFrames, Published, AlwaysConnected, Subscribed, Received;
    ClientThenPublish(codec, endpoints, key, sendkey, client, publish);
    var ms := Exec(Client(codec, true, endpoints), client).arrived;
    var sub := Subscribe(codec, dropkey, true);
    DrainedRun(sub, subscribe);
    RoutedLive(Exec(sub, subscribe).arrived, RoutesOf(sub, subscribe));
    WholeOfPartsAll(WireAll(sub, Exec(sub, subscribe).arrived));
    SubscribeStage(codec, key, sendkey, subkey, dropkey, ms);
  }

  // ----- when the way through is the identity -----

  lemma {:induction false} ReceivedAll(codec: Option<Codec>, key: Bytes, sendkey: bool, subkey: Bytes, dropkey: bool, ms: seq<Message>)
    requires forall i :: 0 <= i < |ms| ==> ms[i] != []
    ensures var r := Received(codec, key, sendkey, subkey, dropkey, ms);
            && |r| <= |ms|
            && (|r| == |ms| <==> forall i :: 0 <= i < |ms| ==>
                  Kept(codec, key, sendkey, subkey, ms[i]) && Unpacked(key, sendkey, dropkey, ms[i]) != [])
            && (|r| == |ms| ==> forall i :: 0 <= i < |ms| ==> r[i] == Unpacked(key, sendkey, dropkey, ms[i]))
  {
    hide Kept, Unpacked;
    if ms != [] {
      var n := |ms| - 1;
      var init := ms[..n];
      assert forall i :: 0 <= i < n ==> init[i] == ms[i];
      ReceivedAll(codec, key, sendkey, subkey, dropkey, init);
    }
  }

  /** The stream arrives unchanged, order and boundaries included, exactly when
      the key is dropped if and only if it is sent, and the subscription lets
      every message through. */
  lemma IdentityExactly(codec: Option<Codec>, key: Bytes, sendkey: bool, subkey: Bytes, dropkey: bool, ms: seq<Message>)
    requires ms != [] && forall i :: 0 <= i < |ms| ==> ms[i] != []
    ensures Received(codec, key, sendkey, subkey, dropkey, ms) == ms
            <==> sendkey == dropkey && forall i :: 0 <= i < |ms| ==> Kept(codec, key, sendkey, subkey, ms[i])
  {
    hide Received, Kept;
    ReceivedAll(codec, key, sendkey, subkey, dropkey, ms);
    var r := Received(codec, key, sendkey, subkey, dropkey, ms);
    if r == ms {
      assert r[0] == Unpacked(key, sendkey, dropkey, ms[0]);
    }
  }

  lemma KeyedFirst(codec: Option<Codec>, key: Bytes, subkey: Bytes, m: Message)
    requires m != []
    ensures Kept(codec, key, true, subkey, m) <==> SubscribeKey(codec, subkey) <= KeyBytes(codec, key)
    ensures Unpacked(key, true, true, m) == m
  {
  }

  /** With a key that is sent and dropped, a stream arrives whole or not at all,
      by the keys alone; an empty subscription and an equal key let it pass. */
  lemma {:induction false} KeyDecides(codec: Option<Codec>, key: Bytes, subkey: Bytes, ms: seq<Message>)
    requires forall i :: 0 <= i < |ms| ==> ms[i] != []
    ensures Received(codec, key, true, subkey, true, ms) == if SubscribeKey(codec, subkey) <= KeyBytes(codec, key) then ms else []
    ensures subkey == [] || subkey == key ==> SubscribeKey(codec, subkey) <= KeyBytes(codec, key)
  {
    if ms != [] {
      hide Kept, Unpacked, KeyBytes;
      var n := |ms| - 1;
      KeyDecides(codec, key, subkey, ms[..n]);
      KeyedFirst(codec, key, subkey, ms[n]);
      assert ms == ms[..n] + [ms[n]];
    }
  }
}
