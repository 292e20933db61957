/** Runs that get messages through: for every stream of messages and every way
    that each of them may go, each mode has a run, so what is proved of such runs
    is proved of something. */
module Progress {
  import opened Common
  import opened Wire
  import opened Dump
  import opened Send
  import opened Broker
  import opened Routes
  import opened Integrity
  import opened Modes

  /** A step in which every call succeeds. */
  const GOOD := Tick(Outcome(false, false, true, Calls(true, true, FileCalls(true, true)), true))

  lemma More(cfg: Config, es: seq<Event>, e: Event) returns (fs: seq<Event>)
    requires NoFailures(es) && Succeeds(e)
    ensures NoFailures(fs) && Exec(cfg, fs) == Next(cfg, Exec(cfg, es), e)
    ensures RoutesOf(cfg, fs) ==
            if Polls(Exec(cfg, es), e) then RoutesOf(cfg, es) + [Connected(cfg, Exec(cfg, es))] else RoutesOf(cfg, es)
  {
    hide Next, Polls, Connected;
    fs := es + [e];
    assert fs[..|es|] == es;
  }

  /** Nothing to do: the loop is before its poll. */
  predicate Idle(cfg: Config, s: State) {
    && s.pc == Poll && !s.interrupted && s.inbox == [] && s.cur == []
    && Quiet(cfg, s)
  }

  /** No event is pending; a mode that counts has counted the one connection of
      its first socket, or none. */
  predicate Quiet(cfg: Config, s: State) {
    && |s.watch.words| == |s.watch.live| == cfg.endpoints
    && (forall i :: 0 <= i < cfg.endpoints ==> s.watch.words[i] == CLEAR)
    && (cfg.watched ==> cfg.endpoints > 0 && s.watch.live[0] as int == s.watch.connect <= 1)
  }

  /** A refresh in which nothing is pending. */
  lemma {:induction false} QuietRefresh(cfg: Config, es: seq<Event>, i: nat) returns (fs: seq<Event>)
    requires NoFailures(es) && i <= cfg.endpoints
    requires Exec(cfg, es).pc == TestUp(i) && Quiet(cfg, Exec(cfg, es))
    ensures NoFailures(fs) && Exec(cfg, fs) == Exec(cfg, es).(pc := Poll) && RoutesOf(cfg, fs) == RoutesOf(cfg, es)
    decreases cfg.endpoints - i
  {
    hide Exec, NoFailures, ReceiveFrame, RoutesOf, Connected;
    fs := More(cfg, es, GOOD);
    if i < cfg.endpoints {
      fs := More(cfg, fs, GOOD);
      fs := QuietRefresh(cfg, fs, i + 1);
    }
  }

  /** The rest of a message is received. */
  lemma {:induction false} Finish(cfg: Config, es: seq<Event>) returns (fs: seq<Event>)
    requires NoFailures(es)
    requires var s := Exec(cfg, es); s.pc.Receive? && s.cur != [] && !s.interrupted
    ensures NoFailures(fs) && RoutesOf(cfg, fs) == RoutesOf(cfg, es)
    ensures Exec(cfg, fs) == Exec(cfg, es).(cur := [], link := Exec(cfg, fs).link, pc := TestUp(0))
    decreases |Exec(cfg, es).cur|
  {
    hide Exec, NoFailures, ForwardFrame, RoutesOf, Connected;
    fs := More(cfg, es, GOOD);
    if Exec(cfg, fs).cur != [] {
      fs := Finish(cfg, fs);
    }
  }

  /** One more message, from queue to sink. */
  lemma Deliver(cfg: Config, es: seq<Event>, m: Message) returns (fs: seq<Event>)
    requires NoFailures(es) && Idle(cfg, Exec(cfg, es)) && m != []
    ensures NoFailures(fs) && Idle(cfg, Exec(cfg, fs)) && Exec(cfg, fs).arrived == Exec(cfg, es).arrived + [m]
    ensures RoutesOf(cfg, fs) == RoutesOf(cfg, es) + [Connected(cfg, Exec(cfg, es))]
  {
    hide Exec, NoFailures, ForwardFrame, RoutesOf;
    fs := More(cfg, es, Arrive(m));
    assert Exec(cfg, fs).inbox == [m];
    fs := More(cfg, fs, GOOD);
    fs := More(cfg, fs, GOOD);
    if |m| > 1 {
      fs := Finish(cfg, fs);
    }
    fs := QuietRefresh(cfg, fs, 0);
  }

  /** A connection comes or goes, and the loop notices. */
  lemma Switch(cfg: Config, es: seq<Event>, up: bool) returns (fs: seq<Event>)
    requires NoFailures(es) && Idle(cfg, Exec(cfg, es)) && (!cfg.watched ==> up)
    ensures NoFailures(fs) && Idle(cfg, Exec(cfg, fs)) && Connected(cfg, Exec(cfg, fs)) == up
    ensures Exec(cfg, fs).arrived == Exec(cfg, es).arrived && RoutesOf(cfg, fs) == RoutesOf(cfg, es)
  {
    hide Exec, NoFailures, ReceiveFrame, RoutesOf;
    fs := es;
    if Connected(cfg, Exec(cfg, es)) != up {
      fs := More(cfg, fs, Raise(0, up));
      fs := More(cfg, fs, GOOD);
      fs := More(cfg, fs, GOOD);
      fs := More(cfg, fs, GOOD);
      fs := More(cfg, fs, GOOD);
      fs := QuietRefresh(cfg, fs, 1);
    }
  }

  lemma NothingHappened(cfg: Config)
    requires cfg.watched ==> cfg.endpoints > 0
    ensures Idle(cfg, Exec(cfg, [])) && Exec(cfg, []).arrived == [] && RoutesOf(cfg, []) == []
  {
  }

  /** Every stream of messages with every choice of ways has a run without
      failures in which the messages take these ways. */
  lemma {:induction false} RunWithRoutes(cfg: Config, ms: seq<Message>, routes: seq<bool>) returns (es: seq<Event>)
    requires cfg.watched ==> cfg.endpoints > 0
    requires |ms| == |routes| && forall i :: 0 <= i < |ms| ==> ms[i] != [] && (!cfg.watched ==> routes[i])
    ensures NoFailures(es) && Idle(cfg, Exec(cfg, es)) && Exec(cfg, es).arrived == ms && RoutesOf(cfg, es) == routes
  {
    hide Exec, Idle, RoutesOf, Connected;
    if ms == [] {
      NothingHappened(cfg);
      es := [];
    } else {
      var n := |ms| - 1;
      es := RunWithRoutes(cfg, ms[..n], routes[..n]);
      es := Switch(cfg, es, routes[n]);
      es := Deliver(cfg, es, ms[n]);
      assert ms == ms[..n] + [ms[n]] && routes == routes[..n] + [routes[n]];
    }
  }

  lemma IdleIsDrained(cfg: Config, s: State)
    requires Idle(cfg, s)
    ensures Drained(s)
  {
  }

  /** Every stream has a run that is connected throughout, or needs not be. */
  lemma ConnectedRunExists(cfg: Config, ms: seq<Message>) returns (es: seq<Event>)
    requires cfg.watched ==> cfg.endpoints > 0
    requires forall i :: 0 <= i < |ms| ==> ms[i] != []
    ensures Finished(cfg, es) && (cfg.watched ==> AlwaysConnected(cfg, es)) && Exec(cfg, es).arrived == ms
  {
    hide Exec, AlwaysConnected, NoFailures, RoutesOf;
    es := RunWithRoutes(cfg, ms, seq(|ms|, _ => true));
    IdleIsDrained(cfg, Exec(cfg, es));
    if cfg.watched {
      LiveIsConnected(cfg, es);
    }
  }

  lemma {:induction false} SubscribedMembers(prefix: Bytes, ms: seq<Message>)
    ensures forall i :: 0 <= i < |Subscribed(prefix, ms)| ==> Subscribed(prefix, ms)[i] != []
  {
    if ms != [] {
      SubscribedMembers(prefix, ms[..|ms| - 1]);
    }
  }

  lemma {:induction false} WholeMembers(ps: seq<Part>)
    ensures forall i :: 0 <= i < |Whole(ps)| ==> Whole(ps)[i] != []
  {
    if ps != [] {
      WholeMembers(ps[..|ps| - 1]);
    }
  }

  /** Every stream goes through: there are runs of the three stages, one behind
      the other, after which the workers have exactly `Received`. */
  lemma {:induction false} StreamGoesThrough(
      codec: Option<Codec>, endpoints: nat, key: Bytes, sendkey: bool, subkey: Bytes, dropkey: bool, ms: seq<Message>)
      returns (client: seq<Event>, publish: seq<Event>, subscribe: seq<Event>)
    requires (codec.Some? ==> Lossless(codec.value)) && endpoints > 0
    requires forall i :: 0 <= i < |ms| ==> ms[i] != []
    ensures Exec(Client(codec, true, endpoints), client).arrived == ms
    ensures Exec(Publish(codec, key, sendkey), publish).arrived == Whole(Exec(Client(codec, true, endpoints), client).link.wire)
    ensures Exec(Subscribe(codec, dropkey, true), subscribe).arrived
            == Subscribed(SubscribeKey(codec, subkey), Whole(Exec(Publish(codec, key, sendkey), publish).link.wire))
    ensures Whole(Exec(Subscribe(codec, dropkey, true), subscribe).link.wire) == Received(codec, key, sendkey, subkey, dropkey, ms)
  {
    hide Exec, AlwaysConnected, NoFailures, Drained, Whole, Subscribed, SubscribeKey, Received, Lossless;
    var c, p, s := Client(codec, true, endpoints), Publish(codec, key, sendkey), Subscribe(codec, dropkey, true);
    client := ConnectedRunExists(c, ms);
    WholeMembers(Exec(c, client).link.wire);
    publish := ConnectedRunExists(p, Whole(Exec(c, client).link.wire));
    SubscribedMembers(SubscribeKey(codec, subkey), Whole(Exec(p, publish).link.wire));
    subscribe := ConnectedRunExists(s, Subscribed(SubscribeKey(codec, subkey), Whole(Exec(p, publish).link.wire)));
    EndToEnd(codec, endpoints, key, sendkey, subkey, dropkey, client, publish, subscribe);
  }
}
