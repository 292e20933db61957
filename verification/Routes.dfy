/** Which way a message goes: the counter of connections decides it when the
    poll finds the message (src/app_server.c: `connect > 0`). */
module Routes {
  import opened Common
  import opened Send
  import opened Broker

  /** The test of the counter, in the modes that have one. */
  predicate Connected(cfg: Config, s: State) {
    !cfg.watched || s.watch.connect > 0
  }

  /** Whether event `e` is a poll that finds a message. */
  predicate Polls(s: State, e: Event) {
    e.Tick? && s.pc.Poll? && !s.interrupted && !e.o.pollFails && Readable(s)
  }

  /** The polls of a run that found a message: the events before each. */
  function PollsOf(cfg: Config, es: seq<Event>): seq<nat> {
    if es == [] then []
    else
      var n := |es| - 1;
      PollsOf(cfg, es[..n]) + (if Polls(Exec(cfg, es[..n]), es[n]) then [n] else [])
  }

  /** What the counter said at each of them: true for live, false for the dump. */
  function RoutesOf(cfg: Config, es: seq<Event>): seq<bool> {
    if es == [] then []
    else
      var n := |es| - 1;
      var s := Exec(cfg, es[..n]);
      RoutesOf(cfg, es[..n]) + (if Polls(s, es[n]) then [Connected(cfg, s)] else [])
  }

  lemma {:induction false} RoutesAtPolls(cfg: Config, es: seq<Event>)
    ensures |RoutesOf(cfg, es)| == |PollsOf(cfg, es)|
    ensures forall i :: 0 <= i < |PollsOf(cfg, es)| ==>
              var k := PollsOf(cfg, es)[i];
              k < |es| && Polls(Exec(cfg, es[..k]), es[k]) && RoutesOf(cfg, es)[i] == Connected(cfg, Exec(cfg, es[..k]))
  {
    if es != [] {
      hide Exec, Polls, Connected;
      var n := |es| - 1;
      RoutesAtPolls(cfg, es[..n]);
      forall k: nat | k < n
        ensures es[..n][..k] == es[..k] && es[..n][k] == es[k]
      {
      }
    }
  }

  lemma NextKind(cfg: Config, s: State, e: Event)
    requires s.pc.Receive? ==> s.pc.kind == if Connected(cfg, s) then cfg.live else ToDump
    ensures var t := Next(cfg, s, e);
            t.pc.Receive? ==> t.pc.kind == (if Connected(cfg, t) then cfg.live else ToDump) && (Polls(s, e) || s.pc.Receive?)
    ensures Next(cfg, s, e).pc.Receive? ==> Next(cfg, s, e).watch.connect == s.watch.connect
  {
    hide ForwardFrame;
  }

  /** In every reachable state in which a message is received, its frames are sent
      live if the mode has no counter or the counter is positive, and dumped if
      not; the counter does not change before the message is received. */
  lemma {:induction false} KindByCounter(cfg: Config, es: seq<Event>)
    ensures var s := Exec(cfg, es);
            s.pc.Receive? ==> s.pc.kind == if !cfg.watched || s.watch.connect > 0 then cfg.live else ToDump
  {
    if es != [] {
      hide Next;
      var n := |es| - 1;
      KindByCounter(cfg, es[..n]);
      NextKind(cfg, Exec(cfg, es[..n]), es[n]);
    }
  }

  /** Whenever a message is received, a connection has been counted. */
  predicate AlwaysConnected(cfg: Config, es: seq<Event>) {
    (es == [] || AlwaysConnected(cfg, es[..|es| - 1]))
    && (Exec(cfg, es).pc.Receive? ==> Exec(cfg, es).watch.connect > 0)
  }

  lemma PollKeepsCounter(cfg: Config, s: State, e: Event)
    requires Polls(s, e)
    ensures Next(cfg, s, e).pc.Receive? && Next(cfg, s, e).watch == s.watch
  {
  }

  /** A message that is being received is the last one found. */
  lemma {:induction false} ReceivesLastPolled(cfg: Config, es: seq<Event>)
    requires Exec(cfg, es).pc.Receive?
    ensures RoutesOf(cfg, es) != []
    ensures RoutesOf(cfg, es)[|RoutesOf(cfg, es)| - 1] == Connected(cfg, Exec(cfg, es))
  {
    hide Next, Polls;
    if es == [] {
      NotReceivingYet(cfg);
    } else {
      var n := |es| - 1;
      KindByCounter(cfg, es[..n]);
      NextKind(cfg, Exec(cfg, es[..n]), es[n]);
      if !Polls(Exec(cfg, es[..n]), es[n]) {
        ReceivesLastPolled(cfg, es[..n]);
      }
    }
  }

  lemma NotReceivingYet(cfg: Config)
    ensures !Exec(cfg, []).pc.Receive?
  {
  }

  /** If all messages go live, there always was a connection. */
  lemma {:induction false} LiveIsConnected(cfg: Config, es: seq<Event>)
    requires cfg.watched && forall i :: 0 <= i < |RoutesOf(cfg, es)| ==> RoutesOf(cfg, es)[i]
    ensures AlwaysConnected(cfg, es)
  {
    hide Exec, Polls;
    if es != [] {
      var init := es[..|es| - 1];
      assert RoutesOf(cfg, init) <= RoutesOf(cfg, es);
      LiveIsConnected(cfg, init);
    }
    if Exec(cfg, es).pc.Receive? {
      ReceivesLastPolled(cfg, es);
    }
  }

  /** Then all messages go live. */
  lemma {:induction false} AllLive(cfg: Config, es: seq<Event>)
    requires !cfg.watched || AlwaysConnected(cfg, es)
    ensures forall i :: 0 <= i < |RoutesOf(cfg, es)| ==> RoutesOf(cfg, es)[i]
  {
    if es != [] {
      hide Next, Polls;
      var n := |es| - 1;
      AllLive(cfg, es[..n]);
      if Polls(Exec(cfg, es[..n]), es[n]) {
        PollKeepsCounter(cfg, Exec(cfg, es[..n]), es[n]);
      }
    }
  }
}
