/** Messages stay whole: what a run of the broker without failing calls puts on
    the wire and into the dump, message by message. */
module Integrity {
  import opened Common
  import opened Wire
  import opened DumpFormat
  import opened Dump
  import opened Send
  import opened Broker
  import opened Routes

  /** What all modes have in common: frames can be sent, a mode that dumps has a
      dump, and only modes that never dump and never drop send a key. */
  predicate IsMode(cfg: Config) {
    && Fallback(cfg.codec, cfg.live) == Raw
    && cfg.live != ToDump
    && (cfg.watched ==> cfg.hasDump)
    && (cfg.key.Some? ==> !cfg.watched && !cfg.dropFirst)
  }

  predicate Succeeds(e: Event) {
    e.Tick? ==>
      && !e.o.recvFails && e.o.keySent
      && e.o.calls == Calls(true, true, FileCalls(true, true))
  }

  predicate NoFailures(es: seq<Event>) {
    forall i :: 0 <= i < |es| ==> Succeeds(es[i])
  }

  // ----- what becomes of a message -----

  function CodeFrame(cfg: Config, f: Bytes): Bytes {
    match Coded(cfg.codec, cfg.live, f)
    case None => f
    case Some(b) => b
  }

  /** The message (or the beginning of one) that goes to the dump. */
  function DumpFrames(cfg: Config, m: Message): Message {
    if m != [] && cfg.dropFirst then m[1..] else m
  }

  function CodeAll(cfg: Config, m: Message): Message {
    if m == [] then [] else CodeAll(cfg, m[..|m| - 1]) + [CodeFrame(cfg, m[|m| - 1])]
  }

  /** The message (or the beginning of one) that goes on the wire. */
  function WireFrames(cfg: Config, m: Message): Message {
    if m != [] && cfg.key.Some? then [cfg.key.value] + CodeAll(cfg, m) else CodeAll(cfg, DumpFrames(cfg, m))
  }

  function WireAll(cfg: Config, ms: seq<Message>): seq<Message> {
    if ms == [] then [] else WireAll(cfg, ms[..|ms| - 1]) + [WireFrames(cfg, ms[|ms| - 1])]
  }

  function DumpAll(cfg: Config, ms: seq<Message>): seq<Message> {
    if ms == [] then [] else DumpAll(cfg, ms[..|ms| - 1]) + [DumpFrames(cfg, ms[|ms| - 1])]
  }

  /** The messages that took the route `live`. */
  function Routed(ms: seq<Message>, routes: seq<bool>, live: bool): seq<Message>
    requires |ms| == |routes|
  {
    if ms == [] then []
    else
      var n := |ms| - 1;
      Routed(ms[..n], routes[..n], live) + (if routes[n] == live then [ms[n]] else [])
  }

  lemma RoutedSnoc(ms: seq<Message>, routes: seq<bool>, m: Message, r: bool, live: bool)
    requires |ms| == |routes|
    ensures Routed(ms + [m], routes + [r], live) == Routed(ms, routes, live) + (if r == live then [m] else [])
  {
    assert (ms + [m])[..|ms|] == ms && (routes + [r])[..|ms|] == routes;
  }

  lemma WireAllSnoc(cfg: Config, ms: seq<Message>, m: Message)
    ensures WireAll(cfg, ms + [m]) == WireAll(cfg, ms) + [WireFrames(cfg, m)]
    ensures DumpAll(cfg, ms + [m]) == DumpAll(cfg, ms) + [DumpFrames(cfg, m)]
  {
    assert (ms + [m])[..|ms|] == ms;
  }

  /** The frame that the next one, `f`, of a message puts on the wire. */
  lemma WireFramesSnoc(cfg: Config, m: Message, f: Bytes)
    requires IsMode(cfg)
    ensures WireFrames(cfg, m + [f]) ==
            WireFrames(cfg, m) + (if m == [] && cfg.key.Some? then [cfg.key.value] else [])
            + (if m == [] && cfg.dropFirst then [] else [CodeFrame(cfg, f)])
    ensures DumpFrames(cfg, m + [f]) == DumpFrames(cfg, m) + (if m == [] && cfg.dropFirst then [] else [f])
  {
    hide CodeFrame;
    CodeAllSnoc(cfg, m, f);
    if m == [] {
      assert [] + [f] == [f];
      assert [f][1..] == [];
    } else if cfg.dropFirst {
      CodeAllSnoc(cfg, m[1..], f);
      assert (m + [f])[1..] == m[1..] + [f];
    }
  }

  lemma CodeAllSnoc(cfg: Config, m: Message, f: Bytes)
    ensures CodeAll(cfg, m + [f]) == CodeAll(cfg, m) + [CodeFrame(cfg, f)]
  {
    hide CodeFrame;
    assert (m + [f])[..|m|] == m;
  }

  // ----- the invariant -----

  /** The messages received completely and the route each took, and the frames
      received so far of the current one with its route. */
  datatype Account = Account(done: seq<Message>, routes: seq<bool>, part: Message, live: bool)

  ghost predicate WireIs(cfg: Config, l: Link, a: Account)
    requires |a.done| == |a.routes|
  {
    l.wire == PartsAll(WireAll(cfg, Routed(a.done, a.routes, true)))
              + (if a.live then OpenParts(WireFrames(cfg, a.part)) else [])
  }

  ghost predicate DumpIs(cfg: Config, l: Link, a: Account)
    requires |a.done| == |a.routes|
  {
    l.dump == PartsAll(DumpAll(cfg, Routed(a.done, a.routes, false)))
              + (if a.live then [] else OpenParts(DumpFrames(cfg, a.part)))
  }

  ghost predicate Delivers(cfg: Config, l: Link, a: Account) {
    && |a.done| == |a.routes|
    && WireIs(cfg, l, a)
    && DumpIs(cfg, l, a)
    && l.lost == []
    && l.handle == (!a.live && DumpFrames(cfg, a.part) != [])
  }

  /** Every message lies whole on its route; only an interrupt leaves one
      unfinished. */
  ghost predicate Integral(cfg: Config, s: State, a: Account) {
    && s.arrived == a.done + (if s.cur != [] then [a.part + s.cur] else []) + s.inbox
    && (forall i :: 0 <= i < |s.inbox| ==> s.inbox[i] != [])
    && Delivers(cfg, s.link, a)
    && (a.part == [] <==> s.cur == [])
    && (!a.live ==> cfg.watched)
    && (forall i :: 0 <= i < |a.routes| ==> a.routes[i] || cfg.watched)
    && (s.pc.Receive? ==> s.pc.frames == |a.part| && s.pc.kind == if a.live then cfg.live else ToDump)
    && (!s.pc.Receive? ==> a.part == [] || s.interrupted)
  }

  /** What a frame of the live route does to the link when no call fails. */
  lemma LiveLink(cfg: Config, l: Link, index: nat, p: Part, o: Outcome)
    requires IsMode(cfg) && Succeeds(Tick(o))
    ensures ForwardFrame(cfg, cfg.live, index, p, o, l) ==
            l.(wire := l.wire + Lead(cfg, index) + (if index == 0 && cfg.dropFirst then [] else [Part(CodeFrame(cfg, p.frame), p.more)]))
  {
  }

  /** The key frame, where it is due. */
  function Lead(cfg: Config, index: nat): seq<Part> {
    if index == 0 && cfg.key.Some? then [Part(cfg.key.value, true)] else []
  }

  /** One more frame on the live route. */
  lemma LiveFrame(cfg: Config, l: Link, a: Account, p: Part, o: Outcome)
    requires IsMode(cfg) && Delivers(cfg, l, a) && a.live && Succeeds(Tick(o))
    ensures Delivers(cfg, ForwardFrame(cfg, cfg.live, |a.part|, p, o, l), AfterPart(a, p))
  {
    hide PartsAll, WireAll, DumpAll, Routed, WireFrames, DumpFrames, OpenParts, Parts, ForwardFrame, Lead, CodeFrame;
    LiveLink(cfg, l, |a.part|, p, o);
    WireParts(cfg, a.part, p);
    var w := WireFrames(cfg, a.part + [p.frame]);
    var base := PartsAll(WireAll(cfg, Routed(a.done, a.routes, true)));
    var last := if |a.part| == 0 && cfg.dropFirst then [] else [Part(CodeFrame(cfg, p.frame), p.more)];
    assert base + OpenParts(WireFrames(cfg, a.part)) + Lead(cfg, |a.part|) + last
        == base + (if p.more then OpenParts(w) else Parts(w));
    if !p.more {
      LiveClose(cfg, a, p.frame);
    }
  }

  lemma LiveClose(cfg: Config, a: Account, f: Bytes)
    requires |a.done| == |a.routes| && a.live
    ensures var a' := AfterPart(a, Part(f, false));
            && PartsAll(WireAll(cfg, Routed(a'.done, a'.routes, true)))
               == PartsAll(WireAll(cfg, Routed(a.done, a.routes, true))) + Parts(WireFrames(cfg, a.part + [f]))
            && OpenParts(WireFrames(cfg, a'.part)) == []
            && Routed(a'.done, a'.routes, false) == Routed(a.done, a.routes, false)
  {
    hide PartsAll, WireAll, DumpAll, Routed, WireFrames, DumpFrames, OpenParts, Parts;
    NothingOpen(cfg);
    var m := a.part + [f];
    var before := Routed(a.done, a.routes, true);
    RoutedSnoc(a.done, a.routes, m, true, true);
    RoutedSnoc(a.done, a.routes, m, true, false);
    WireAllSnoc(cfg, before, m);
    PartsAllSnoc(WireAll(cfg, before), WireFrames(cfg, m));
  }

  function AfterPart(a: Account, p: Part): Account {
    if p.more then a.(part := a.part + [p.frame])
    else Account(a.done + [a.part + [p.frame]], a.routes + [a.live], [], a.live)
  }

  lemma NothingOpen(cfg: Config)
    ensures OpenParts(WireFrames(cfg, [])) == [] && OpenParts(DumpFrames(cfg, [])) == [] && DumpFrames(cfg, []) == []
  {
  }

  /** What a frame adds on the wire, for a message that goes on and for one that
      ends with it. */
  lemma WireParts(cfg: Config, m: Message, p: Part)
    requires IsMode(cfg)
    ensures var last := if |m| == 0 && cfg.dropFirst then [] else [Part(CodeFrame(cfg, p.frame), p.more)];
            (if p.more then OpenParts(WireFrames(cfg, m + [p.frame])) else Parts(WireFrames(cfg, m + [p.frame])))
            == OpenParts(WireFrames(cfg, m)) + Lead(cfg, |m|) + last
  {
    hide WireFrames, DumpFrames, OpenParts, Parts, CodeFrame;
    WireFramesSnoc(cfg, m, p.frame);
    NothingOpen(cfg);
    NoParts();
    var w := WireFrames(cfg, m);
    if m == [] && cfg.key.Some? {
      OpenPartsSnoc(w, cfg.key.value);
      OpenPartsSnoc(w + [cfg.key.value], CodeFrame(cfg, p.frame));
    } else if m == [] && cfg.dropFirst {
      EmptyWire(cfg);
    } else {
      OpenPartsSnoc(w, CodeFrame(cfg, p.frame));
      assert w + [] == w;
    }
  }

  lemma EmptyWire(cfg: Config)
    ensures WireFrames(cfg, []) == []
  {
  }

  lemma DumpLink(cfg: Config, l: Link, index: nat, p: Part, o: Outcome)
    requires IsMode(cfg) && cfg.watched && Succeeds(Tick(o))
    ensures ForwardFrame(cfg, ToDump, index, p, o, l) ==
            if index == 0 && cfg.dropFirst then l else l.(dump := l.dump + [p], handle := p.more)
  {
  }

  /** One more frame on the way to the dump. */
  lemma DumpFrame(cfg: Config, l: Link, a: Account, p: Part, o: Outcome)
    requires IsMode(cfg) && Delivers(cfg, l, a) && !a.live && cfg.watched && Succeeds(Tick(o))
    ensures Delivers(cfg, ForwardFrame(cfg, ToDump, |a.part|, p, o, l), AfterPart(a, p))
  {
    hide PartsAll, WireAll, DumpAll, Routed, WireFrames, DumpFrames, OpenParts, Parts, ForwardFrame;
    DumpLink(cfg, l, |a.part|, p, o);
    DumpParts(cfg, a.part, p);
    var d := DumpFrames(cfg, a.part + [p.frame]);
    var base := PartsAll(DumpAll(cfg, Routed(a.done, a.routes, false)));
    var last := if a.part == [] && cfg.dropFirst then [] else [p];
    assert base + OpenParts(DumpFrames(cfg, a.part)) + last == base + (if p.more then OpenParts(d) else Parts(d));
    if !p.more {
      DumpClose(cfg, a, p.frame);
    }
  }

  lemma DumpClose(cfg: Config, a: Account, f: Bytes)
    requires |a.done| == |a.routes| && !a.live
    ensures var a' := AfterPart(a, Part(f, false));
            && PartsAll(DumpAll(cfg, Routed(a'.done, a'.routes, false)))
               == PartsAll(DumpAll(cfg, Routed(a.done, a.routes, false))) + Parts(DumpFrames(cfg, a.part + [f]))
            && OpenParts(DumpFrames(cfg, a'.part)) == [] && DumpFrames(cfg, a'.part) == []
            && Routed(a'.done, a'.routes, true) == Routed(a.done, a.routes, true)
  {
    hide PartsAll, WireAll, DumpAll, Routed, WireFrames, DumpFrames, OpenParts, Parts;
    NothingOpen(cfg);
    var m := a.part + [f];
    var before := Routed(a.done, a.routes, false);
    RoutedSnoc(a.done, a.routes, m, false, false);
    RoutedSnoc(a.done, a.routes, m, false, true);
    WireAllSnoc(cfg, before, m);
    PartsAllSnoc(DumpAll(cfg, before), DumpFrames(cfg, m));
  }

  lemma DumpParts(cfg: Config, m: Message, p: Part)
    requires IsMode(cfg)
    ensures var last := if m == [] && cfg.dropFirst then [] else [p];
            && (if p.more then OpenParts(DumpFrames(cfg, m + [p.frame])) else Parts(DumpFrames(cfg, m + [p.frame])))
               == OpenParts(DumpFrames(cfg, m)) + last
    ensures DumpFrames(cfg, m + [p.frame]) == [] <==> m == [] && cfg.dropFirst
    ensures m == [] ==> DumpFrames(cfg, m) == []
  {
    hide WireFrames, OpenParts, Parts;
    WireFramesSnoc(cfg, m, p.frame);
    NothingOpen(cfg);
    NoParts();
    OpenPartsSnoc(DumpFrames(cfg, m), p.frame);
    if m == [] && cfg.dropFirst {
      assert DumpFrames(cfg, m) + [] == [];
    }
  }

  lemma NextArrived(s: State, done: seq<Message>, part: Message)
    requires Readable(s) && (part == [] <==> s.cur == [])
    requires s.arrived == done + (if s.cur != [] then [part + s.cur] else []) + s.inbox
    ensures var (cur, inbox) := if s.cur != [] then (s.cur, s.inbox) else (s.inbox[0], s.inbox[1..]);
            s.arrived == done + [part + cur] + inbox
  {
    if s.cur == [] {
      assert part + s.inbox[0] == s.inbox[0];
      assert [s.inbox[0]] + s.inbox[1..] == s.inbox;
    }
  }

  /** The frame that is received next. */
  function NextPart(s: State): Part
    requires Readable(s) && (s.cur == [] ==> s.inbox[0] != [])
  {
    var cur := if s.cur != [] then s.cur else s.inbox[0];
    Part(cur[0], |cur| > 1)
  }

  lemma ReceiveIntegral(cfg: Config, s: State, o: Outcome, a: Account)
    requires IsMode(cfg) && Integral(cfg, s, a) && Succeeds(Tick(o))
    requires s.pc.Receive? && Readable(s)
    ensures Integral(cfg, ReceiveFrame(cfg, s, o), AfterPart(a, NextPart(s)))
  {
    hide ForwardFrame, Delivers;
    var (cur, inbox) := if s.cur != [] then (s.cur, s.inbox) else (s.inbox[0], s.inbox[1..]);
    var p := Part(cur[0], |cur| > 1);
    if a.live {
      LiveFrame(cfg, s.link, a, p, o);
    } else {
      DumpFrame(cfg, s.link, a, p, o);
    }
    NextArrived(s, a.done, a.part);
    if p.more {
      assert a.part + [cur[0]] + cur[1..] == a.part + cur;
    } else {
      assert a.part + [cur[0]] == a.part + cur;
    }
  }

  /** The account after one more event. */
  function NextAccount(cfg: Config, s: State, e: Event, a: Account): Account
    requires s.cur == [] && s.inbox != [] ==> s.inbox[0] != []
  {
    if Polls(s, e) then a.(live := Connected(cfg, s))
    else if e.Tick? && s.pc.Receive? && !s.interrupted && Readable(s) then AfterPart(a, NextPart(s))
    else a
  }

  lemma NextIntegral(cfg: Config, s: State, e: Event, a: Account)
    requires IsMode(cfg) && Integral(cfg, s, a) && Succeeds(e)
    ensures Integral(cfg, Next(cfg, s, e), NextAccount(cfg, s, e, a))
  {
    hide ReceiveFrame, Delivers, RaiseEvent, CountUp, CountDown;
    match e
    case Arrive(m) =>
      if m != [] {
        assert s.arrived + [m] == a.done + (if s.cur != [] then [a.part + s.cur] else []) + (s.inbox + [m]);
      }
    case Raise(_, _) =>
    case Interrupt =>
    case Tick(o) =>
      if s.pc.Receive? && !s.interrupted && Readable(s) {
        ReceiveIntegral(cfg, s, o, a);
      } else if Polls(s, e) {
        NewRoute(cfg, s.link, a, Connected(cfg, s));
      }
  }

  lemma NewRoute(cfg: Config, l: Link, a: Account, live: bool)
    requires Delivers(cfg, l, a) && a.part == []
    ensures Delivers(cfg, l, a.(live := live))
  {
    NothingOpen(cfg);
  }

  /** The routes taken are those that the counter chose, `routes`; the last of
      these belongs to a message that is not received completely, or to none. */
  ghost predicate Follows(s: State, a: Account, routes: seq<bool>) {
    || (routes == a.routes && !s.pc.Receive? && s.cur == [])
    || (|routes| == |a.routes| + 1
        && routes[..|a.routes|] == a.routes
        && Readable(s)
        && (s.pc.Receive? || s.interrupted)
        && (s.pc.Receive? || s.cur != [] ==> a.live == routes[|a.routes|]))
  }

  lemma NextFollows(cfg: Config, s: State, e: Event, a: Account, routes: seq<bool>)
    requires IsMode(cfg) && Integral(cfg, s, a) && Succeeds(e) && Follows(s, a, routes)
    ensures Follows(Next(cfg, s, e), NextAccount(cfg, s, e, a), routes + (if Polls(s, e) then [Connected(cfg, s)] else []))
  {
    hide Delivers, ForwardFrame, RaiseEvent, CountUp, CountDown, Connected;
    assert routes + [] == routes;
  }

  lemma NothingYet(cfg: Config) returns (a: Account)
    ensures Integral(cfg, Init(cfg), a) && Follows(Init(cfg), a, [])
  {
    a := Account([], [], [], true);
    NothingOpen(cfg);
  }

  /** Integrity, in every run in which no call fails; and every message goes the
      way that the counter chose when the message was found. */
  lemma {:induction false} RunIsIntegral(cfg: Config, es: seq<Event>) returns (a: Account)
    requires IsMode(cfg) && NoFailures(es)
    ensures Integral(cfg, Exec(cfg, es), a)
    ensures Follows(Exec(cfg, es), a, RoutesOf(cfg, es))
    ensures |a.routes| <= |RoutesOf(cfg, es)| && a.routes == RoutesOf(cfg, es)[..|a.routes|]
  {
    hide Integral, Next, NextAccount, Follows, Polls, Connected;
    if es == [] {
      a := NothingYet(cfg);
    } else {
      var n := |es| - 1;
      var s := Exec(cfg, es[..n]);
      var before := RunIsIntegral(cfg, es[..n]);
      QueueNonEmpty(cfg, s, before);
      NextIntegral(cfg, s, es[n], before);
      NextFollows(cfg, s, es[n], before, RoutesOf(cfg, es[..n]));
      a := NextAccount(cfg, s, es[n], before);
    }
    FollowsPrefix(Exec(cfg, es), a, RoutesOf(cfg, es));
  }

  lemma QueueNonEmpty(cfg: Config, s: State, a: Account)
    requires Integral(cfg, s, a)
    ensures s.inbox != [] ==> s.inbox[0] != []
  {
  }

  lemma FollowsPrefix(s: State, a: Account, routes: seq<bool>)
    requires Follows(s, a, routes)
    ensures |a.routes| <= |routes| && a.routes == routes[..|a.routes|]
    ensures Drained(s) || (!s.interrupted && !s.pc.Receive?) ==> a.routes == routes
  {
  }

  // ----- finished runs -----

  /** Nothing is queued and no message is half received. */
  predicate Drained(s: State) {
    s.inbox == [] && s.cur == []
  }

  /** Every message that arrived lies whole on the route that it took. */
  ghost predicate Delivered(cfg: Config, s: State, routes: seq<bool>) {
    && |routes| == |s.arrived|
    && s.link.wire == PartsAll(WireAll(cfg, Routed(s.arrived, routes, true)))
    && s.link.dump == PartsAll(DumpAll(cfg, Routed(s.arrived, routes, false)))
    && s.link.lost == [] && !s.link.handle
  }

  /** Unless it is in the middle of receiving, a broker that was not interrupted
      has put every message it touched whole on its route. */
  lemma OnlyInterruptsSplit(cfg: Config, es: seq<Event>)
    requires IsMode(cfg) && NoFailures(es)
    requires !Exec(cfg, es).interrupted && !Exec(cfg, es).pc.Receive?
    ensures var s := Exec(cfg, es);
            && s.cur == []
            && Open(s.link.wire) == [] && Open(s.link.dump) == [] && !s.link.handle
  {
    hide Exec, Integral, Open, Whole, PartsAll, WireAll, DumpAll, NoFailures;
    var a := RunIsIntegral(cfg, es);
    NotReceiving(cfg, Exec(cfg, es), a);
    BetweenMessages(cfg, Exec(cfg, es), a);
    WholeOfPartsAll(WireAll(cfg, Routed(a.done, a.routes, true)));
    WholeOfPartsAll(DumpAll(cfg, Routed(a.done, a.routes, false)));
  }

  lemma NotReceiving(cfg: Config, s: State, a: Account)
    requires Integral(cfg, s, a) && !s.interrupted && !s.pc.Receive?
    ensures s.cur == []
  {
  }

  lemma BetweenMessages(cfg: Config, s: State, a: Account)
    requires Integral(cfg, s, a) && s.cur == []
    ensures |a.done| == |a.routes| && s.arrived == a.done + s.inbox
    ensures s.link.wire == PartsAll(WireAll(cfg, Routed(a.done, a.routes, true)))
    ensures s.link.dump == PartsAll(DumpAll(cfg, Routed(a.done, a.routes, false)))
    ensures s.link.lost == [] && !s.link.handle
  {
    hide PartsAll, WireAll, DumpAll, Routed, OpenParts, WireFrames, DumpFrames;
    NothingOpen(cfg);
  }

  /** When the queue is empty, every message that arrived lies whole where the
      counter sent it. */
  lemma DrainedRun(cfg: Config, es: seq<Event>)
    requires IsMode(cfg) && NoFailures(es) && Drained(Exec(cfg, es))
    ensures Delivered(cfg, Exec(cfg, es), RoutesOf(cfg, es))
    ensures !cfg.watched || AlwaysConnected(cfg, es) ==> forall i :: 0 <= i < |RoutesOf(cfg, es)| ==> RoutesOf(cfg, es)[i]
    ensures forall i :: 0 <= i < |Exec(cfg, es).arrived| ==> Exec(cfg, es).arrived[i] != []
  {
    hide PartsAll, WireAll, DumpAll, Exec, Integral, Follows, NoFailures, AlwaysConnected, RoutesOf;
    var a := RunIsIntegral(cfg, es);
    FollowsPrefix(Exec(cfg, es), a, RoutesOf(cfg, es));
    BetweenMessages(cfg, Exec(cfg, es), a);
    assert a.done + [] == a.done;
    if !cfg.watched || AlwaysConnected(cfg, es) {
      AllLive(cfg, es);
    }
    ArrivedNonEmpty(cfg, es);
  }

  lemma {:induction false} ArrivedNonEmpty(cfg: Config, es: seq<Event>)
    ensures forall i :: 0 <= i < |Exec(cfg, es).arrived| ==> Exec(cfg, es).arrived[i] != []
  {
    hide Next;
    if es != [] {
      ArrivedNonEmpty(cfg, es[..|es| - 1]);
      NextArrivals(cfg, Exec(cfg, es[..|es| - 1]), es[|es| - 1]);
    }
  }

  lemma NextArrivals(cfg: Config, s: State, e: Event)
    ensures Next(cfg, s, e).arrived == if e.Arrive? && e.m != [] then s.arrived + [e.m] else s.arrived
  {
    hide ForwardFrame, RaiseEvent, CountUp, CountDown;
  }

  lemma {:induction false} RoutedLive(ms: seq<Message>, routes: seq<bool>)
    requires |ms| == |routes| && forall i :: 0 <= i < |routes| ==> routes[i]
    ensures Routed(ms, routes, true) == ms
    ensures Routed(ms, routes, false) == []
  {
    if ms != [] {
      RoutedLive(ms[..|ms| - 1], routes[..|ms| - 1]);
    }
  }

  lemma {:induction false} RoutedMembers(ms: seq<Message>, routes: seq<bool>, live: bool)
    requires |ms| == |routes| && forall i :: 0 <= i < |ms| ==> ms[i] != []
    ensures forall i :: 0 <= i < |Routed(ms, routes, live)| ==> Routed(ms, routes, live)[i] != []
  {
    if ms != [] {
      RoutedMembers(ms[..|ms| - 1], routes[..|ms| - 1], live);
    }
  }
}
