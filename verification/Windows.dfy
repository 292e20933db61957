/** Refreshes and windows one at a time: what a refresh does, which windows it
    counts right, and runs in which the count goes wrong for good. */
module Windows {
  import opened Common
  import opened Send
  import opened Broker
  import opened Connections

  function TickWith(endpointCall: bool): Event {
    Tick(Outcome(false, false, true, Calls(true, true, Dump.FileCalls(true, true)), endpointCall))
  }

  // ----- a whole refresh -----

  /** The refresh of one socket that no event disturbs. */
  function RefreshOne(cfg: Config, w: Watch, i: nat, upOk: bool, downOk: bool): (r: Watch)
    requires i < |w.words|
    ensures |r.words| == |w.words| && r.live == w.live
    ensures forall j :: 0 <= j < |w.words| && j != i ==> r.words[j] == w.words[j]
  {
    var w1 := if w.words[i].up then CountUp(cfg, w, i, upOk) else w;
    if w1.words[i].down then CountDown(cfg, w1, i, downOk) else w1
  }

  /** `fs` is `es` and then steps of the loop only. */
  predicate Undisturbed(es: seq<Event>, fs: seq<Event>) {
    es <= fs && forall k :: |es| <= k < |fs| ==> fs[k].Tick?
  }

  lemma LoopStep(cfg: Config, es: seq<Event>, fs: seq<Event>, ok: bool) returns (gs: seq<Event>)
    requires Undisturbed(es, fs)
    ensures Undisturbed(es, gs) && Exec(cfg, gs) == Step(cfg, Exec(cfg, fs), TickWith(ok).o)
  {
    hide Exec, Step;
    gs := fs + [TickWith(ok)];
    ExecSnoc(cfg, fs, TickWith(ok));
  }

  /** The loop's steps for one socket, with nothing in between, are `RefreshOne`. */
  lemma RefreshByTicks(cfg: Config, es: seq<Event>, i: nat, upOk: bool, downOk: bool) returns (fs: seq<Event>)
    requires Exec(cfg, es).pc == TestUp(i) && i < |Exec(cfg, es).watch.words|
    ensures Undisturbed(es, fs)
    ensures Exec(cfg, fs) == Exec(cfg, es).(watch := RefreshOne(cfg, Exec(cfg, es).watch, i, upOk, downOk), pc := TestUp(i + 1))
  {
    hide Exec, ReceiveFrame, Undisturbed;
    fs := Begin(es);
    fs := LoopStep(cfg, es, fs, true);
    if Exec(cfg, fs).pc.LockUp? {
      fs := LoopStep(cfg, es, fs, upOk);
    }
    fs := LoopStep(cfg, es, fs, true);
    if Exec(cfg, fs).pc.LockDown? {
      fs := LoopStep(cfg, es, fs, downOk);
    }
  }

  lemma Begin(es: seq<Event>) returns (fs: seq<Event>)
    ensures fs == es && Undisturbed(es, fs)
  {
    fs := es;
  }

  lemma UndisturbedTwice(es: seq<Event>, fs: seq<Event>, gs: seq<Event>)
    requires Undisturbed(es, fs) && Undisturbed(fs, gs)
    ensures Undisturbed(es, gs)
  {
    forall k | |es| <= k < |gs|
      ensures gs[k].Tick?
    {
      if k < |fs| {
        assert fs[k] == gs[k];
      }
    }
  }

  /** With calls that succeed, nothing is left pending on the socket. */
  lemma RefreshClears(cfg: Config, w: Watch, i: nat)
    requires i < |w.words|
    ensures RefreshOne(cfg, w, i, true, true).words[i] == CLEAR
  {
  }

  lemma {:induction false} RefreshFrom(cfg: Config, es: seq<Event>, i: nat) returns (fs: seq<Event>)
    requires i <= cfg.endpoints && Exec(cfg, es).pc == TestUp(i)
    requires forall j :: 0 <= j < i && j < |Exec(cfg, es).watch.words| ==> Exec(cfg, es).watch.words[j] == CLEAR
    ensures Undisturbed(es, fs) && Exec(cfg, fs).pc == Poll && NothingPending(Exec(cfg, fs).watch)
    ensures Exec(cfg, fs) == Exec(cfg, es).(watch := Exec(cfg, fs).watch, pc := Poll)
    ensures Exec(cfg, fs).watch.live == Exec(cfg, es).watch.live
    decreases cfg.endpoints - i
  {
    hide Exec, ReceiveFrame, Undisturbed, RefreshOne;
    CountIsDifference(cfg, es);
    if i < cfg.endpoints {
      RefreshClears(cfg, Exec(cfg, es).watch, i);
      var gs := RefreshByTicks(cfg, es, i, true, true);
      fs := RefreshFrom(cfg, gs, i + 1);
      UndisturbedTwice(es, gs, fs);
    } else {
      fs := Begin(es);
      fs := LoopStep(cfg, es, fs, true);
    }
  }

  lemma {:induction false} StillOnePerWindow(cfg: Config, es: seq<Event>, fs: seq<Event>)
    requires OnePerWindow(cfg, es) && Undisturbed(es, fs)
    ensures OnePerWindow(cfg, fs)
    decreases |fs|
  {
    hide Exec;
    if fs == es {
    } else {
      StillOnePerWindow(cfg, es, fs[..|fs| - 1]);
    }
  }

  /** After a refresh that no event disturbs and in which the calls succeed, no
      event is pending; and with one event per window so far, the count is the
      number of connections. */
  lemma RefreshIsRight(cfg: Config, es: seq<Event>) returns (fs: seq<Event>)
    requires Exec(cfg, es).pc == TestUp(0)
    ensures Undisturbed(es, fs) && Exec(cfg, fs).pc == Poll && NothingPending(Exec(cfg, fs).watch)
    ensures Exec(cfg, fs).watch.live == Exec(cfg, es).watch.live
    ensures OnePerWindow(cfg, es) ==> Exec(cfg, fs).watch.connect == Sum(Exec(cfg, es).watch.live)
  {
    hide Exec, OnePerWindow, Undisturbed, Sum;
    fs := RefreshFrom(cfg, es, 0);
    if OnePerWindow(cfg, es) {
      StillOnePerWindow(cfg, es, fs);
      CountIsRight(cfg, fs);
    }
  }

  // ----- windows in one go -----

  /** Events of socket `i`, with nothing in between. */
  function RaiseAll(cfg: Config, w: Watch, i: nat, window: seq<bool>): Watch {
    if window == [] then w
    else RaiseEvent(cfg, RaiseAll(cfg, w, i, window[..|window| - 1]), i, window[|window| - 1])
  }

  predicate PossibleAll(cfg: Config, w: Watch, i: nat, window: seq<bool>) {
    window == [] ||
    var (init, last) := (window[..|window| - 1], window[|window| - 1]);
    PossibleAll(cfg, w, i, init) && Possible(cfg, RaiseAll(cfg, w, i, init), i, last)
  }

  lemma {:induction false} RaiseAllIs(cfg: Config, w: Watch, i: nat, window: seq<bool>)
    requires i < |w.words| == |w.live| && PossibleAll(cfg, w, i, window)
    ensures var v := RaiseAll(cfg, w, i, window);
            && |v.words| == |v.live| == |w.words| && v.connect == w.connect
            && v.words[i] == Word(w.words[i].up || true in window, w.words[i].down || false in window)
            && v.live[i] as int == w.live[i] as int + Net(window)
  {
    if window != [] {
      var n := |window| - 1;
      RaiseAllIs(cfg, w, i, window[..n]);
      assert window == window[..n] + [window[n]];
    }
  }

  /** What a window counts for, when the refresh comes after it. */
  function CountedFor(window: seq<bool>, upOk: bool, downOk: bool): int {
    if true in window && upOk then 1 else if false in window && downOk then -1 else 0
  }

  /** In every mode, for every window: a refresh that comes after it and clears it
      counts it right if and only if the connections changed by as much as the
      window counts for: by one up if any connection came, otherwise by one down
      if any went. A refresh whose calls fail leaves word and count for the next
      one. */
  lemma WindowExactly(cfg: Config, w: Watch, i: nat, window: seq<bool>, upOk: bool, downOk: bool)
    requires i < |w.words| == |w.live| && w.words[i] == CLEAR && PossibleAll(cfg, w, i, window)
    ensures var v := RaiseAll(cfg, w, i, window);
            && |v.words| == |v.live| == |w.words|
            && var r := RefreshOne(cfg, v, i, upOk, downOk);
               var counted := CountedFor(window, upOk || !cfg.dials, downOk || !cfg.dials);
               && (r.words[i] == CLEAR ==>
                     (r.connect - w.connect == v.live[i] as int - w.live[i] as int
                      <==> v.live[i] as int - w.live[i] as int == counted))
               && (r.words[i] != CLEAR ==> r == v && window != [])
               && (window == [] || counted != 0 <==> r.words[i] == CLEAR)
  {
    hide RaiseAll, PossibleAll, Net;
    RaiseAllIs(cfg, w, i, window);
    if window != [] {
      assert if window[0] then true in window else false in window;
    }
  }

  // ----- events in the gap between test and lock -----

  function Raises(i: nat, gap: seq<bool>): (r: seq<Event>)
    ensures |r| == |gap| && forall k :: 0 <= k < |r| ==> r[k] == Raise(i, gap[k])
  {
    seq(|gap|, k requires 0 <= k < |gap| => Raise(i, gap[k]))
  }

  lemma {:induction false} AfterRaises(cfg: Config, es: seq<Event>, i: nat, gap: seq<bool>)
    requires PossibleAll(cfg, Exec(cfg, es).watch, i, gap)
    ensures Exec(cfg, es + Raises(i, gap)) == Exec(cfg, es).(watch := RaiseAll(cfg, Exec(cfg, es).watch, i, gap))
    ensures Window(cfg, es + Raises(i, gap), i) == Window(cfg, es, i) + gap
  {
    hide Exec, Possible, RaiseEvent, Window;
    if gap == [] {
      assert es + Raises(i, gap) == es;
    } else {
      var n := |gap| - 1;
      var fs := es + Raises(i, gap[..n]);
      AfterRaises(cfg, es, i, gap[..n]);
      assert es + Raises(i, gap) == fs + [Raise(i, gap[n])];
      RaiseNext(cfg, fs, i, gap[n]);
      assert gap == gap[..n] + [gap[n]];
      Associative(Window(cfg, es, i), gap[..n], [gap[n]]);
    }
  }

  lemma RaiseNext(cfg: Config, es: seq<Event>, i: nat, up: bool)
    requires Possible(cfg, Exec(cfg, es).watch, i, up)
    ensures Exec(cfg, es + [Raise(i, up)]) == Exec(cfg, es).(watch := RaiseEvent(cfg, Exec(cfg, es).watch, i, up))
    ensures Window(cfg, es + [Raise(i, up)], i) == Window(cfg, es, i) + [up]
  {
    hide Exec, Possible, RaiseEvent;
    ExecSnoc(cfg, es, Raise(i, up));
    assert (es + [Raise(i, up)])[..|es|] == es;
  }

  /** In every run: the loop has seen the bit of socket `i`, and `gap` happens
      before it holds the lock. The section then clears the events of the gap
      too, and the window is counted right if and only if it and the gap
      together gained (lost) exactly one connection. */
  lemma GapExactly(cfg: Config, es: seq<Event>, i: nat, up: bool, gap: seq<bool>, e: Event)
    requires Counts(cfg, Exec(cfg, es), e, up) && Exec(cfg, es).pc.i == i
    requires PossibleAll(cfg, Exec(cfg, es).watch, i, gap)
    ensures var fs := es + Raises(i, gap);
            && i < |Exec(cfg, fs + [e]).watch.words| && Exec(cfg, fs + [e]).watch.words[i] == CLEAR
            && Exec(cfg, fs + [e]).watch.connect == Exec(cfg, es).watch.connect + (if up then 1 else -1)
            && (Errors(cfg, fs + [e]) == Errors(cfg, fs) <==>
                Net(Window(cfg, es, i)) + Net(gap) == if up then 1 else -1)
  {
    hide Exec, Errors, RaiseAll, PossibleAll, Window, Net;
    AfterRaises(cfg, es, i, gap);
    CountIsDifference(cfg, es);
    RaiseAllIs(cfg, Exec(cfg, es).watch, i, gap);
    CountIsDifference(cfg, es + Raises(i, gap) + [e]);
    ClosingExactly(cfg, es + Raises(i, gap), e, up);
    NetAppend(Window(cfg, es, i), gap);
  }

  lemma {:induction false} NetAppend(a: seq<bool>, b: seq<bool>)
    ensures Net(a + b) == Net(a) + Net(b)
  {
    if b == [] {
      assert a + b == a;
    } else {
      var n := |b| - 1;
      NetAppend(a, b[..n]);
      assert a + b == (a + b[..n]) + [b[n]];
      NetSnoc(a + b[..n], b[n]);
    }
  }

  // ----- runs that count wrong -----

  /** A connection is counted that is gone: connect and disconnect fall into one
      window. */
  lemma CollapsedWindow(codec: Option<Codec>)
    ensures var t := TickWith(true);
            var s := Exec(Client(codec, true, 1), [Raise(0, true), Raise(0, false), t, t, t, t, t]);
            s.watch == Watch([CLEAR], [0], 1) && s.pc == Poll
  {
    hide Exec, ReceiveFrame;
    var cfg, t := Client(codec, true, 1), TickWith(true);
    var es: seq<Event> := [];
    Start(cfg);
    es := Then(cfg, es, Raise(0, true));
    es := Then(cfg, es, Raise(0, false));
    es := Then(cfg, es, t);
    es := Then(cfg, es, t);
    es := Then(cfg, es, t);
    es := Then(cfg, es, t);
    es := Then(cfg, es, t);
    assert es == [Raise(0, true), Raise(0, false), t, t, t, t, t];
  }

  /** The same, when the connection goes in the gap between test and lock. */
  lemma CollapsedGap(codec: Option<Codec>)
    ensures var t := TickWith(true);
            var s := Exec(Client(codec, true, 1), [Raise(0, true), t, t, Raise(0, false), t, t, t]);
            s.watch == Watch([CLEAR], [0], 1) && s.pc == Poll
  {
    hide Exec, ReceiveFrame;
    var cfg, t := Client(codec, true, 1), TickWith(true);
    var es: seq<Event> := [];
    Start(cfg);
    es := Then(cfg, es, Raise(0, true));
    es := Then(cfg, es, t);
    es := Then(cfg, es, t);
    es := Then(cfg, es, Raise(0, false));
    es := Then(cfg, es, t);
    es := Then(cfg, es, t);
    es := Then(cfg, es, t);
    assert es == [Raise(0, true), t, t, Raise(0, false), t, t, t];
  }

  /** Two workers come in one window and are counted as one. */
  lemma TwoCountAsOne(cfg: Config) returns (es: seq<Event>)
    requires !cfg.dials && cfg.endpoints == 1
    ensures var t := TickWith(true);
            es == [Raise(0, true), Raise(0, true), t, t, t, t, t]
    ensures Exec(cfg, es) == Init(cfg).(watch := Watch([CLEAR], [2], 1))
  {
    hide Exec, ReceiveFrame;
    var t := TickWith(true);
    es := [];
    Start(cfg);
    es := Then(cfg, es, Raise(0, true));
    es := Then(cfg, es, Raise(0, true));
    es := Then(cfg, es, t);
    es := Then(cfg, es, t);
    es := Then(cfg, es, t);
    es := Then(cfg, es, t);
    es := Then(cfg, es, t);
  }

  /** When one of them leaves, the loop believes that it has none, and dumps what
      it could send. */
  lemma TwoWorkers(cfg: Config, m: seq<Bytes>)
    requires !cfg.dials && cfg.endpoints == 1 && cfg.watched && m != []
    ensures var t := TickWith(true);
            var s := Exec(cfg, [Raise(0, true), Raise(0, true), t, t, t, t, t, Raise(0, false), t, t, t, t, t, Arrive(m), t]);
            s.watch == Watch([CLEAR], [1], 0) && s.pc == Receive(ToDump, 0)
  {
    hide Exec, ReceiveFrame;
    var t := TickWith(true);
    var es := TwoCountAsOne(cfg);
    es := Then(cfg, es, Raise(0, false));
    es := Then(cfg, es, t);
    es := Then(cfg, es, t);
    es := Then(cfg, es, t);
    es := Then(cfg, es, t);
    es := Then(cfg, es, t);
    assert Exec(cfg, es).watch == Watch([CLEAR], [1], 0) && Exec(cfg, es).pc == Poll;
    es := Then(cfg, es, Arrive(m));
    es := Then(cfg, es, t);
    assert es == [Raise(0, true), Raise(0, true), t, t, t, t, t, Raise(0, false), t, t, t, t, t, Arrive(m), t];
  }

  lemma Start(cfg: Config)
    ensures Exec(cfg, []) == Init(cfg)
    ensures cfg.endpoints == 1 ==> Init(cfg).watch == Watch([CLEAR], [0], 0)
  {
  }

  lemma Then(cfg: Config, es: seq<Event>, e: Event) returns (fs: seq<Event>)
    ensures fs == es + [e] && Exec(cfg, fs) == Next(cfg, Exec(cfg, es), e)
  {
    ExecSnoc(cfg, es, e);
    fs := es + [e];
  }
}
