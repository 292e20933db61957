/** The connection count of the broker loop against the connections that really
    exist (src/app_server.c: `_client_publish_connect`,
    `_subscribe_monitor_connect` and the monitor threads). */
module Connections {
  import opened Common
  import opened Send
  import opened Broker
  import opened Routes
  import opened Integrity

  function Sum(s: seq<int>): int {
    if s == [] then 0 else Sum(s[..|s| - 1]) + s[|s| - 1]
  }

  lemma {:induction false} SumUpdate(s: seq<int>, i: nat, v: int)
    requires i < |s|
    ensures Sum(s[i := v]) == Sum(s) - s[i] + v
  {
    var n := |s| - 1;
    if i == n {
      assert s[i := v][..n] == s[..n];
    } else {
      SumUpdate(s[..n], i, v);
      assert s[i := v][..n] == s[..n][i := v];
    }
  }

  lemma {:induction false} SumBounds(s: seq<int>, low: int, high: int)
    requires forall i :: 0 <= i < |s| ==> low <= s[i] <= high
    requires low <= 0 <= high
    ensures low * |s| <= Sum(s) <= high * |s|
  {
    if s != [] {
      SumBounds(s[..|s| - 1], low, high);
      assert low * |s| == low * (|s| - 1) + low;
      assert high * |s| == high * (|s| - 1) + high;
    }
  }

  lemma {:induction false} SumNonNegative(s: seq<int>)
    requires forall i :: 0 <= i < |s| ==> s[i] >= 0
    ensures Sum(s) >= 0
  {
    if s != [] {
      SumNonNegative(s[..|s| - 1]);
    }
  }

  // ----- successful calls -----

  /** Event `e` counts an endpoint up (or down): the loop is in the critical
      section, and the call, if the mode makes one, succeeds. */
  predicate Counts(cfg: Config, s: State, e: Event, up: bool) {
    && e.Tick? && (e.o.endpointCall || !cfg.dials)
    && (if up then s.pc.LockUp? && s.pc.i < |s.watch.words| else s.pc.LockDown? && s.pc.i < |s.watch.words|)
  }

  function Successes(cfg: Config, es: seq<Event>, up: bool): nat {
    if es == [] then 0
    else
      var n := |es| - 1;
      Successes(cfg, es[..n], up) + (if Counts(cfg, Exec(cfg, es[..n]), es[n], up) then 1 else 0)
  }

  lemma NextCount(cfg: Config, s: State, e: Event)
    ensures Next(cfg, s, e).watch.connect
            == s.watch.connect + (if Counts(cfg, s, e, true) then 1 else 0) - (if Counts(cfg, s, e, false) then 1 else 0)
    ensures |Next(cfg, s, e).watch.words| == |s.watch.words| && |Next(cfg, s, e).watch.live| == |s.watch.live|
  {
    hide ForwardFrame;
  }

  /** In every run the count is the number of successful connects minus that of
      successful disconnects. */
  lemma {:induction false} CountIsDifference(cfg: Config, es: seq<Event>)
    ensures var w := Exec(cfg, es).watch;
            && w.connect == Successes(cfg, es, true) - Successes(cfg, es, false)
            && |w.words| == |w.live| == cfg.endpoints
  {
    hide Next, Counts;
    if es != [] {
      var n := |es| - 1;
      CountIsDifference(cfg, es[..n]);
      NextCount(cfg, Exec(cfg, es[..n]), es[n]);
    }
  }

  // ----- windows -----

  /** A connection can come (go) on socket `i`: an endpoint of the client has at
      most one. */
  predicate Possible(cfg: Config, w: Watch, i: nat, up: bool) {
    && i < |w.words| && i < |w.live|
    && if up then !(cfg.dials && w.live[i] > 0) else w.live[i] > 0
  }

  predicate Closes(cfg: Config, s: State, e: Event, i: nat) {
    (Counts(cfg, s, e, true) || Counts(cfg, s, e, false)) && s.pc.i == i
  }

  /** What happened on socket `i` since its event word was last cleared. */
  function Window(cfg: Config, es: seq<Event>, i: nat): seq<bool> {
    if es == [] then []
    else
      var n := |es| - 1;
      WindowAfter(cfg, Exec(cfg, es[..n]), es[n], i, Window(cfg, es[..n], i))
  }

  function WindowAfter(cfg: Config, s: State, e: Event, i: nat, window: seq<bool>): seq<bool> {
    if e.Raise? && e.i == i && Possible(cfg, s.watch, i, e.up) then window + [e.up]
    else if Closes(cfg, s, e, i) then []
    else window
  }

  /** Connections gained in a window. */
  function Net(window: seq<bool>): int {
    if window == [] then 0 else Net(window[..|window| - 1]) + (if window[|window| - 1] then 1 else -1)
  }

  lemma NetSnoc(window: seq<bool>, up: bool)
    ensures Net(window + [up]) == Net(window) + (if up then 1 else -1)
  {
    assert (window + [up])[..|window|] == window;
  }

  /** By how much the count is wrong after event `e` clears a window, over what
      it was before. */
  function ErrorOf(cfg: Config, s: State, e: Event, window: seq<bool>): int {
    if Counts(cfg, s, e, true) then 1 - Net(window)
    else if Counts(cfg, s, e, false) then -1 - Net(window)
    else 0
  }

  /** The window that the loop is about to clear, if any. */
  function Pending(cfg: Config, es: seq<Event>): seq<bool> {
    var s := Exec(cfg, es);
    if (s.pc.LockUp? || s.pc.LockDown?) && s.pc.i < cfg.endpoints then Window(cfg, es, s.pc.i) else []
  }

  function Errors(cfg: Config, es: seq<Event>): int {
    if es == [] then 0
    else
      var n := |es| - 1;
      var s := Exec(cfg, es[..n]);
      Errors(cfg, es[..n]) + ErrorOf(cfg, s, es[n], Pending(cfg, es[..n]))
  }

  /** The windows of all sockets. */
  function WindowsOf(cfg: Config, es: seq<Event>): (r: seq<seq<bool>>)
    ensures |r| == cfg.endpoints && forall i :: 0 <= i < |r| ==> r[i] == Window(cfg, es, i)
  {
    seq(cfg.endpoints, i requires 0 <= i < cfg.endpoints => Window(cfg, es, i))
  }

  function WindowsAfter(cfg: Config, s: State, e: Event, windows: seq<seq<bool>>): seq<seq<bool>> {
    if e.Raise? && e.i < |windows| then windows[e.i := WindowAfter(cfg, s, e, e.i, windows[e.i])]
    else if (s.pc.LockUp? || s.pc.LockDown?) && s.pc.i < |windows| then windows[s.pc.i := WindowAfter(cfg, s, e, s.pc.i, windows[s.pc.i])]
    else windows
  }

  lemma WindowsSnoc(cfg: Config, es: seq<Event>)
    requires es != []
    ensures var n := |es| - 1;
            WindowsOf(cfg, es) == WindowsAfter(cfg, Exec(cfg, es[..n]), es[n], WindowsOf(cfg, es[..n]))
  {
    hide Exec, Possible;
  }

  /** The connections on every socket when its window began. */
  function Opened(w: Watch, windows: seq<seq<bool>>): (r: seq<int>)
    requires |windows| == |w.live|
    ensures |r| == |w.live| && forall i :: 0 <= i < |r| ==> r[i] == w.live[i] - Net(windows[i])
  {
    seq(|w.live|, i requires 0 <= i < |w.live| => w.live[i] - Net(windows[i]))
  }

  /** The word marks what is in the window; before the window there was no
      negative number of connections, and at most one for an endpoint. */
  predicate Fits(cfg: Config, word: Word, live: nat, window: seq<bool>) {
    && word == Word(true in window, false in window)
    && live - Net(window) >= 0
    && (cfg.dials ==> live <= 1 && live - Net(window) <= 1)
  }

  /** Words, windows, connections and count fit together. */
  ghost predicate Exact(cfg: Config, w: Watch, windows: seq<seq<bool>>, errors: int) {
    && |w.words| == |w.live| == |windows| == cfg.endpoints
    && w.connect == Sum(Opened(w, windows)) + errors
    && forall i :: 0 <= i < cfg.endpoints ==> Fits(cfg, w.words[i], w.live[i], windows[i])
  }

  lemma RaiseFits(cfg: Config, w: Watch, i: nat, up: bool, window: seq<bool>)
    requires Possible(cfg, w, i, up) && Fits(cfg, w.words[i], w.live[i], window)
    ensures var v := RaiseEvent(cfg, w, i, up);
            && Fits(cfg, v.words[i], v.live[i], window + [up])
            && v.live[i] - Net(window + [up]) == w.live[i] - Net(window)
  {
    hide Net;
    NetSnoc(window, up);
  }

  lemma RaiseExact(cfg: Config, w: Watch, i: nat, up: bool, windows: seq<seq<bool>>, errors: int)
    requires Exact(cfg, w, windows, errors) && Possible(cfg, w, i, up)
    ensures Exact(cfg, RaiseEvent(cfg, w, i, up), windows[i := windows[i] + [up]], errors)
  {
    hide Sum, Net, Fits;
    RaiseFits(cfg, w, i, up, windows[i]);
    assert Opened(RaiseEvent(cfg, w, i, up), windows[i := windows[i] + [up]]) == Opened(w, windows);
  }

  lemma CloseExact(cfg: Config, w: Watch, i: nat, up: bool, windows: seq<seq<bool>>, errors: int)
    requires Exact(cfg, w, windows, errors) && i < cfg.endpoints
    ensures Exact(cfg, w.(connect := w.connect + (if up then 1 else -1), words := w.words[i := CLEAR]), windows[i := []],
                  errors + (if up then 1 else -1) - Net(windows[i]))
  {
    hide Sum;
    SumUpdate(Opened(w, windows), i, w.live[i]);
    assert Opened(w.(words := w.words[i := CLEAR]), windows[i := []]) == Opened(w, windows)[i := w.live[i]];
  }

  lemma NextExact(cfg: Config, s: State, e: Event, windows: seq<seq<bool>>, errors: int)
    requires Exact(cfg, s.watch, windows, errors)
    ensures Exact(cfg, Next(cfg, s, e).watch, WindowsAfter(cfg, s, e, windows),
                  errors + ErrorOf(cfg, s, e, if (s.pc.LockUp? || s.pc.LockDown?) && s.pc.i < |windows| then windows[s.pc.i] else []))
  {
    hide Sum, Opened, Fits, ForwardFrame, Net;
    assert forall j :: 0 <= j < |windows| ==> windows[j := windows[j]] == windows;
    match e
    case Raise(i, up) =>
      if Possible(cfg, s.watch, i, up) {
        RaiseExact(cfg, s.watch, i, up, windows, errors);
      }
    case Tick(o) =>
      if s.pc.LockUp? && s.pc.i < |windows| {
        CloseExact(cfg, s.watch, s.pc.i, true, windows, errors);
      } else if s.pc.LockDown? && s.pc.i < |windows| {
        CloseExact(cfg, s.watch, s.pc.i, false, windows, errors);
      }
    case Arrive(_) =>
    case Interrupt =>
  }

  lemma InitExact(cfg: Config)
    ensures Exact(cfg, Init(cfg).watch, WindowsOf(cfg, []), 0)
  {
    SumBounds(Opened(Init(cfg).watch, WindowsOf(cfg, [])), 0, 0);
  }

  /** In every run, whatever fails and whenever events come: the event words mark
      what is in the windows, and the count is the number of connections there
      were when the windows opened, up to the errors made in clearing earlier
      ones. */
  lemma {:induction false} CountExactly(cfg: Config, es: seq<Event>)
    ensures Exact(cfg, Exec(cfg, es).watch, WindowsOf(cfg, es), Errors(cfg, es))
  {
    hide Exact, Next, WindowAfter, WindowsAfter, ErrorOf, WindowsOf;
    if es == [] {
      InitExact(cfg);
    } else {
      var n := |es| - 1;
      var s := Exec(cfg, es[..n]);
      CountExactly(cfg, es[..n]);
      WindowsSnoc(cfg, es);
      NextExact(cfg, s, es[n], WindowsOf(cfg, es[..n]), Errors(cfg, es[..n]));
    }
  }

  predicate NothingPending(w: Watch) {
    forall i :: 0 <= i < |w.words| ==> w.words[i] == CLEAR
  }

  lemma ClearIsEmpty(cfg: Config, w: Watch, windows: seq<seq<bool>>, errors: int, i: nat)
    requires Exact(cfg, w, windows, errors) && i < cfg.endpoints
    ensures w.words[i] == CLEAR <==> windows[i] == []
  {
    hide Sum, Net;
    assert Fits(cfg, w.words[i], w.live[i], windows[i]);
    if windows[i] != [] {
      assert if windows[i][0] then true in windows[i] else false in windows[i];
    }
  }

  /** With no event pending, the count is right exactly when the errors made so
      far add up to nothing. */
  lemma RightExactly(cfg: Config, es: seq<Event>)
    requires NothingPending(Exec(cfg, es).watch)
    ensures var w := Exec(cfg, es).watch;
            w.connect == Sum(w.live) <==> Errors(cfg, es) == 0
  {
    hide Exec, Sum, WindowsOf, Errors;
    CountExactly(cfg, es);
    var w, windows := Exec(cfg, es).watch, WindowsOf(cfg, es);
    forall i | 0 <= i < cfg.endpoints
      ensures windows[i] == []
    {
      ClearIsEmpty(cfg, w, windows, Errors(cfg, es), i);
    }
    assert Opened(w, windows) == w.live;
  }

  // ----- which windows are counted right -----

  ghost predicate Alternating(window: seq<bool>) {
    forall k :: 0 <= k < |window| - 1 ==> window[k] != window[k + 1]
  }

  lemma {:induction false} AlternatingNet(window: seq<bool>)
    requires Alternating(window)
    ensures Net(window) == if |window| % 2 == 0 then 0 else if window[0] then 1 else -1
    ensures window != [] ==> (window[|window| - 1] == window[0] <==> |window| % 2 == 1)
  {
    if window != [] {
      var n := |window| - 1;
      AlternatingNet(window[..n]);
      if n > 0 {
        assert window[n - 1] != window[n];
      }
    }
  }

  /** An endpoint of the client connects and disconnects in turn. */
  ghost predicate Turns(w: Watch, i: nat, window: seq<bool>) {
    Alternating(window) && i < |w.live| && w.live[i] <= 1 && (window != [] ==> (window[|window| - 1] <==> w.live[i] > 0))
  }

  lemma NextTurns(cfg: Config, s: State, e: Event, i: nat, window: seq<bool>)
    requires cfg.dials && Turns(s.watch, i, window)
    ensures Turns(Next(cfg, s, e).watch, i, WindowAfter(cfg, s, e, i, window))
  {
    hide ForwardFrame;
  }

  lemma {:induction false} DialTurns(cfg: Config, es: seq<Event>, i: nat)
    requires cfg.dials && i < cfg.endpoints
    ensures Turns(Exec(cfg, es).watch, i, Window(cfg, es, i))
  {
    if es != [] {
      hide Next, Turns, WindowAfter;
      var n := |es| - 1;
      DialTurns(cfg, es[..n], i);
      NextTurns(cfg, Exec(cfg, es[..n]), es[n], i, Window(cfg, es[..n], i));
    }
  }

  ghost predicate InSection(s: State) {
    && (s.pc.LockUp? ==> s.pc.i < |s.watch.words| && s.watch.words[s.pc.i].up)
    && (s.pc.LockDown? ==> s.pc.i < |s.watch.words| && s.watch.words[s.pc.i].down)
  }

  lemma NextInSection(cfg: Config, s: State, e: Event)
    requires InSection(s)
    ensures InSection(Next(cfg, s, e))
  {
    hide ForwardFrame;
  }

  lemma {:induction false} RunInSection(cfg: Config, es: seq<Event>)
    ensures InSection(Exec(cfg, es))
  {
    if es != [] {
      hide Next, InSection;
      RunInSection(cfg, es[..|es| - 1]);
      NextInSection(cfg, Exec(cfg, es[..|es| - 1]), es[|es| - 1]);
    }
  }

  /** In every run, the window of socket `i` that event `e` clears, with events
      that came after the unlocked test included, is counted right if and only
      if it gained (lost) exactly one connection; for an endpoint of the client,
      exactly when it has an odd number of events and began the way it is
      counted. */
  lemma ClosingExactly(cfg: Config, es: seq<Event>, e: Event, up: bool)
    requires Counts(cfg, Exec(cfg, es), e, up)
    ensures var (s, window) := (Exec(cfg, es), Window(cfg, es, Exec(cfg, es).pc.i));
            && Exec(cfg, es + [e]).watch.connect == s.watch.connect + (if up then 1 else -1)
            && Exec(cfg, es + [e]).watch.words[s.pc.i] == CLEAR
            && up in window
            && (Errors(cfg, es + [e]) == Errors(cfg, es) <==> Net(window) == if up then 1 else -1)
            && (cfg.dials ==>
                (Errors(cfg, es + [e]) == Errors(cfg, es) <==> |window| % 2 == 1 && window[0] == up))
  {
    hide Exec, Sum, Net, WindowsOf, Opened;
    var s := Exec(cfg, es);
    var i := s.pc.i;
    CountIsDifference(cfg, es);
    ExecSnoc(cfg, es, e);
    CountExactly(cfg, es);
    RunInSection(cfg, es);
    ErrorsSnoc(cfg, es, e);
    assert Fits(cfg, s.watch.words[i], s.watch.live[i], WindowsOf(cfg, es)[i]);
    if cfg.dials {
      DialTurns(cfg, es, i);
      AlternatingNet(Window(cfg, es, i));
    }
  }

  lemma ErrorsSnoc(cfg: Config, es: seq<Event>, e: Event)
    ensures Errors(cfg, es + [e]) == Errors(cfg, es) + ErrorOf(cfg, Exec(cfg, es), e, Pending(cfg, es))
  {
    hide Pending, ErrorOf;
    assert (es + [e])[..|es|] == es;
  }

  // ----- one event per window -----

  /** No event is raised for an endpoint whose last event is not cleared yet. */
  predicate OnePerWindow(cfg: Config, es: seq<Event>) {
    es == [] ||
    var (init, last) := (es[..|es| - 1], es[|es| - 1]);
    && OnePerWindow(cfg, init)
    && (last.Raise? ==> var words := Exec(cfg, init).watch.words; last.i < |words| ==> words[last.i] == CLEAR)
  }

  ghost predicate Single(windows: seq<seq<bool>>) {
    forall i :: 0 <= i < |windows| ==> |windows[i]| <= 1
  }

  lemma NextSingle(cfg: Config, s: State, e: Event, windows: seq<seq<bool>>, errors: int)
    requires Exact(cfg, s.watch, windows, errors) && InSection(s) && Single(windows)
    requires e.Raise? && e.i < |s.watch.words| ==> s.watch.words[e.i] == CLEAR
    ensures Single(WindowsAfter(cfg, s, e, windows))
    ensures ErrorOf(cfg, s, e, if (s.pc.LockUp? || s.pc.LockDown?) && s.pc.i < |windows| then windows[s.pc.i] else []) == 0
  {
    hide Sum, Opened;
    if e.Raise? && e.i < |windows| {
      ClearIsEmpty(cfg, s.watch, windows, errors, e.i);
    }
    if (s.pc.LockUp? || s.pc.LockDown?) && s.pc.i < |windows| {
      assert Fits(cfg, s.watch.words[s.pc.i], s.watch.live[s.pc.i], windows[s.pc.i]);
      SingleNet(windows[s.pc.i]);
    }
  }

  lemma SingleNet(window: seq<bool>)
    requires |window| <= 1
    ensures Net(window) == if window == [] then 0 else if window[0] then 1 else -1
    ensures true in window ==> window == [true]
    ensures false in window ==> window == [false]
  {
    if window != [] {
      assert window == [window[0]] && window[..0] == [];
    }
  }

  lemma {:induction false} NoErrors(cfg: Config, es: seq<Event>)
    requires OnePerWindow(cfg, es)
    ensures Single(WindowsOf(cfg, es)) && Errors(cfg, es) == 0
  {
    if es != [] {
      hide Exact, Exec, WindowsAfter, ErrorOf, WindowsOf, InSection, Single;
      var n := |es| - 1;
      NoErrors(cfg, es[..n]);
      CountExactly(cfg, es[..n]);
      RunInSection(cfg, es[..n]);
      WindowsSnoc(cfg, es);
      NextSingle(cfg, Exec(cfg, es[..n]), es[n], WindowsOf(cfg, es[..n]), 0);
      CountIsDifference(cfg, es[..n]);
    }
  }

  /** The connections of socket `i` that the loop has been told of. */
  function Told(w: Watch, i: nat): int
    requires i < |w.words| && i < |w.live|
  {
    var live: int := w.live[i];
    live - (if w.words[i].up then 1 else 0) + (if w.words[i].down then 1 else 0)
  }

  function ToldAll(w: Watch): (r: seq<int>)
    requires |w.words| == |w.live|
    ensures |r| == |w.words| && forall i :: 0 <= i < |r| ==> r[i] == Told(w, i)
  {
    seq(|w.words|, i requires 0 <= i < |w.words| => Told(w, i))
  }

  lemma ToldIsOpened(cfg: Config, w: Watch, windows: seq<seq<bool>>)
    requires Exact(cfg, w, windows, 0) && Single(windows)
    ensures ToldAll(w) == Opened(w, windows)
  {
    hide Sum, Net;
    forall i | 0 <= i < cfg.endpoints
      ensures Told(w, i) == w.live[i] - Net(windows[i])
    {
      SingleNet(windows[i]);
    }
  }

  /** With one event per window the count is, in every reachable state, the
      number of connections up to the events not acted on yet. It never leaves
      0..count for the client, and whenever no event is pending it is the number
      of connections. Calls that fail may be retried any number of times. */
  lemma CountIsRight(cfg: Config, es: seq<Event>)
    requires OnePerWindow(cfg, es)
    ensures var w := Exec(cfg, es).watch;
            && |w.words| == |w.live| == cfg.endpoints
            && w.connect == Sum(ToldAll(w))
            && w.connect >= 0
            && (cfg.dials ==> w.connect <= cfg.endpoints)
            && (NothingPending(w) ==> w.connect == Sum(w.live))
  {
    hide Sum, Exec, WindowsOf, Errors, Net, Single;
    NoErrors(cfg, es);
    CountExactly(cfg, es);
    var w, windows := Exec(cfg, es).watch, WindowsOf(cfg, es);
    ToldIsOpened(cfg, w, windows);
    if cfg.dials {
      SumBounds(ToldAll(w), 0, 1);
    } else {
      SumNonNegative(ToldAll(w));
    }
    if NothingPending(w) {
      assert ToldAll(w) == w.live;
    }
  }

  lemma {:induction false} OnePerWindowPrefix(cfg: Config, es: seq<Event>, k: nat)
    requires OnePerWindow(cfg, es) && k <= |es|
    ensures OnePerWindow(cfg, es[..k])
  {
    hide Exec;
    if k < |es| {
      OnePerWindowPrefix(cfg, es[..|es| - 1], k);
      assert es[..|es| - 1][..k] == es[..k];
    } else {
      assert es[..k] == es;
    }
  }

  /** Where messages go, by the connections there are: in a finished run with one
      event per window, every message lies whole on the socket or whole in the
      dump, and one that was found when no event was pending went to the socket
      if and only if the mode keeps no count or there was a connection. */
  lemma MessagesFollowConnections(cfg: Config, es: seq<Event>, i: nat)
    requires IsMode(cfg) && NoFailures(es) && Drained(Exec(cfg, es)) && OnePerWindow(cfg, es)
    requires i < |Exec(cfg, es).arrived|
    ensures Delivered(cfg, Exec(cfg, es), RoutesOf(cfg, es))
    ensures |PollsOf(cfg, es)| == |Exec(cfg, es).arrived| == |RoutesOf(cfg, es)|
    ensures var k := PollsOf(cfg, es)[i];
            k < |es| && Polls(Exec(cfg, es[..k]), es[k])
            && var w := Exec(cfg, es[..k]).watch;
               NothingPending(w) ==> (RoutesOf(cfg, es)[i] <==> !cfg.watched || Sum(w.live) > 0)
  {
    hide Exec, Sum, Delivered, RoutesOf, PollsOf, NoFailures, OnePerWindow, Polls, Drained;
    DrainedRun(cfg, es);
    DeliveredAll(cfg, Exec(cfg, es), RoutesOf(cfg, es));
    RoutesAtPolls(cfg, es);
    var k := PollsOf(cfg, es)[i];
    OnePerWindowPrefix(cfg, es, k);
    CountIsRight(cfg, es[..k]);
  }

  lemma DeliveredAll(cfg: Config, s: State, routes: seq<bool>)
    requires Delivered(cfg, s, routes)
    ensures |routes| == |s.arrived|
  {
  }
}
