/** How the forwarding loop ends (src/app_server.c): nothing is received after
    an interrupt or a failed poll, and an interrupted loop gets out. */
module Halting {
  import opened Common
  import opened Broker
  import opened Windows
  import Connections

  predicate Halted(s: State) {
    s.interrupted || s.pc == Stopped
  }

  lemma NextHalted(cfg: Config, s: State, e: Event)
    requires Halted(s)
    ensures var t := Next(cfg, s, e); Halted(t) && t.link == s.link && t.cur == s.cur
    ensures e.Tick? ==> Next(cfg, s, e).inbox == s.inbox
  {
    hide ReceiveFrame, RaiseEvent, CountUp, CountDown;
  }

  /** Whatever happens after an interrupt or a failed poll, no further frame is
      received, sent, dumped or lost. */
  lemma {:induction false} NothingAfterHalt(cfg: Config, es: seq<Event>, fs: seq<Event>)
    requires Halted(Exec(cfg, es))
    ensures var (s, t) := (Exec(cfg, es), Exec(cfg, es + fs)); Halted(t) && t.link == s.link && t.cur == s.cur
    decreases fs
  {
    hide Exec, Next, Halted;
    if fs == [] {
      assert es + fs == es;
    } else {
      var n := |fs| - 1;
      NothingAfterHalt(cfg, es, fs[..n]);
      assert es + fs == (es + fs[..n]) + [fs[n]];
      ExecSnoc(cfg, es + fs[..n], fs[n]);
      NextHalted(cfg, Exec(cfg, es + fs[..n]), fs[n]);
    }
  }

  /** A poll that fails ends the loop. */
  lemma FailedPollHalts(cfg: Config, es: seq<Event>, o: Outcome)
    requires Exec(cfg, es).pc == Poll && o.pollFails
    ensures Exec(cfg, es + [Tick(o)]) == Exec(cfg, es).(pc := Stopped)
  {
    hide Exec;
    ExecSnoc(cfg, es, Tick(o));
  }

  lemma {:induction false} RefreshEnds(cfg: Config, es: seq<Event>, i: nat) returns (fs: seq<Event>)
    requires Exec(cfg, es).pc == TestUp(i)
    ensures Undisturbed(es, fs) && Exec(cfg, fs).pc == Poll && Exec(cfg, fs).interrupted == Exec(cfg, es).interrupted
    decreases if i < cfg.endpoints then cfg.endpoints - i else 0
  {
    hide Exec, ReceiveFrame, Undisturbed, RefreshOne;
    Connections.CountIsDifference(cfg, es);
    if i < cfg.endpoints {
      var gs := RefreshByTicks(cfg, es, i, true, true);
      fs := RefreshEnds(cfg, gs, i + 1);
      UndisturbedTwice(es, gs, fs);
    } else {
      fs := Begin(es);
      fs := LoopStep(cfg, es, fs, true);
    }
  }

  /** Wherever an interrupt finds it, the loop gets out by its own steps. */
  lemma InterruptEnds(cfg: Config, es: seq<Event>) returns (fs: seq<Event>)
    requires Exec(cfg, es).interrupted
    ensures Undisturbed(es, fs) && Exec(cfg, fs).pc == Stopped
  {
    hide Exec, ReceiveFrame, Undisturbed;
    fs := Begin(es);
    if Exec(cfg, fs).pc.LockUp? || Exec(cfg, fs).pc.Receive? {
      fs := LoopStep(cfg, es, fs, true);
    }
    if Exec(cfg, fs).pc.TestDown? {
      fs := LoopStep(cfg, es, fs, true);
    }
    if Exec(cfg, fs).pc.LockDown? {
      fs := LoopStep(cfg, es, fs, true);
    }
    if Exec(cfg, fs).pc.TestUp? {
      var gs := RefreshEnds(cfg, fs, Exec(cfg, fs).pc.i);
      UndisturbedTwice(es, fs, gs);
      fs := gs;
    }
    if Exec(cfg, fs).pc.Poll? {
      fs := LoopStep(cfg, es, fs, true);
    }
  }
}
