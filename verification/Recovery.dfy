/** From the broker's loop to the replay tool: what was dumped for lack of a
    connection can be taken out of the file again, message by message. */
module Recovery {
  import opened Common
  import opened Wire
  import opened DumpFormat
  import opened Dump
  import opened Replay
  import opened Send
  import opened Broker
  import opened Routes
  import opened Integrity
  import opened Server

  lemma {:induction false} PartsAllNonEmpty(ms: seq<Message>)
    ensures PartsAll(NonEmpty(ms)) == PartsAll(ms)
  {
    if ms != [] {
      hide Parts;
      var n := |ms| - 1;
      PartsAllNonEmpty(ms[..n]);
      if ms[n] == [] {
        NoParts();
        assert PartsAll(ms[..n]) + [] == PartsAll(ms[..n]);
        assert NonEmpty(ms) == NonEmpty(ms[..n]);
      } else {
        PartsAllSnoc(NonEmpty(ms[..n]), ms[n]);
      }
    }
  }

  /** The dumped messages, as a receiver of the dump would see them. */
  function Saved(cfg: Config, done: seq<Message>, routes: seq<bool>): seq<Message>
    requires |done| == |routes|
  {
    NonEmpty(DumpAll(cfg, Routed(done, routes, false)))
  }

  lemma {:induction false} SavedReplayable(cfg: Config, done: seq<Message>, routes: seq<bool>)
    requires |done| == |routes| && ReplayableAll(done)
    ensures ReplayableAll(Saved(cfg, done, routes))
  {
    if done != [] {
      hide DumpFrames;
      var n := |done| - 1;
      SavedReplayable(cfg, done[..n], routes[..n]);
      var before := Routed(done[..n], routes[..n], false);
      if !routes[n] {
        WireAllSnoc(cfg, before, done[n]);
        NonEmptySnoc(DumpAll(cfg, before), DumpFrames(cfg, done[n]));
        DumpFramesReplayable(cfg, done[n]);
      } else {
        assert before + [] == before;
      }
    }
  }

  lemma DumpFramesReplayable(cfg: Config, m: Message)
    requires Replayables(m)
    ensures DumpFrames(cfg, m) != [] ==> Replayables(DumpFrames(cfg, m))
  {
  }

  /** The log of the dump object, from what the machine says of it. */
  lemma LogOfParts(rs: seq<Record>, ps: seq<Part>)
    requires Marked(rs) && Storable(ps) && FromRecords(rs) == ps
    ensures rs == ToRecords(ps)
  {
    forall i | 0 <= i < |rs|
      ensures rs[i] == ToRecords(ps)[i]
    {
      assert ps[i] == Part(rs[i].payload, rs[i].flags != 0);
    }
  }

  lemma FileIs(sender: Sender, ms: seq<Message>)
    requires sender.Valid() && sender.dump != null && sender.dump.base == []
    requires ReplayableAll(ms) && sender.View().dump == PartsAll(ms)
    ensures Storable(PartsAll(ms)) && sender.dump.Content() == DumpOf(ms)
  {
    hide EncodeAll, PartsAll, FromRecords;
    PartsAllStorable(ms);
    LogOfParts(sender.dump.log, PartsAll(ms));
    assert [] + EncodeAll(sender.dump.log) == EncodeAll(sender.dump.log);
  }

  lemma BetweenRounds(cfg: Config, s: State, a: Account)
    requires Integral(cfg, s, a) && s.pc == Poll && !s.interrupted
    ensures |a.done| == |a.routes| && s.arrived == a.done + s.inbox
    ensures s.link.wire == PartsAll(WireAll(cfg, Routed(a.done, a.routes, true)))
    ensures s.link.dump == PartsAll(Saved(cfg, a.done, a.routes))
  {
    NotReceiving(cfg, s, a);
    hide PartsAll, WireAll, DumpAll, Routed, NonEmpty, Integral;
    BetweenMessages(cfg, s, a);
    PartsAllNonEmpty(DumpAll(cfg, Routed(a.done, a.routes, false)));
  }

  /** Between two rounds that nothing disturbed, the messages taken so far are
      those on the socket and those in a file that as many runs of zlmb-dump as
      it has messages empty, one message each. */
  lemma DumpCanBeReplayed(loop: Loop) returns (done: seq<Message>, routes: seq<bool>)
    requires loop.At(Poll) && IsMode(loop.cfg) && NoFailures(TraceOf(loop.schedule, loop.clock)) && !loop.interrupted
    requires loop.sender.dump != null && loop.sender.dump.base == []
    requires ReplayableAll(loop.arrived)
    ensures |done| == |routes| && loop.arrived == done + loop.inbox
    ensures routes == RoutesOf(loop.cfg, TraceOf(loop.schedule, loop.clock))
    ensures loop.sender.wire == PartsAll(WireAll(loop.cfg, Routed(done, routes, true)))
    ensures var ms := Saved(loop.cfg, done, routes);
            && ReplayableAll(ms) && Storable(PartsAll(ms))
            && loop.sender.dump.Content() == DumpOf(ms)
            && AfterRuns(loop.sender.dump.Content(), |ms|) == []
  {
    hide Integral, Follows, RoutesOf, Exec, TraceOf, PartsAll, DumpAll, WireAll, NonEmpty, Routed, Sender.Valid, Sender.View, AfterRuns, DumpOf, Replayables;
    var a := RunIsIntegral(loop.cfg, TraceOf(loop.schedule, loop.clock));
    FollowsPrefix(loop.Now(Poll), a, RoutesOf(loop.cfg, TraceOf(loop.schedule, loop.clock)));
    BetweenRounds(loop.cfg, loop.Now(Poll), a);
    done, routes := a.done, a.routes;
    var ms := Saved(loop.cfg, done, routes);
    assert forall i :: 0 <= i < |done| ==> loop.arrived[i] == done[i];
    SavedReplayable(loop.cfg, done, routes);
    FileIs(loop.sender, ms);
    RunsEmptyTheFile(ms, |ms|);
    assert loop.sender.wire == loop.sender.View().wire by { WireOfView(loop.sender); }
  }

  lemma WireOfView(sender: Sender)
    ensures sender.wire == sender.View().wire
  {
  }
}
