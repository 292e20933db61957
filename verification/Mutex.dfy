/** Mutual exclusion among the threads of the client (src/app_server.c: `_mutex`):
    the critical sections of backend and monitors never overlap, which is what
    lets them be taken for single steps elsewhere. */
module Mutex {
  import opened Handshake

  /** Who can be inside `_mutex`: main and the backend together while they set
      up, main between its second lock and its unlock, the backend in a refresh,
      a monitor marking an event, the extra monitor doing so. */
  datatype Holder = Setup | MainThread | BackendThread | MonitorThread(i: nat) | ExtraThread

  predicate Holds(s: State, who: Holder) {
    match who
    case Setup => (s.main == Create || s.main == Relock) && !Released(s.backend)
    case MainThread => s.main == Unlock
    case BackendThread => s.backend == Refreshing
    case MonitorThread(i) => i < |s.monitors| && s.monitors[i] == Marking
    case ExtraThread => s.extra == Marking
  }

  /** The mutex is held if and only if somebody is inside, and never by two. */
  ghost predicate Exclusive(s: State) {
    && (forall a, b :: Holds(s, a) && Holds(s, b) ==> a == b)
    && (s.mutex <==> exists a :: Holds(s, a))
  }

  lemma FreeIsEmpty(s: State)
    requires Exclusive(s) && !s.mutex
    ensures forall who :: !Holds(s, who)
  {
  }

  /** Nobody was inside, and `who` enters. */
  lemma Enters(s: State, t: State, who: Holder)
    requires Exclusive(s) && !s.mutex && t.mutex && Holds(t, who)
    requires forall a :: a != who && Holds(t, a) ==> Holds(s, a)
    ensures Exclusive(t)
  {
    FreeIsEmpty(s);
  }

  /** `who` was inside, and leaves. */
  lemma Leaves(s: State, t: State, who: Holder)
    requires Exclusive(s) && Holds(s, who) && !t.mutex && !Holds(t, who)
    requires forall a :: a != who && Holds(t, a) ==> Holds(s, a)
    ensures Exclusive(t)
  {
  }

  lemma Stays(s: State, t: State)
    requires Exclusive(s) && s.mutex == t.mutex && forall a :: Holds(t, a) <==> Holds(s, a)
    ensures Exclusive(t)
  {
  }

  lemma MainExcludes(n: nat, s: State, ok: bool)
    requires Wellformed(n, s) && Waits(n, s) && Exclusive(s)
    ensures Exclusive(StepMain(s, ok))
  {
    hide Exclusive;
    var t := StepMain(s, ok);
    if s.main == Lock && !s.mutex {
      Enters(s, t, Setup);
    } else if s.main == Relock && !s.mutex {
      FreeIsEmpty(s);
      assert !Holds(s, Setup);
      Enters(s, t, MainThread);
    } else if s.main == Unlock {
      Leaves(s, t, MainThread);
    } else {
      Stays(s, t);
    }
  }

  lemma BackendExcludes(n: nat, s: State, ok: bool)
    requires Wellformed(n, s) && Waits(n, s) && Starts(n, s) && Exclusive(s)
    ensures Exclusive(StepBackend(n, s, ok))
  {
    hide Exclusive, Starts;
    var t := StepBackend(n, s, ok);
    if s.backend == Finish || s.backend == FinishFailed {
      Leaves(s, t, Setup);
    } else if s.backend == Running && !s.interrupted && ok && !s.mutex {
      Enters(s, t, BackendThread);
    } else if s.backend == Refreshing {
      Leaves(s, t, BackendThread);
    } else {
      SpawnMarksNothing(n, s, ok);
      Stays(s, t);
    }
  }

  lemma SpawnMarksNothing(n: nat, s: State, ok: bool)
    requires Wellformed(n, s) && Starts(n, s)
    ensures forall i :: 0 <= i < n ==> (StepBackend(n, s, ok).monitors[i] == Marking <==> s.monitors[i] == Marking)
  {
  }

  lemma MonitorExcludes(n: nat, s: State, i: nat, ok: bool)
    requires Wellformed(n, s) && Exclusive(s)
    ensures Exclusive(Next(n, s, MonitorStep(i, ok)))
  {
    hide Exclusive;
    var t := Next(n, s, MonitorStep(i, ok));
    if i >= n {
    } else if s.monitors[i] == Watching && t.monitors[i] == Marking {
      Enters(s, t, MonitorThread(i));
    } else if s.monitors[i] == Marking {
      Leaves(s, t, MonitorThread(i));
    } else {
      Stays(s, t);
    }
  }

  lemma ExtraExcludes(n: nat, s: State, ok: bool)
    requires Wellformed(n, s) && Exclusive(s)
    ensures Exclusive(Next(n, s, ExtraStep(ok)))
  {
    hide Exclusive;
    var t := Next(n, s, ExtraStep(ok));
    if s.extra == Watching && t.extra == Marking {
      Enters(s, t, ExtraThread);
    } else if s.extra == Marking {
      Leaves(s, t, ExtraThread);
    } else {
      Stays(s, t);
    }
  }

  lemma NobodyAtStart(n: nat)
    ensures Exclusive(Init(n))
  {
    assert forall a :: !Holds(Init(n), a);
  }

  lemma InvParts(n: nat, s: State)
    requires Wellformed(n, s) && Inv(n, s)
    ensures Waits(n, s) && Starts(n, s)
  {
  }

  /** Mutual exclusion, in every reachable state, for any number of endpoints. */
  lemma {:induction false} MutualExclusion(n: nat, es: seq<Step>)
    ensures Exclusive(Exec(n, es))
  {
    if es == [] {
      NobodyAtStart(n);
    } else {
      hide Exclusive, Inv, Waits, Starts, StepMain, StepBackend, StepMonitor;
      var s, e := Exec(n, es[..|es| - 1]), es[|es| - 1];
      MutualExclusion(n, es[..|es| - 1]);
      RunKeeps(n, es[..|es| - 1]);
      InvParts(n, s);
      match e
      case MainStep(ok) => MainExcludes(n, s, ok);
      case BackendStep(ok) => BackendExcludes(n, s, ok);
      case MonitorStep(i, ok) => MonitorExcludes(n, s, i, ok);
      case ExtraStep(ok) => ExtraExcludes(n, s, ok);
      case Signal => Stays(s, s.(interrupted := true));
    }
  }

  /** Spelt out: of main between lock and unlock, the backend in a refresh, and
      the monitors marking events at most one is there, and whoever is there has
      the mutex; once main was let go, the mutex is held by one of them or free. */
  lemma SectionsExclude(n: nat, es: seq<Step>)
    ensures var s := Exec(n, es);
            && (forall i, j :: 0 <= i < n && 0 <= j < n && s.monitors[i] == Marking && s.monitors[j] == Marking ==> i == j)
            && (forall i :: 0 <= i < n && s.monitors[i] == Marking ==>
                  s.mutex && s.main != Unlock && s.backend != Refreshing && s.extra != Marking)
            && (s.backend == Refreshing ==> s.mutex && s.main != Unlock && s.extra != Marking)
            && (s.main == Unlock ==> s.mutex && s.extra != Marking)
            && (s.extra == Marking ==> s.mutex)
            && (Released(s.backend) && s.mutex ==>
                  s.main == Unlock || s.backend == Refreshing || s.extra == Marking
                  || exists i :: 0 <= i < n && s.monitors[i] == Marking)
  {
    hide Exec;
    MutualExclusion(n, es);
    var s := Exec(n, es);
    forall i | 0 <= i < n && s.monitors[i] == Marking
      ensures Holds(s, MonitorThread(i))
    {
    }
    assert s.backend == Refreshing ==> Holds(s, BackendThread);
    assert s.main == Unlock ==> Holds(s, MainThread);
    assert s.extra == Marking ==> Holds(s, ExtraThread);
    forall i, j | 0 <= i < n && 0 <= j < n && s.monitors[i] == Marking && s.monitors[j] == Marking
      ensures i == j
    {
      assert MonitorThread(i) == MonitorThread(j);
    }
    if Released(s.backend) && s.mutex {
      var who :| Holds(s, who);
      if who.MonitorThread? {
        assert s.monitors[who.i] == Marking;
      }
    }
  }

  // ----- the order of starting and giving up -----

  /** Between its creation and giving back `_mutex_monitor`. */
  predicate StartingUp(m: Monitor) {
    m == Starting || m == Broken || m == BrokenRelease || m == Release
  }

  /** Monitors start one after the other: while one does, the backend waits for
      it, and no other one is starting. */
  lemma OneStartsAtATime(n: nat, es: seq<Step>, i: nat)
    requires i < n && StartingUp(Exec(n, es).monitors[i])
    requires !Released(Exec(n, es).backend) && Exec(n, es).backend != Fail && Exec(n, es).backend != FinishFailed && Exec(n, es).backend != JoinAll
    ensures Exec(n, es).backend == Await(i)
    ensures forall j :: 0 <= j < n && j != i ==> !StartingUp(Exec(n, es).monitors[j])
  {
    hide Exec;
    RunKeeps(n, es);
  }

  ghost predicate Joined(n: nat, s: State)
    requires Wellformed(n, s)
  {
    s.backend == Fail || s.backend == FinishFailed ==> forall i :: 0 <= i < n ==> s.monitors[i] == Idle || s.monitors[i] == Over
  }

  lemma NextJoined(n: nat, s: State, e: Step)
    requires Wellformed(n, s) && Starts(n, s) && Waits(n, s) && Joined(n, s)
    ensures Joined(n, Next(n, s, e))
  {
  }

  /** When setting up failed, no monitor is left running before main is let go. */
  lemma {:induction false} TeardownJoins(n: nat, es: seq<Step>)
    ensures Joined(n, Exec(n, es))
  {
    if es != [] {
      hide Next, Inv, Waits, Starts;
      TeardownJoins(n, es[..|es| - 1]);
      RunKeeps(n, es[..|es| - 1]);
      InvParts(n, Exec(n, es[..|es| - 1]));
      NextJoined(n, Exec(n, es[..|es| - 1]), es[|es| - 1]);
    }
  }

  // ----- after an interrupt -----

  lemma MonitorAfterInterrupt(m: Monitor, s: State, ok: bool)
    requires s.interrupted
    ensures StepMonitor(m, s, ok).interrupted
    ensures StepMonitor(m, s, ok).monitor == Marking ==> m == Marking
  {
  }

  lemma BackendAfterInterrupt(n: nat, s: State, ok: bool)
    requires Wellformed(n, s) && s.interrupted
    ensures var t := StepBackend(n, s, ok);
            && t.interrupted && t.extra == s.extra
            && (t.backend == Refreshing ==> s.backend == Refreshing)
            && (forall i :: 0 <= i < n && t.monitors[i] == Marking ==> s.monitors[i] == Marking)
  {
  }

  lemma NextAfterInterrupt(n: nat, s: State, e: Step)
    requires Wellformed(n, s) && s.interrupted
    ensures var t := Next(n, s, e);
            && t.interrupted
            && (forall i :: 0 <= i < n && t.monitors[i] == Marking ==> s.monitors[i] == Marking)
            && (t.extra == Marking ==> s.extra == Marking)
            && (t.backend == Refreshing ==> s.backend == Refreshing)
  {
    hide StepMonitor, StepBackend;
    match e
    case MainStep(_) =>
    case BackendStep(ok) => BackendAfterInterrupt(n, s, ok);
    case MonitorStep(i, ok) =>
      if i < n { MonitorAfterInterrupt(s.monitors[i], s, ok); }
    case ExtraStep(ok) => MonitorAfterInterrupt(s.extra, s, ok);
    case Signal =>
  }

  /** Nobody enters a critical section after an interrupt but to leave it: no
      event is marked and nothing is counted that was not under way. */
  lemma {:induction false} NothingEnteredAfterInterrupt(n: nat, es: seq<Step>, fs: seq<Step>)
    requires Exec(n, es).interrupted
    ensures var (s, t) := (Exec(n, es), Exec(n, es + fs));
            && t.interrupted
            && (forall i :: 0 <= i < n && t.monitors[i] == Marking ==> s.monitors[i] == Marking)
            && (t.extra == Marking ==> s.extra == Marking)
            && (t.backend == Refreshing ==> s.backend == Refreshing)
    decreases fs
  {
    hide Exec, Next;
    if fs == [] {
      assert es + fs == es;
    } else {
      var k := |fs| - 1;
      NothingEnteredAfterInterrupt(n, es, fs[..k]);
      assert es + fs == (es + fs[..k]) + [fs[k]];
      ExecSnoc(n, es + fs[..k], fs[k]);
      NextAfterInterrupt(n, Exec(n, es + fs[..k]), fs[k]);
    }
  }

  /** Steps that a monitor may still take. */
  function Distance(m: Monitor): nat {
    match m
    case Idle => 0
    case Over => 0
    case Watching => 1
    case BrokenRelease => 1
    case Marking => 2
    case Release => 2
    case Broken => 2
    case Starting => 3
  }

  lemma MonitorAdvances(m: Monitor, s: State, ok: bool)
    requires s.interrupted && m != Idle && m != Over
    ensures Distance(StepMonitor(m, s, ok).monitor) < Distance(m) && StepMonitor(m, s, ok).monitor != Idle
    ensures StepMonitor(m, s, ok).interrupted
  {
  }

  /** After an interrupt every monitor ends by its own steps, whatever their
      outcome, and waits for nobody. */
  lemma {:induction false} InterruptEndsMonitors(n: nat, es: seq<Step>, i: nat, ok: bool) returns (fs: seq<Step>)
    requires i < n && Exec(n, es).interrupted && Exec(n, es).monitors[i] != Idle
    ensures es <= fs && forall k :: |es| <= k < |fs| ==> fs[k] == MonitorStep(i, ok)
    ensures |fs| <= |es| + Distance(Exec(n, es).monitors[i]) && Exec(n, fs).monitors[i] == Over
    decreases Distance(Exec(n, es).monitors[i])
  {
    hide Exec, StepMonitor;
    fs := es;
    if Exec(n, es).monitors[i] != Over {
      MonitorAdvances(Exec(n, es).monitors[i], Exec(n, es), ok);
      ExecSnoc(n, es, MonitorStep(i, ok));
      fs := InterruptEndsMonitors(n, es + [MonitorStep(i, ok)], i, ok);
    }
  }
}
