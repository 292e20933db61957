/** How the threads of the client start (src/app_server.c: `_server_client`,
    `_client_backend`, `_client_publish_monitor_start`, `_socket_monitor_event`).
    The two mutexes are used as binary semaphores: a thread unlocks what another
    one locked. A thread that must wait for a lock leaves the state as it is. */
module Handshake {

  /** The main thread; in client-subscribe it later starts one monitor more,
      which gives back `_mutex_monitor` without having been given it. */
  datatype Main = Lock | Create | Relock | Unlock | Check | Proxy | Skip

  /** The backend thread: it sets up its sockets, starts monitor after monitor
      and probes endpoint after endpoint, and lets main go on. */
  datatype Backend =
    | Absent
    | SetUp
    | Take(i: nat) | Spawn(i: nat) | Await(i: nat) | GiveBack(i: nat) | Look(i: nat) | Probe(i: nat)
    | Finish
    | Running | Refreshing
    | JoinAll | Fail | FinishFailed | Gone

  /** A monitor thread. */
  datatype Monitor = Idle | Starting | Broken | BrokenRelease | Release | Watching | Marking | Over

  datatype State = State(
    main: Main,
    backend: Backend,
    monitors: seq<Monitor>,
    /** The monitor that client-subscribe adds. */
    extra: Monitor,
    /** Whether `_mutex` and `_mutex_monitor` are held. */
    mutex: bool,
    monitorMutex: bool,
    interrupted: bool,
    /** PAIR sockets connected by the monitors; probes connected by the backend. */
    pair: seq<bool>,
    probe: seq<bool>)

  /** One step of a thread, with the outcome of the call in it, or a signal. */
  datatype Step = MainStep(ok: bool) | BackendStep(ok: bool) | MonitorStep(i: nat, ok: bool) | ExtraStep(ok: bool) | Signal

  predicate Wellformed(n: nat, s: State) {
    |s.monitors| == |s.pair| == |s.probe| == n
  }

  function Init(n: nat): (r: State)
    ensures Wellformed(n, r)
  {
    State(Lock, Absent, seq(n, _ => Idle), Idle, false, false, false, seq(n, _ => false), seq(n, _ => false))
  }

  /** pthread_create never returns -1, so a thread that could not be created is
      not noticed. */
  function StepMain(s: State, ok: bool): State {
    match s.main
    case Lock => if s.mutex then s else s.(main := Create, mutex := true)
    case Create => s.(main := Relock, backend := if ok then SetUp else s.backend)
    case Relock => if s.mutex then s else s.(main := Unlock, mutex := true)
    case Unlock => s.(main := Check, mutex := false)
    case Check => s.(main := if s.interrupted then Skip else Proxy)
    case Proxy => if s.extra == Idle && ok then s.(extra := Starting) else s
    case Skip => s
  }

  function StepBackend(n: nat, s: State, ok: bool): (r: State)
    requires Wellformed(n, s)
    ensures Wellformed(n, r)
  {
    match s.backend
    case Absent => s
    case SetUp => s.(backend := if ok then Take(0) else Fail)
    case Take(i) =>
      if i >= n then s.(backend := Finish)
      else if s.monitorMutex then s
      else s.(backend := Spawn(i), monitorMutex := true)
    case Spawn(i) => s.(backend := Await(i), monitors := if ok && i < n then s.monitors[i := Starting] else s.monitors)
    case Await(i) => if s.monitorMutex then s else s.(backend := GiveBack(i), monitorMutex := true)
    case GiveBack(i) => s.(backend := Look(i), monitorMutex := false)
    case Look(i) => s.(backend := if s.interrupted then JoinAll else Probe(i))
    case Probe(i) =>
      if !ok || i >= n then s.(backend := JoinAll)
      else s.(backend := Take(i + 1), probe := s.probe[i := true])
    case Finish => s.(backend := Running, mutex := false)
    case Running =>
      if s.interrupted then s.(backend := Gone)
      else if ok && !s.mutex then s.(backend := Refreshing, mutex := true)
      else s
    case Refreshing => s.(backend := Running, mutex := false)
    case JoinAll =>
      if forall i :: 0 <= i < n ==> s.monitors[i] == Idle || s.monitors[i] == Over then s.(backend := Fail) else s
    case Fail => s.(backend := FinishFailed, interrupted := true)
    case FinishFailed => s.(backend := Gone, mutex := false)
    case Gone => s
  }

  /** A step of a monitor: its new state, whether its PAIR socket is connected by
      it, and the mutexes and the flag afterwards. */
  datatype Effect = Effect(monitor: Monitor, connects: bool, mutex: bool, monitorMutex: bool, interrupted: bool)

  function StepMonitor(m: Monitor, s: State, ok: bool): Effect {
    var same := Effect(m, false, s.mutex, s.monitorMutex, s.interrupted);
    match m
    case Idle => same
    case Starting => same.(monitor := if ok then Release else Broken, connects := ok)
    case Broken => same.(monitor := BrokenRelease, interrupted := true)
    case BrokenRelease => same.(monitor := Over, monitorMutex := false)
    case Release => same.(monitor := Watching, monitorMutex := false)
    case Watching =>
      if s.interrupted then same.(monitor := Over)
      else if ok && !s.mutex then same.(monitor := Marking, mutex := true)
      else same
    case Marking => same.(monitor := Watching, mutex := false)
    case Over => same
  }

  function Next(n: nat, s: State, e: Step): (r: State)
    requires Wellformed(n, s)
    ensures Wellformed(n, r)
  {
    match e
    case MainStep(ok) => StepMain(s, ok)
    case BackendStep(ok) => StepBackend(n, s, ok)
    case MonitorStep(i, ok) =>
      if i >= n then s
      else
        var f := StepMonitor(s.monitors[i], s, ok);
        s.(monitors := s.monitors[i := f.monitor], pair := s.pair[i := s.pair[i] || f.connects],
           mutex := f.mutex, monitorMutex := f.monitorMutex, interrupted := f.interrupted)
    case ExtraStep(ok) =>
      var f := StepMonitor(s.extra, s, ok);
      s.(extra := f.monitor, mutex := f.mutex, monitorMutex := f.monitorMutex, interrupted := f.interrupted)
    case Signal => s.(interrupted := true)
  }

  function Exec(n: nat, es: seq<Step>): (r: State)
    ensures Wellformed(n, r)
  {
    if es == [] then Init(n) else Next(n, Exec(n, es[..|es| - 1]), es[|es| - 1])
  }

  // ----- the invariant -----

  /** The backend has let main go on, one way or the other. */
  predicate Released(b: Backend) {
    b.Running? || b.Refreshing? || b.Gone?
  }

  /** The endpoints before `At` have been started and probed. */
  function At(n: nat, b: Backend): nat {
    match b
    case Absent => 0
    case SetUp => 0
    case Take(i) => i
    case Spawn(i) => i
    case Await(i) => i
    case GiveBack(i) => i
    case Look(i) => i
    case Probe(i) => i
    case _ => n
  }

  predicate Paired(m: Monitor) {
    m == Release || m == Watching || m == Marking
  }

  /** The monitor has given `_mutex_monitor` back. */
  predicate Returned(m: Monitor) {
    m == Watching || m == Marking || m == Over
  }

  /** What holds of every monitor by itself. */
  predicate Sound(m: Monitor, pair: bool, probe: bool, interrupted: bool) {
    && (Paired(m) ==> pair)
    && (m == Over ==> pair || interrupted)
    && (m == BrokenRelease ==> interrupted)
    && (probe ==> pair)
  }

  ghost predicate AllSound(n: nat, s: State)
    requires Wellformed(n, s)
  {
    forall i :: 0 <= i < n ==> Sound(s.monitors[i], s.pair[i], s.probe[i], s.interrupted)
  }

  /** What the position of the backend says about the monitors and their mutex. */
  ghost predicate Starts(n: nat, s: State)
    requires Wellformed(n, s)
  {
    var b := s.backend;
    && (!Released(b) && !b.JoinAll? && !b.Fail? && !b.FinishFailed? ==>
          && At(n, b) <= n
          && (forall j :: 0 <= j < At(n, b) ==> s.probe[j] && Returned(s.monitors[j]))
          && (forall j :: At(n, b) < j < n ==> s.monitors[j] == Idle))
    && (b.Absent? || b.SetUp? || b.Take? ==> forall j :: At(n, b) <= j < n ==> s.monitors[j] == Idle)
    && (b.Spawn? ==> b.i < n && s.monitorMutex && s.monitors[b.i] == Idle)
    && (b.Await? ==> b.i < n && (s.monitorMutex || Returned(s.monitors[b.i])))
    && (b.GiveBack? || b.Look? ==> b.i < n && Returned(s.monitors[b.i]))
    && (b.Probe? ==> b.i < n && Returned(s.monitors[b.i]) && s.pair[b.i])
    && (b.Finish? || b.Running? || b.Refreshing? ==> forall j :: 0 <= j < n ==> s.probe[j])
    && (b.FinishFailed? ==> s.interrupted)
    && (b.Gone? ==> s.interrupted)
  }

  /** While main waits, its mutex stays held until the backend is done. */
  ghost predicate Waits(n: nat, s: State)
    requires Wellformed(n, s)
  {
    && (s.main == Lock || s.main == Create ==> s.backend == Absent)
    && (s.main == Lock ==> !s.mutex)
    && ((s.main == Create || s.main == Relock) && !Released(s.backend) ==>
          && s.mutex
          && (forall j :: 0 <= j < n ==> s.monitors[j] != Marking))
    && (s.main == Unlock || s.main == Check || s.main == Proxy || s.main == Skip ==> Released(s.backend))
    && (s.main != Proxy ==> s.extra == Idle)
    && (s.main == Skip ==> s.interrupted)
  }

  ghost predicate Inv(n: nat, s: State)
    requires Wellformed(n, s)
  {
    && AllSound(n, s)
    && Starts(n, s)
    && Waits(n, s)
    && (s.main == Proxy ==> forall i :: 0 <= i < n ==> s.probe[i])
  }

  lemma MainKeepsStarts(n: nat, s: State, ok: bool)
    requires Wellformed(n, s) && Starts(n, s) && Waits(n, s)
    ensures Starts(n, StepMain(s, ok))
  {
    AbsentIsIdle(n, s);
    if s.main == Create && ok {
      var t := StepMain(s, ok);
      assert forall j :: 0 <= j < n ==> t.monitors[j] == Idle;
    } else {
      assert StepMain(s, ok).backend == s.backend;
    }
  }

  lemma AbsentIsIdle(n: nat, s: State)
    requires Wellformed(n, s) && Starts(n, s)
    ensures s.backend == Absent ==> forall j :: 0 <= j < n ==> s.monitors[j] == Idle
  {
  }

  lemma UninterruptedIsSetUp(n: nat, s: State)
    requires Wellformed(n, s) && Starts(n, s) && Released(s.backend) && !s.interrupted
    ensures forall j :: 0 <= j < n ==> s.probe[j]
  {
  }

  lemma MainKeeps(n: nat, s: State, ok: bool)
    requires Wellformed(n, s) && Inv(n, s)
    ensures Inv(n, StepMain(s, ok))
  {
    hide Starts;
    MainKeepsStarts(n, s, ok);
    AbsentIsIdle(n, s);
    if s.main == Check && !s.interrupted {
      UninterruptedIsSetUp(n, s);
    }
  }

  lemma BackendKeepsSound(n: nat, s: State, ok: bool)
    requires Wellformed(n, s) && AllSound(n, s) && Starts(n, s)
    ensures AllSound(n, StepBackend(n, s, ok))
  {
  }

  lemma EarlyStarts(n: nat, s: State, ok: bool)
    requires Wellformed(n, s) && AllSound(n, s) && Starts(n, s)
    requires s.backend.Absent? || s.backend.SetUp? || s.backend.Take? || s.backend.Spawn?
    ensures Starts(n, StepBackend(n, s, ok))
  {
  }

  lemma ProbeStarts(n: nat, s: State, ok: bool)
    requires Wellformed(n, s) && AllSound(n, s) && Starts(n, s)
    requires s.backend.Await? || s.backend.GiveBack? || s.backend.Look? || s.backend.Probe?
    ensures Starts(n, StepBackend(n, s, ok))
  {
  }

  lemma BackendKeepsStarts(n: nat, s: State, ok: bool)
    requires Wellformed(n, s) && AllSound(n, s) && Starts(n, s)
    ensures Starts(n, StepBackend(n, s, ok))
  {
    var b := s.backend;
    if b.Absent? || b.SetUp? || b.Take? || b.Spawn? {
      EarlyStarts(n, s, ok);
    } else if b.Await? || b.GiveBack? || b.Look? || b.Probe? {
      ProbeStarts(n, s, ok);
    }
  }

  lemma BackendKeepsWaits(n: nat, s: State, ok: bool)
    requires Wellformed(n, s) && Starts(n, s) && Waits(n, s)
    ensures Waits(n, StepBackend(n, s, ok))
    ensures forall i :: 0 <= i < n && s.probe[i] ==> StepBackend(n, s, ok).probe[i]
  {
  }

  lemma BackendKeeps(n: nat, s: State, ok: bool)
    requires Wellformed(n, s) && Inv(n, s)
    ensures Inv(n, StepBackend(n, s, ok))
  {
    hide StepBackend, Starts, Waits, AllSound;
    BackendKeepsSound(n, s, ok);
    BackendKeepsStarts(n, s, ok);
    BackendKeepsWaits(n, s, ok);
    assert StepBackend(n, s, ok).main == s.main by { BackendLeavesMain(n, s, ok); }
  }

  lemma BackendLeavesMain(n: nat, s: State, ok: bool)
    requires Wellformed(n, s)
    ensures StepBackend(n, s, ok).main == s.main
  {
  }

  /** All that a monitor's step can do to what the backend relies on. */
  lemma MonitorMoves(m: Monitor, s: State, ok: bool)
    ensures var f := StepMonitor(m, s, ok);
            && (Returned(m) ==> Returned(f.monitor))
            && (m == Idle ==> f.monitor == Idle)
            && (f.monitorMutex == s.monitorMutex || (m != Idle && !Returned(m) && Returned(f.monitor)))
            && (s.interrupted ==> f.interrupted)
  {
  }

  lemma MonitorKeepsStarts(n: nat, s: State, i: nat, ok: bool)
    requires Wellformed(n, s) && Starts(n, s)
    ensures Starts(n, Next(n, s, MonitorStep(i, ok)))
  {
    hide StepMonitor, Returned;
    if i < n {
      MonitorMoves(s.monitors[i], s, ok);
      ReturnedIsNotIdle();
    }
  }

  lemma ReturnedIsNotIdle()
    ensures !Returned(Idle)
  {
  }

  lemma MonitorKeeps(n: nat, s: State, i: nat, ok: bool)
    requires Wellformed(n, s) && Inv(n, s)
    ensures Inv(n, Next(n, s, MonitorStep(i, ok)))
  {
    hide Starts;
    AbsentIsIdle(n, s);
    MonitorKeepsStarts(n, s, i, ok);
  }

  lemma ExtraKeeps(n: nat, s: State, ok: bool)
    requires Wellformed(n, s) && Inv(n, s)
    ensures Inv(n, Next(n, s, ExtraStep(ok)))
  {
  }

  lemma {:induction false} RunKeeps(n: nat, es: seq<Step>)
    ensures Inv(n, Exec(n, es))
  {
    if es != [] {
      hide Inv, StepMain, StepBackend, StepMonitor;
      var s := Exec(n, es[..|es| - 1]);
      RunKeeps(n, es[..|es| - 1]);
      match es[|es| - 1]
      case MainStep(ok) => MainKeeps(n, s, ok);
      case BackendStep(ok) => BackendKeeps(n, s, ok);
      case MonitorStep(i, ok) => MonitorKeeps(n, s, i, ok);
      case ExtraStep(ok) => ExtraKeeps(n, s, ok);
      case Signal => SignalKeeps(n, s);
    } else {
      InitHolds(n);
    }
  }

  lemma InitHolds(n: nat)
    ensures Inv(n, Init(n))
  {
  }

  lemma SignalKeeps(n: nat, s: State)
    requires Wellformed(n, s) && Inv(n, s)
    ensures Inv(n, s.(interrupted := true))
  {
  }

  // ----- what the handshake is for -----

  /** Main starts to proxy only when the backend has set everything up, and with
      it every monitor and every probe. */
  lemma ProxyAfterSetup(n: nat, es: seq<Step>)
    requires Exec(n, es).main == Proxy
    ensures var s := Exec(n, es);
            && Released(s.backend) && (s.backend == Gone ==> s.interrupted)
            && forall i :: 0 <= i < n ==> s.probe[i] && s.pair[i]
  {
    hide Exec;
    RunKeeps(n, es);
    forall i | 0 <= i < n
      ensures Exec(n, es).probe[i] && Exec(n, es).pair[i]
    {
      assert Sound(Exec(n, es).monitors[i], Exec(n, es).pair[i], Exec(n, es).probe[i], Exec(n, es).interrupted);
    }
  }

  /** The backend connects the probe of an endpoint only after the PAIR socket of
      its monitor is connected, so that no event of it is missed. */
  lemma ProbeAfterPair(n: nat, es: seq<Step>, i: nat)
    requires i < n
    ensures Exec(n, es).probe[i] ==> Exec(n, es).pair[i]
  {
    hide Exec;
    RunKeeps(n, es);
  }

  /** Main that gives up was told to. */
  lemma SkipOnlyInterrupted(n: nat, es: seq<Step>)
    requires Exec(n, es).main == Skip
    ensures Exec(n, es).interrupted && Released(Exec(n, es).backend)
  {
    hide Exec;
    RunKeeps(n, es);
  }

  /** A call that setting up depends on fails with this step. */
  predicate Fails(s: State, e: Step) {
    match e
    case MainStep(_) => false
    case BackendStep(ok) => !ok && (s.backend.SetUp? || s.backend.Probe?)
    case MonitorStep(i, ok) => !ok && i < |s.monitors| && s.monitors[i] == Starting
    case ExtraStep(ok) => !ok && s.extra == Starting
    case Signal => true
  }

  /** No signal, and none of these calls fails. */
  predicate Calm(n: nat, es: seq<Step>) {
    es == [] || (Calm(n, es[..|es| - 1]) && !Fails(Exec(n, es[..|es| - 1]), es[|es| - 1]))
  }

  predicate Trouble(s: State) {
    || s.interrupted || s.backend.JoinAll? || s.backend.Fail? || s.backend.FinishFailed?
    || s.extra == Broken || s.extra == BrokenRelease
    || exists i :: 0 <= i < |s.monitors| && (s.monitors[i] == Broken || s.monitors[i] == BrokenRelease)
  }

  lemma CalmBackend(n: nat, s: State, ok: bool)
    requires Wellformed(n, s) && !Trouble(s) && !Fails(s, BackendStep(ok))
    requires s.backend.Probe? ==> s.backend.i < n
    ensures !Trouble(StepBackend(n, s, ok))
  {
    var t := StepBackend(n, s, ok);
    assert t.extra == s.extra;
    assert forall i :: 0 <= i < n ==> t.monitors[i] == s.monitors[i] || t.monitors[i] == Starting;
  }

  lemma CalmMonitor(n: nat, s: State, i: nat, ok: bool)
    requires Wellformed(n, s) && !Trouble(s) && i < n && !Fails(s, MonitorStep(i, ok))
    ensures !Trouble(Next(n, s, MonitorStep(i, ok)))
  {
    var f := StepMonitor(s.monitors[i], s, ok);
    assert f.monitor != Broken && f.monitor != BrokenRelease && f.interrupted == s.interrupted;
    hide StepMonitor;
  }

  lemma CalmStep(n: nat, s: State, e: Step)
    requires Wellformed(n, s) && !Trouble(s) && !Fails(s, e)
    requires s.backend.Probe? ==> s.backend.i < n
    ensures !Trouble(Next(n, s, e))
  {
    hide StepBackend;
    match e
    case BackendStep(ok) => CalmBackend(n, s, ok);
    case MonitorStep(i, ok) =>
      if i < n { CalmMonitor(n, s, i, ok); }
    case MainStep(_) =>
    case ExtraStep(_) =>
    case Signal =>
  }

  /** Nothing but a signal or a failed call makes main give up. */
  lemma {:induction false} CalmRun(n: nat, es: seq<Step>)
    requires Calm(n, es)
    ensures !Trouble(Exec(n, es)) && Exec(n, es).main != Skip && Exec(n, es).backend != Gone
  {
    RunKeeps(n, es);
    if es != [] {
      hide Inv, Trouble, Fails, Next;
      RunKeeps(n, es[..|es| - 1]);
      CalmRun(n, es[..|es| - 1]);
      ProbeInRange(n, Exec(n, es[..|es| - 1]));
      CalmStep(n, Exec(n, es[..|es| - 1]), es[|es| - 1]);
    }
    NoTroubleNoSkip(n, Exec(n, es));
  }

  lemma ProbeInRange(n: nat, s: State)
    requires Wellformed(n, s) && Inv(n, s)
    ensures s.backend.Probe? ==> s.backend.i < n
  {
  }

  lemma NoTroubleNoSkip(n: nat, s: State)
    requires Wellformed(n, s) && Inv(n, s) && !Trouble(s)
    ensures s.main != Skip && s.backend != Gone
  {
  }

  // ----- a run that gets there -----

  lemma ExecSnoc(n: nat, es: seq<Step>, e: Step)
    ensures Exec(n, es + [e]) == Next(n, Exec(n, es), e)
  {
    hide Next;
    assert (es + [e])[..|es|] == es;
  }

  lemma CalmSnoc(n: nat, es: seq<Step>, e: Step)
    requires Calm(n, es) && !Fails(Exec(n, es), e)
    ensures Calm(n, es + [e])
  {
    hide Fails, Exec;
    assert (es + [e])[..|es|] == es;
  }

  /** One more step that succeeds. */
  lemma Succeed(n: nat, es: seq<Step>, e: Step) returns (fs: seq<Step>)
    requires Calm(n, es) && !e.Signal? && e.ok
    ensures fs == es + [e] && Calm(n, fs) && Exec(n, fs) == Next(n, Exec(n, es), e)
  {
    hide Exec, Calm, Next;
    fs := es + [e];
    ExecSnoc(n, es, e);
    CalmSnoc(n, es, e);
  }

  /** The first `i` endpoints are started and probed. */
  function Halfway(n: nat, i: nat): (r: State)
    ensures Wellformed(n, r)
  {
    State(Relock, Take(i), seq(n, j => if 0 <= j < i then Watching else Idle), Idle, true, false, false,
          seq(n, j => 0 <= j < i), seq(n, j => 0 <= j < i))
  }

  lemma OneEndpoint(n: nat, i: nat)
    requires i < n
    ensures var s4 := Next(n, Next(n, Next(n, Next(n, Halfway(n, i), BackendStep(true)), BackendStep(true)), MonitorStep(i, true)), MonitorStep(i, true));
            Next(n, Next(n, Next(n, Next(n, s4, BackendStep(true)), BackendStep(true)), BackendStep(true)), BackendStep(true)) == Halfway(n, i + 1)
  {
    var s := Halfway(n, i);
    var t := Halfway(n, i + 1);
    assert t.monitors == s.monitors[i := Starting][i := Release][i := Watching];
    assert t.pair == s.pair[i := true] && t.probe == s.probe[i := true];
  }

  lemma {:induction false} ReachHalfway(n: nat, i: nat) returns (es: seq<Step>)
    requires i <= n
    ensures Calm(n, es) && Exec(n, es) == Halfway(n, i)
  {
    hide Calm, Exec, Next, Halfway;
    if i == 0 {
      es := ReachStart(n);
    } else {
      es := ReachHalfway(n, i - 1);
      OneEndpoint(n, i - 1);
      es := Succeed(n, es, BackendStep(true));
      es := Succeed(n, es, BackendStep(true));
      es := Succeed(n, es, MonitorStep(i - 1, true));
      es := Succeed(n, es, MonitorStep(i - 1, true));
      es := Succeed(n, es, BackendStep(true));
      es := Succeed(n, es, BackendStep(true));
      es := Succeed(n, es, BackendStep(true));
      es := Succeed(n, es, BackendStep(true));
    }
  }

  lemma ReachStart(n: nat) returns (es: seq<Step>)
    ensures Calm(n, es) && Exec(n, es) == Halfway(n, 0)
  {
    assert Halfway(n, 0) == State(Relock, Take(0), Init(n).monitors, Idle, true, false, false, Init(n).pair, Init(n).probe);
    es := [];
    assert Exec(n, es) == Init(n);
    es := Succeed(n, es, MainStep(true));
    es := Succeed(n, es, MainStep(true));
    es := Succeed(n, es, BackendStep(true));
  }

  /** For every number of endpoints some run does start to proxy. */
  lemma ProxyIsReached(n: nat) returns (es: seq<Step>)
    ensures Calm(n, es) && Exec(n, es).main == Proxy
  {
    hide Calm, Exec;
    es := ReachHalfway(n, n);
    es := Succeed(n, es, BackendStep(true));
    es := Succeed(n, es, BackendStep(true));
    es := Succeed(n, es, MainStep(true));
    es := Succeed(n, es, MainStep(true));
    es := Succeed(n, es, MainStep(true));
  }
}
