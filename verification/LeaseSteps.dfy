/** The lease as a concurrent protocol: who holds the asyncio lock and how far
    that caller has got, the clock, the credentials, and the set of lease
    holders kept by the WebSocket server (transport/ws_server.py).

    A step runs one stretch of code between two suspension points, or lets time
    pass, or lets the environment act.  Any caller may take a free lock, so
    every order of waiters is covered. */
module LeaseSteps {
  import opened Wrappers
  import opened LeaseCore
  import J = Joystick
  import P = Policy

  /** The operations that compete for the lock.  `forget` marks the releases
      after which the caller drops the session from the holder set. */
  datatype Op =
    | Expire(session: Session)
    | Acquire(session: Session)
    | Heartbeat(session: Session)
    | Release(session: Session, forget: bool)
    | Stop(session: Session, latch: bool)
    | ClearStop
    | Dispatch(session: Session, cmd: Command)

  predicate ChecksExpiry(op: Op) {
    op.Expire? || op.Acquire? || op.Heartbeat? || op.Dispatch?
  }

  /** How far the lock holder has got. */
  datatype Phase =
    | Checking                 // about to evaluate _expire
    | InBody                   // past _expire, about to run the rest
    | StopSpawned              // the stop task is created but has not run yet
    | StopWaiting              // the stop task awaits the process
    | StopFinished(ok: bool)   // the stop task is over, the caller not yet resumed
    | AwaitingStart            // the handler awaits policy.start
    | AwaitingReset            // the handler, in a reset, awaits policy.stop
    | Handled                  // the handler has returned

  datatype Call = Call(op: Op, phase: Phase, cancelled: bool)

  datatype State = State(
    core: Core,
    now: real,
    checkedAt: real,                       // when _expire last evaluated its condition
    holder: Option<Call>,
    holders: set<Session>,                 // lease_holders
    grants: map<Session, set<Scope>>)      // what each session's credential is good for now

  datatype Event =
    | Tick(dt: real)
    | Begin(op: Op)                        // take the free lock
    | Request(session: Session, cmd: Command)   // guarded_dispatch, when the lock is free
    | Check
    | Proceed(launch: P.Launch, motorsOk: bool)
    | StopRuns
    | StopEnds(exited: bool)
    | Resume
    | StartEnds(probe: P.Probe)
    | ResetEnds(exited: bool)
    | Completes
    | Cancel
    | CancelAgain
    | ProcessDies
    | WatchNotices
    | Notice(session: Session)             // the watchdog finds another owner, or none
    | SetGrants(session: Session, scopes: set<Scope>)

  predicate Has(s: State, x: Session, sc: Scope) {
    x in s.grants && sc in s.grants[x]
  }

  predicate AtPhase(s: State, ph: Phase) {
    s.holder.Some? && s.holder.value.phase == ph
  }

  predicate InStop(s: State) {
    s.holder.Some? && (s.holder.value.phase.StopSpawned? || s.holder.value.phase.StopWaiting? ||
                       s.holder.value.phase.StopFinished?)
  }

  predicate InHandler(s: State) {
    s.holder.Some? && (s.holder.value.phase.AwaitingStart? || s.holder.value.phase.AwaitingReset? ||
                       s.holder.value.phase.Handled?)
  }

  /** guarded_dispatch: queries go straight to the handler and take no lock. */
  function Route(x: Session, cmd: Command): Option<Op> {
    match cmd
    case Query => None
    case PolicyStop => Some(Stop(x, false))
    case StopRequest(clear) => Some(if clear then ClearStop else Stop(x, true))
    case _ => Some(Dispatch(x, cmd))
  }

  /** A second cancellation reaches a stop task only after its first step: that
      step is queued before the caller suspends, and an earlier second
      cancellation is one with the first. */
  predicate Enabled(s: State, e: Event) {
    match e
    case Tick(dt) => dt >= 0.0
    case Begin(op) => s.holder.None? && !op.Dispatch?
    case Request(_, _) => s.holder.None?
    case Check => AtPhase(s, Checking)
    case Proceed(_, _) => AtPhase(s, InBody)
    case StopRuns => AtPhase(s, StopSpawned)
    case StopEnds(_) => AtPhase(s, StopWaiting)
    case Resume => s.holder.Some? && s.holder.value.phase.StopFinished?
    case StartEnds(probe) => AtPhase(s, AwaitingStart) && (probe.LockBusy? ==> !s.core.policy.Running())
    case ResetEnds(_) => AtPhase(s, AwaitingReset)
    case Completes => AtPhase(s, Handled)
    case Cancel => s.holder.Some? && !s.holder.value.cancelled &&
      (InStop(s) || AtPhase(s, AwaitingStart) || AtPhase(s, AwaitingReset))
    case CancelAgain => InStop(s) && !AtPhase(s, StopSpawned) && s.holder.value.cancelled
    case ProcessDies => true
    case WatchNotices => true
    case Notice(x) => s.core.owner != Some(x) && x in s.holders
    case SetGrants(_, _) => true
  }

  function Free(s: State): State { s.(holder := None) }

  function At(s: State, ph: Phase): State
    requires s.holder.Some?
  {
    s.(holder := Some(s.holder.value.(phase := ph)))
  }

  function Start(s: State, op: Op): State {
    s.(holder := Some(Call(op, if ChecksExpiry(op) then Checking else InBody, false)))
  }

  /** A caller's normal return, with what it does to the holder set before it
      next suspends. */
  function Return(s: State, op: Op): State {
    var keep := match op
      case Expire(x) => if s.core.owner == Some(x) then s.holders else s.holders - {x}
      case Acquire(x) => s.holders + {x}
      case Release(x, forget) => if forget then s.holders - {x} else s.holders
      case Stop(x, latch) => if latch then s.holders - {x} else s.holders
      case _ => s.holders;
    s.(holder := None, holders := keep)
  }

  function RunBody(c: Config, s: State, launch: P.Launch, motorsOk: bool): State
    requires AtPhase(s, InBody)
  {
    var op := s.holder.value.op;
    match op
    case Expire(_) => Return(s, op)
    case Acquire(x) =>
      var (k, err) := AcquireBody(c, s.core, x, Has(s, x, Control), s.now);
      if err.None? then Return(s.(core := k), op) else Free(s)
    case Heartbeat(x) => Return(s.(core := HeartbeatBody(c, s.core, x, s.now)), op)
    case Release(x, _) => if s.core.owner == Some(x) then At(s, StopSpawned) else Return(s, op)
    case Stop(_, latch) => At(s.(core := s.core.(stopped := s.core.stopped || latch)), StopSpawned)
    case ClearStop => Return(s.(core := s.core.(stopped := false)), op)
    case Dispatch(x, cmd) =>
      if DispatchGuard(s.core, x, cmd, Has(s, x, ScopeOf(cmd))).Some? then Free(s)
      else
        var (k, h) := Handle(s.core, cmd, launch, motorsOk);
        var s1 := s.(core := k);
        match h
        case Done => At(s1, Handled)
        case Raised => Free(s1)
        case AwaitStart => At(s1, AwaitingStart)
        case AwaitStop => At(s1, AwaitingReset)
  }

  /** The caller resumes after its stop task: errors and a pending cancellation
      propagate and release the lock; otherwise the operation goes on. */
  function AfterStop(s: State): State
    requires s.holder.Some? && s.holder.value.phase.StopFinished?
  {
    var call := s.holder.value;
    if !call.phase.ok || call.cancelled then Free(s)
    else if call.op.Release? || call.op.Stop? then Return(s, call.op)
    else At(s, InBody)
  }

  function Next(c: Config, s: State, e: Event): State
    requires Enabled(s, e)
  {
    match e
    case Tick(dt) => s.(now := s.now + dt)
    case Begin(op) => Start(s, op)
    case Request(x, cmd) => if Route(x, cmd).Some? then Start(s, Route(x, cmd).value) else s
    case Check =>
      var s1 := s.(checkedAt := s.now);
      if Expired(c, s.core, s.now) then At(s1, StopSpawned) else At(s1, InBody)
    case Proceed(launch, motorsOk) => RunBody(c, s, launch, motorsOk)
    case StopRuns =>
      var (k, r) := StopTaskBegin(s.core);
      At(s.(core := k), if r.Suspended? then StopWaiting else StopFinished(r.ok))
    case StopEnds(exited) =>
      var (k, ok) := StopTaskEnd(s.core, exited);
      At(s.(core := k), StopFinished(ok))
    case Resume => AfterStop(s)
    case StartEnds(probe) => At(s.(core := s.core.(policy := P.StartEnd(s.core.policy, probe).0)), Handled)
    case ResetEnds(exited) => At(s.(core := s.core.(policy := P.StopEnd(s.core.policy, exited).0)), Handled)
    case Completes =>
      var op := s.holder.value.op;
      if op.Dispatch? then Free(s.(core := Complete(c, s.core, op.cmd, s.now))) else Free(s)
    case Cancel =>
      if InStop(s) then s.(holder := Some(s.holder.value.(cancelled := true))) else Free(s)
    case CancelAgain => Free(s)
    case ProcessDies => s.(core := s.core.(policy := P.Dies(s.core.policy)))
    case WatchNotices => s.(core := s.core.(policy := P.Notices(s.core.policy)))
    case Notice(x) => s.(holders := s.holders - {x})
    case SetGrants(x, scopes) => s.(grants := s.grants[x := scopes])
  }

  /** The server as it comes up. */
  const INIT := State(FRESH, 0.0, 0.0, None, {}, map[])

  // ---------------------------------------------------------------------
  // Runs
  // ---------------------------------------------------------------------

  predicate Legal(c: Config, s: State, es: seq<Event>)
    decreases |es|
  {
    es == [] || (Enabled(s, es[0]) && Legal(c, Next(c, s, es[0]), es[1..]))
  }

  function After(c: Config, s: State, es: seq<Event>): State
    requires Legal(c, s, es)
    decreases |es|
  {
    if es == [] then s else After(c, Next(c, s, es[0]), es[1..])
  }

  /** No caller is cancelled a second time in the middle of its stop. */
  predicate SingleCancel(es: seq<Event>) {
    CancelAgain !in es
  }

  /** The state after the first `n` steps of a run. */
  function StateAt(c: Config, s: State, es: seq<Event>, n: nat): State
    requires Legal(c, s, es) && n <= |es|
    decreases n
  {
    if n == 0 then s else StateAt(c, Next(c, s, es[0]), es[1..], n - 1)
  }

  lemma {:induction false} StateAtEnd(c: Config, s: State, es: seq<Event>)
    requires Legal(c, s, es)
    ensures StateAt(c, s, es, |es|) == After(c, s, es)
    decreases |es|
  {
    if es != [] {
      StateAtEnd(c, Next(c, s, es[0]), es[1..]);
    }
  }

  /** Each event of a run is enabled where it happens and leads to the next state. */
  lemma {:induction false} StepAt(c: Config, s: State, es: seq<Event>, n: nat)
    requires Legal(c, s, es) && n < |es|
    ensures Enabled(StateAt(c, s, es, n), es[n])
    ensures StateAt(c, s, es, n + 1) == Next(c, StateAt(c, s, es, n), es[n])
    decreases n
  {
    if n > 0 {
      StepAt(c, Next(c, s, es[0]), es[1..], n - 1);
    }
  }

  /** A run with one more event in front. */
  lemma Cons(c: Config, s: State, e: Event, rest: seq<Event>)
    requires Enabled(s, e) && Legal(c, Next(c, s, e), rest)
    ensures Legal(c, s, [e] + rest) && After(c, s, [e] + rest) == After(c, Next(c, s, e), rest)
  {
    assert ([e] + rest)[1..] == rest;
  }

  /** A run from the start, one event longer. */
  lemma Then(c: Config, es: seq<Event>, s: State, e: Event) returns (es': seq<Event>, s': State)
    requires Legal(c, INIT, es) && s == After(c, INIT, es) && Enabled(s, e)
    ensures es' == es + [e] && s' == Next(c, s, e)
    ensures Legal(c, INIT, es') && s' == After(c, INIT, es') && StateAt(c, INIT, es', |es|) == s
  {
    es', s' := es + [e], Next(c, s, e);
    Append(c, INIT, es, [e]);
  }

  lemma {:induction false} Append(c: Config, s: State, es: seq<Event>, more: seq<Event>)
    requires Legal(c, s, es) && Legal(c, After(c, s, es), more)
    ensures Legal(c, s, es + more)
    ensures After(c, s, es + more) == After(c, After(c, s, es), more)
    ensures StateAt(c, s, es + more, |es|) == After(c, s, es)
    decreases |es|
  {
    if es == [] {
      assert es + more == more;
    } else {
      Append(c, Next(c, s, es[0]), es[1..], more);
      assert (es + more)[1..] == es[1..] + more;
    }
  }
}
