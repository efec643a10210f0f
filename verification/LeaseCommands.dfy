/** What each command comes to, from its arrival to the end of its call
    (transport/ws_server.py, protocol/handler.py): stops and their latch, inputs,
    resets, policy starts, and what callers are told. */
module LeaseCommands {
  import opened Wrappers
  import opened LeaseCore
  import opened LeaseSteps
  import opened LeaseSafety
  import J = Joystick
  import P = Policy

  // ---------------------------------------------------------------------
  // Stop commands, whatever else happens meanwhile
  // ---------------------------------------------------------------------

  /** The first event begins a call, and the last one ends it. */
  predicate OneCall(c: Config, s: State, es: seq<Event>)
    requires Legal(c, s, es)
    decreases |es|
  {
    es != [] &&
    (var s1 := Next(c, s, es[0]);
     if |es| == 1 then s1.holder.None? else s1.holder.Some? && OneCall(c, s1, es[1..]))
  }

  /** The latch as the stop call in progress leaves it. */
  predicate LatchAfter(s: State)
    requires s.holder.Some? && s.holder.value.op.Stop?
  {
    s.core.stopped || (AtPhase(s, InBody) && s.holder.value.op.latch)
  }

  predicate AtRest(s: State) {
    s.core.owner.None? && s.core.device == J.NEUTRAL && (s.core.fault || !s.core.policy.Running())
  }

  lemma StopCallStep(c: Config, s: State, e: Event)
    requires Inv(c, s) && Enabled(s, e) && CancelHarmless(s, e)
    requires s.holder.Some? && s.holder.value.op.Stop? && (AtPhase(s, InBody) || InStop(s))
    ensures var s1 := Next(c, s, e);
      if s1.holder.Some? then
        s1.holder.value.op == s.holder.value.op && (AtPhase(s1, InBody) || InStop(s1)) && LatchAfter(s1) == LatchAfter(s)
      else AtRest(s1) && s1.core.stopped == LatchAfter(s)
  {
    InvStep(c, s, e);
  }

  lemma {:induction false} StopCallRun(c: Config, s: State, es: seq<Event>)
    requires Inv(c, s) && Legal(c, s, es) && CancelsHarmless(c, s, es) && OneCall(c, s, es)
    requires s.holder.Some? && s.holder.value.op.Stop? && (AtPhase(s, InBody) || InStop(s))
    ensures AtRest(After(c, s, es)) && After(c, s, es).core.stopped == LatchAfter(s)
    decreases |es|
  {
    StopCallStep(c, s, es[0]);
    InvStep(c, s, es[0]);
    if |es| > 1 {
      StopCallRun(c, Next(c, s, es[0]), es[1..]);
    } else {
      assert es[1..] == [];
    }
  }

  /** A policy-stop command, from anybody and in any state: when its call is
      over, nobody owns control, the gamepad is centred, and no process runs or
      a fault is set; the latch is as it was. */
  lemma PolicyStopStops(c: Config, s: State, x: Session, es: seq<Event>)
    requires Inv(c, s) && s.holder.None? && Legal(c, s, es) && CancelsHarmless(c, s, es) && OneCall(c, s, es)
    requires es[0] == Request(x, PolicyStop)
    ensures AtRest(After(c, s, es)) && After(c, s, es).core.stopped == s.core.stopped
  {
    BegunCall(c, s, es);
    StopCallRun(c, Next(c, s, es[0]), es[1..]);
  }

  /** A stop command does the same and leaves the latch set. */
  lemma StopRequestLatches(c: Config, s: State, x: Session, es: seq<Event>)
    requires Inv(c, s) && s.holder.None? && Legal(c, s, es) && CancelsHarmless(c, s, es) && OneCall(c, s, es)
    requires es[0] == Request(x, StopRequest(false))
    ensures AtRest(After(c, s, es)) && After(c, s, es).core.stopped
  {
    BegunCall(c, s, es);
    StopCallRun(c, Next(c, s, es[0]), es[1..]);
  }

  lemma BegunCall(c: Config, s: State, es: seq<Event>)
    requires Inv(c, s) && s.holder.None? && Legal(c, s, es) && CancelsHarmless(c, s, es) && OneCall(c, s, es)
    requires es[0].Request? && Next(c, s, es[0]).holder.Some?
    ensures var s1 := Next(c, s, es[0]);
      && Inv(c, s1) && s1.core == s.core
      && Legal(c, s1, es[1..]) && CancelsHarmless(c, s1, es[1..]) && OneCall(c, s1, es[1..])
      && After(c, s, es) == After(c, s1, es[1..])
  {
    InvStep(c, s, es[0]);
  }

  /** Both calls get to their stop at once, so that they can be brought to an end. */
  lemma StopCallsBegin(c: Config, s: State, x: Session, cmd: Command, go: Event)
    requires Inv(c, s) && s.holder.None? && cmd in {PolicyStop, StopRequest(false)} && go.Proceed?
    ensures Enabled(s, Request(x, cmd)) && Enabled(Next(c, s, Request(x, cmd)), go)
    ensures InStop(Next(c, Next(c, s, Request(x, cmd)), go))
    ensures Inv(c, Next(c, Next(c, s, Request(x, cmd)), go))
  {
    InvStep(c, s, Request(x, cmd));
    InvStep(c, Next(c, s, Request(x, cmd)), go);
  }

  /** What a clear may change while it is carried out: the latch, and what the
      process does by itself. */
  predicate SameButLatch(k: Core, k1: Core) {
    k1.owner == k.owner && k1.deadline == k.deadline && k1.lastInput == k.lastInput &&
    k1.fault == k.fault && k1.device == k.device
  }

  lemma {:induction false} ClearCallRun(c: Config, s: State, es: seq<Event>)
    requires Legal(c, s, es) && OneCall(c, s, es) && s.holder == Some(Call(ClearStop, InBody, false))
    ensures SameButLatch(s.core, After(c, s, es).core) && !After(c, s, es).core.stopped
    decreases |es|
  {
    if |es| > 1 {
      assert Next(c, s, es[0]).holder == s.holder;
      ClearCallRun(c, Next(c, s, es[0]), es[1..]);
    } else {
      assert es[1..] == [];
    }
  }

  /** A clear command lifts the latch and touches nothing else of the lease or
      the gamepad. */
  lemma ClearRequestClears(c: Config, s: State, x: Session, es: seq<Event>)
    requires Inv(c, s) && s.holder.None? && Legal(c, s, es) && OneCall(c, s, es)
    requires es[0] == Request(x, StopRequest(true))
    ensures SameButLatch(s.core, After(c, s, es).core) && !After(c, s, es).core.stopped
  {
    ClearCallRun(c, Next(c, s, es[0]), es[1..]);
  }

  lemma QueriesTouchNothing(c: Config, s: State, x: Session)
    requires s.holder.None?
    ensures Next(c, s, Request(x, Query)) == s
  {
  }

  // ---------------------------------------------------------------------
  // Calls that find an owner whose time is up
  // ---------------------------------------------------------------------

  /** Where such a call is: about to find the owner due, in the stop it makes of
      it, or past that with nobody in control. */
  predicate EndsTenure(c: Config, s: State) {
    && s.holder.Some? && (s.holder.value.op.Expire? || s.holder.value.op.Heartbeat? || s.holder.value.op.Dispatch?)
    && (AtPhase(s, Checking) ==> Expired(c, s.core, s.now))
    && (AtPhase(s, InBody) ==> s.core.owner.None?)
    && (AtPhase(s, Checking) || AtPhase(s, InBody) || InStop(s))
  }

  lemma {:induction false} TenureEnding(c: Config, s: State, es: seq<Event>)
    requires Inv(c, s) && Legal(c, s, es) && CancelsHarmless(c, s, es) && OneCall(c, s, es) && EndsTenure(c, s)
    ensures AtRest(After(c, s, es)) && After(c, s, es).core.stopped == s.core.stopped
    decreases |es|
  {
    TenureEndingStep(c, s, es[0]);
    InvStep(c, s, es[0]);
    if |es| > 1 {
      TenureEnding(c, Next(c, s, es[0]), es[1..]);
    } else {
      assert es[1..] == [];
    }
  }

  lemma TenureEndingStep(c: Config, s: State, e: Event)
    requires Inv(c, s) && Enabled(s, e) && CancelHarmless(s, e) && EndsTenure(c, s)
    ensures var s1 := Next(c, s, e);
      && s1.core.stopped == s.core.stopped
      && if s1.holder.Some? then EndsTenure(c, s1) else AtRest(s1)
  {
    InvStep(c, s, e);
  }

  /** An owner whose time is up when the watchdog's check, a heartbeat or a
      command begins is out of control when that call is over, whoever makes it:
      none of them renews the lease or is carried out. */
  lemma DueOwnerIsStopped(c: Config, s: State, x: Session, es: seq<Event>)
    requires Inv(c, s) && s.holder.None? && Expired(c, s.core, s.now)
    requires Legal(c, s, es) && CancelsHarmless(c, s, es) && OneCall(c, s, es)
    requires es[0] in {Begin(Expire(x)), Begin(Heartbeat(x)), Request(x, PolicyStart), Request(x, Reset)} ||
      (es[0].Request? && es[0].session == x && (es[0].cmd.Stick? || es[0].cmd.Button? || es[0].cmd.ControlFrame?))
    ensures AtRest(After(c, s, es)) && After(c, s, es).core.stopped == s.core.stopped
  {
    InvStep(c, s, es[0]);
    TenureEnding(c, Next(c, s, es[0]), es[1..]);
  }

  // ---------------------------------------------------------------------
  // The process by itself
  // ---------------------------------------------------------------------

  /** A process that dies runs no longer, and unless it was asked to stop it has
      failed, from then on and before anybody notices; the next stop faults. */
  lemma UnaskedExitFaults(c: Config, s: State)
    ensures var s1 := Next(c, s, ProcessDies);
      && !s1.core.policy.Running() && s1.core == s.core.(policy := s1.core.policy)
      && (s.core.policy.Running() && !s.core.policy.stopRequested ==> s1.core.policy.Failed())
    ensures var s1 := Next(c, s, WatchNotices);
      && s1.core == s.core.(policy := s1.core.policy) && s1.core.policy.Failed() == s.core.policy.Failed()
      && (s.core.policy.proc.Exited? ==> s1.core.policy.failed == s.core.policy.Failed())
    ensures AtPhase(s, StopSpawned) && s.core.policy.Failed() && !s.core.policy.Running() ==>
      Next(c, s, StopRuns).core.fault
  {
  }

  // ---------------------------------------------------------------------
  // An exit that was asked for
  // ---------------------------------------------------------------------

  predicate AskedToStop(s: State) {
    AtPhase(s, StopWaiting) && s.core.policy.stopRequested && !s.core.policy.failed && !s.core.policy.proc.NoProcess?
  }

  lemma {:induction false} WaitGoesOn(c: Config, s: State, es: seq<Event>)
    requires AskedToStop(s) && Legal(c, s, es)
    requires forall e :: e in es ==> !e.StopEnds? && !e.CancelAgain?
    ensures AskedToStop(After(c, s, es)) && After(c, s, es).core.fault == s.core.fault
    decreases |es|
  {
    if es != [] {
      assert es[0] in es;
      WaitGoesOn(c, Next(c, s, es[0]), es[1..]);
    }
  }

  /** A stop of a process that runs and has not failed, whatever happens during
      its wait, the exit and its being noticed included: if it ends with the
      process gone, nothing has failed and no fault is raised; if not, both. */
  lemma RequestedExitIsNoFault(c: Config, s: State, meanwhile: seq<Event>, exited: bool)
    requires AtPhase(s, StopSpawned) && s.core.policy.Running() && !s.core.policy.Failed()
    requires Legal(c, Next(c, s, StopRuns), meanwhile)
    requires forall e :: e in meanwhile ==> !e.StopEnds? && !e.CancelAgain?
    ensures Enabled(After(c, Next(c, s, StopRuns), meanwhile), StopEnds(exited))
    ensures var t := Next(c, After(c, Next(c, s, StopRuns), meanwhile), StopEnds(exited));
      && t.core.policy.Failed() == !exited && t.core.fault == (s.core.fault || !exited)
      && (exited ==> t.core.policy.proc.NoProcess?)
  {
    WaitGoesOn(c, Next(c, s, StopRuns), meanwhile);
  }

  // ---------------------------------------------------------------------
  // The owner's commands
  // ---------------------------------------------------------------------

  /** An input command and the entries it carries. */
  predicate Means(cmd: Command, f: J.Frame) {
    match cmd
    case Button(b) => f == J.Frame([], [b])
    case Stick(x) => x.value.Finite? && f == J.Frame([J.AxisInput(x.axis, x.value.v)], [])
    case ControlFrame(xs, bs) =>
      && f.buttons == bs && |f.axes| == |xs|
      && forall i :: 0 <= i < |xs| ==> xs[i].value.Finite? && f.axes[i] == J.AxisInput(xs[i].axis, xs[i].value.v)
    case _ => false
  }

  lemma MeansFrame(cmd: Command, f: J.Frame)
    requires Means(cmd, f)
    ensures IsInput(cmd) && AllFinite(cmd) && FrameOf(cmd) == f
  {
    assert forall x :: x in AxisValues(cmd) ==> x.value.Finite?;
    assert FrameOf(cmd).axes == f.axes;
  }

  predicate MayCommand(c: Config, s: State, x: Session, sc: Scope) {
    s.holder.None? && s.core.owner == Some(x) && !Expired(c, s.core, s.now) && Has(s, x, sc)
  }

  /** The state in which the owner's command is about to be handed on. */
  function Admitted(s: State, x: Session, cmd: Command): State {
    s.(holder := Some(Call(Dispatch(x, cmd), InBody, false)), checkedAt := s.now)
  }

  lemma Handed(c: Config, s: State, x: Session, cmd: Command, go: Event, rest: seq<Event>)
    requires MayCommand(c, s, x, ScopeOf(cmd)) && AllFinite(cmd) && go.Proceed?
    requires Route(x, cmd) == Some(Dispatch(x, cmd))
    requires Legal(c, Next(c, Admitted(s, x, cmd), go), rest)
    ensures Legal(c, s, [Request(x, cmd), Check, go] + rest)
    ensures After(c, s, [Request(x, cmd), Check, go] + rest) == After(c, Next(c, Admitted(s, x, cmd), go), rest)
  {
    var s1 := Next(c, s, Request(x, cmd));
    Cons(c, Admitted(s, x, cmd), go, rest);
    Cons(c, s1, Check, [go] + rest);
    Cons(c, s, Request(x, cmd), [Check] + ([go] + rest));
    assert [Request(x, cmd)] + ([Check] + ([go] + rest)) == [Request(x, cmd), Check, go] + rest;
  }

  lemma Completed(c: Config, s: State)
    requires AtPhase(s, Handled) && s.holder.value.op.Dispatch?
    ensures Legal(c, s, [Completes])
    ensures After(c, s, [Completes]) == Free(s.(core := Complete(c, s.core, s.holder.value.op.cmd, s.now)))
  {
    Cons(c, s, Completes, []);
    assert [Completes] + [] == [Completes];
  }

  /** The owner's input in time is applied: the gamepad shows the frame, the
      lease is renewed and the input clock starts over. */
  lemma OwnersInputIsApplied(c: Config, s: State, x: Session, cmd: Command, f: J.Frame, go: Event)
    requires MayCommand(c, s, x, Control) && Means(cmd, f) && J.Understood(f) && go.Proceed?
    ensures var es := [Request(x, cmd), Check, go] + [Completes];
      Legal(c, s, es) &&
      var t := After(c, s, es);
      && t.holder.None? && J.Shows(s.core.device, t.core.device, f)
      && t.core == s.core.(device := t.core.device, deadline := s.now + c.ttl, lastInput := Some(s.now))
  {
    MeansFrame(cmd, f);
    InputCompletesIffUnderstood(s.core, cmd, go.launch, go.motorsOk);
    J.FrameShows(s.core.device, f);
    Completed(c, Next(c, Admitted(s, x, cmd), go));
    Handed(c, s, x, cmd, go, [Completes]);
  }

  /** One with an undefined number in it shows as far as it was understood, and
      neither renews the lease nor starts the clock. */
  lemma OwnersInputRaises(c: Config, s: State, x: Session, cmd: Command, f: J.Frame, go: Event)
    requires MayCommand(c, s, x, Control) && Means(cmd, f) && !J.Understood(f) && go.Proceed?
    ensures var es := [Request(x, cmd), Check, go] + [];
      Legal(c, s, es) &&
      var t := After(c, s, es);
      && t.holder.None? && J.Shows(s.core.device, t.core.device, J.Reached(f))
      && t.core == s.core.(device := t.core.device)
  {
    MeansFrame(cmd, f);
    InputCompletesIffUnderstood(s.core, cmd, go.launch, go.motorsOk);
    J.FrameShows(s.core.device, f);
    Handed(c, s, x, cmd, go, []);
  }

  /** A reset by an owner with admin scope centres the gamepad, and once the
      motors' errors are cleared it ends a running process; it keeps the owner
      in control and the input clock as it was. */
  lemma OwnersResetCentres(c: Config, s: State, x: Session, launch: P.Launch, motorsOk: bool, exited: bool)
    requires MayCommand(c, s, x, Admin)
    ensures var waits := motorsOk && s.core.policy.Running();
      var es := [Request(x, Reset), Check, Proceed(launch, motorsOk)]
                + (if waits then [ResetEnds(exited), Completes] else [Completes]);
      Legal(c, s, es) &&
      var t := After(c, s, es);
      && t.holder.None? && t.core == s.core.(device := J.NEUTRAL, deadline := s.now + c.ttl, policy := t.core.policy)
      && (if waits then (t.core.policy.Failed() <==> !exited || s.core.policy.failed) else t.core.policy == s.core.policy)
      && (waits && exited ==> t.core.policy.proc.NoProcess?)
  {
    var go := Proceed(launch, motorsOk);
    var s3 := Next(c, Admitted(s, x, Reset), go);
    if motorsOk && s.core.policy.Running() {
      var s4 := Next(c, s3, ResetEnds(exited));
      Completed(c, s4);
      Cons(c, s3, ResetEnds(exited), [Completes]);
      assert [ResetEnds(exited)] + [Completes] == [ResetEnds(exited), Completes];
      Handed(c, s, x, Reset, go, [ResetEnds(exited), Completes]);
    } else {
      Completed(c, s3);
      Handed(c, s, x, Reset, go, [Completes]);
    }
  }

  /** A start the owner asks for while nothing runs ends with the process alive
      if it got ready, and with none, failed, if not. */
  lemma OwnersStartEnds(c: Config, s: State, x: Session, probe: P.Probe)
    requires MayCommand(c, s, x, Control) && !s.core.policy.Running() && !probe.LockBusy?
    ensures var es := [Request(x, PolicyStart), Check, Proceed(P.Spawned, true)] + [StartEnds(probe), Completes];
      Legal(c, s, es) &&
      var t := After(c, s, es);
      && t.holder.None? && t.core == s.core.(deadline := s.now + c.ttl, policy := t.core.policy)
      && (t.core.policy.Running() <==> probe.Ready?) && (t.core.policy.Failed() <==> !probe.Ready?)
  {
    var go := Proceed(P.Spawned, true);
    var s3 := Next(c, Admitted(s, x, PolicyStart), go);
    Completed(c, Next(c, s3, StartEnds(probe)));
    Cons(c, s3, StartEnds(probe), [Completes]);
    assert [StartEnds(probe)] + [Completes] == [StartEnds(probe), Completes];
    Handed(c, s, x, PolicyStart, go, [StartEnds(probe), Completes]);
  }

  /** The rest of the commands only renew the lease. */
  lemma OtherCommandsOnlyRenew(c: Config, s: State, x: Session, cmd: Command, go: Event)
    requires MayCommand(c, s, x, Control) && cmd in {PolicyUnspecified, SkillAction, Unsupported} && go.Proceed?
    ensures var es := [Request(x, cmd), Check, go] + [Completes];
      Legal(c, s, es) &&
      var t := After(c, s, es);
      t.holder.None? && t.core == s.core.(deadline := s.now + c.ttl)
  {
    Completed(c, Next(c, Admitted(s, x, cmd), go));
    Handed(c, s, x, cmd, go, [Completes]);
  }

  /** A command cancelled while its handler waits frees the lock at once, renews
      nothing and leaves all else to go on; a stop's caller keeps the lock. */
  lemma CancelledCall(c: Config, s: State)
    requires Enabled(s, Cancel)
    ensures var s1 := Next(c, s, Cancel);
      && s1 == s.(holder := s1.holder)
      && (if InStop(s) then s1.holder == Some(s.holder.value.(cancelled := true)) else s1.holder.None?)
  {
  }

  // ---------------------------------------------------------------------
  // What callers are told
  // ---------------------------------------------------------------------

  /** Which error an acquire gives: the first that applies, of a missing scope, a
      fault, a latch and another owner. */
  lemma AcquireAnswers(c: Config, k: Core, x: Session, allowed: bool, now: real)
    ensures var err := AcquireBody(c, k, x, allowed, now).1;
      && (err == Some(Forbidden) <==> !allowed)
      && (err == Some(StopFailed) <==> allowed && k.fault)
      && (err == Some(ControlStopped) <==> allowed && !k.fault && k.stopped)
      && (err == Some(ControlBusy) <==> allowed && !k.fault && !k.stopped && k.owner !in {None, Some(x)})
      && (err == None <==> allowed && !k.fault && !k.stopped && k.owner in {None, Some(x)})
      && (err.Some? ==> AcquireBody(c, k, x, allowed, now).0 == k)
  {
  }

  /** And a dispatch: of a missing scope, no lease and a value that is not finite. */
  lemma DispatchAnswers(k: Core, x: Session, cmd: Command, allowed: bool)
    ensures var err := DispatchGuard(k, x, cmd, allowed);
      var finite := match cmd
        case Stick(a) => a.value.Finite?
        case ControlFrame(xs, _) => forall a :: a in xs ==> a.value.Finite?
        case _ => true;
      && (err == Some(Forbidden) <==> !allowed)
      && (err == Some(LeaseRequired) <==> allowed && k.owner != Some(x))
      && (err == Some(InvalidInput) <==> allowed && k.owner == Some(x) && !finite)
      && (err == None <==> allowed && k.owner == Some(x) && finite)
  {
  }
}
