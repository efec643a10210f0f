/** The two clocks of the lease: ownership and input freshness. */
module LeaseTiming {
  import opened Wrappers
  import opened LeaseCore
  import opened LeaseSteps
  import opened LeaseSafety
  import J = Joystick
  import P = Policy

  // ---------------------------------------------------------------------
  // Input freshness
  // ---------------------------------------------------------------------

  predicate CompletesInput(s: State, e: Event) {
    && e.Completes? && s.holder.Some? && s.holder.value.op.Dispatch?
    && (s.holder.value.op.cmd.Button? || s.holder.value.op.cmd.Stick? || s.holder.value.op.cmd.ControlFrame?)
  }

  /** When the latest input of the current tenure completed, read off the run:
      a stop forgets it, the completion of an input sets it, nothing else counts. */
  function InputClock(c: Config, s: State, es: seq<Event>, known: Option<real>): Option<real>
    requires Legal(c, s, es)
    decreases |es|
  {
    if es == [] then known
    else
      var known1 :=
        if es[0].StopRuns? then None
        else if CompletesInput(s, es[0]) then Some(s.now)
        else known;
      InputClock(c, Next(c, s, es[0]), es[1..], known1)
  }

  lemma ClockStep(c: Config, s: State, e: Event)
    requires Inv(c, s) && Enabled(s, e)
    ensures Next(c, s, e).core.lastInput ==
      if e.StopRuns? then None
      else if CompletesInput(s, e) then Some(s.now)
      else s.core.lastInput
  {
    match e
    case Proceed(launch, motorsOk) =>
      var op := s.holder.value.op;
      if op.Dispatch? && DispatchGuard(s.core, op.session, op.cmd, Has(s, op.session, ScopeOf(op.cmd))).None? {
        HandleKeepsLease(s.core, op.cmd, launch, motorsOk);
      }
    case StopRuns => StopFaultsExactlyWhen(s.core, false);
    case _ =>
  }

  lemma {:induction false} LastInputIsInputClock(c: Config, s: State, es: seq<Event>)
    requires Inv(c, s) && Legal(c, s, es) && CancelsHarmless(c, s, es)
    ensures After(c, s, es).core.lastInput == InputClock(c, s, es, s.core.lastInput)
    decreases |es|
  {
    if es != [] {
      InvStep(c, s, es[0]);
      ClockStep(c, s, es[0]);
      LastInputIsInputClock(c, Next(c, s, es[0]), es[1..]);
    }
  }

  // ---------------------------------------------------------------------
  // Ownership
  // ---------------------------------------------------------------------

  /** The owner's acquire, heartbeat or completed dispatch. */
  predicate Renews(c: Config, s: State, e: Event) {
    || (e.Proceed? && AtPhase(s, InBody) &&
          match s.holder.value.op
          case Acquire(x) => AcquireBody(c, s.core, x, Has(s, x, Control), s.now).1.None?
          case Heartbeat(x) => s.core.owner == Some(x)
          case _ => false)
    || (e.Completes? && AtPhase(s, Handled))
  }

  /** When the lease was last renewed, read off the run. */
  function RenewalClock(c: Config, s: State, es: seq<Event>, known: real): real
    requires Legal(c, s, es)
    decreases |es|
  {
    if es == [] then known
    else RenewalClock(c, Next(c, s, es[0]), es[1..], if Renews(c, s, es[0]) then s.now else known)
  }

  lemma RenewalStep(c: Config, s: State, e: Event)
    requires Inv(c, s) && Enabled(s, e)
    ensures Next(c, s, e).core.deadline == if Renews(c, s, e) then s.now + c.ttl else s.core.deadline
  {
    match e
    case Proceed(launch, motorsOk) =>
      var op := s.holder.value.op;
      if op.Dispatch? && DispatchGuard(s.core, op.session, op.cmd, Has(s, op.session, ScopeOf(op.cmd))).None? {
        HandleKeepsLease(s.core, op.cmd, launch, motorsOk);
      }
    case _ =>
  }

  lemma {:induction false} DeadlineIsRenewalClock(c: Config, s: State, es: seq<Event>, known: real)
    requires Inv(c, s) && Legal(c, s, es) && CancelsHarmless(c, s, es)
    requires s.core.owner.Some? ==> s.core.deadline == known + c.ttl
    ensures After(c, s, es).core.owner.Some? ==>
      After(c, s, es).core.deadline == RenewalClock(c, s, es, known) + c.ttl
    decreases |es|
  {
    if es != [] {
      InvStep(c, s, es[0]);
      RenewalStep(c, s, es[0]);
      if s.core.owner.None? && Next(c, s, es[0]).core.owner.Some? {
        GainStep(c, s, es[0], Next(c, s, es[0]).core.owner.value);
      }
      DeadlineIsRenewalClock(c, Next(c, s, es[0]), es[1..], if Renews(c, s, es[0]) then s.now else known);
    }
  }

  /** Control is never lost without cause: its owner released it, or somebody
      asked for a stop, or an expiry check came at least the ttl after the last
      renewal, or at least the input timeout after the last input. */
  lemma LossOnlyWhenDue(c: Config, es: seq<Event>, e: Event)
    requires Legal(c, INIT, es) && CancelsHarmless(c, INIT, es) && Enabled(After(c, INIT, es), e)
    requires After(c, INIT, es).core.owner.Some?
    requires Next(c, After(c, INIT, es), e).core.owner != After(c, INIT, es).core.owner
    ensures var s := After(c, INIT, es); var clock := InputClock(c, INIT, es, None);
      && e.StopRuns? && s.holder.Some?
      && var op := s.holder.value.op;
         || (op.Release? && Some(op.session) == s.core.owner)
         || op.Stop?
         || (ChecksExpiry(op) && s.checkedAt >= RenewalClock(c, INIT, es, 0.0) + c.ttl)
         || (ChecksExpiry(op) && clock.Some? && s.checkedAt - clock.value >= c.inputTimeout)
  {
    InvRun(c, INIT, es);
    LossStep(c, After(c, INIT, es), e);
    LastInputIsInputClock(c, INIT, es);
    DeadlineIsRenewalClock(c, INIT, es, 0.0);
  }

  /** Within a tenure an input, or any other command, is handed on only when its
      expiry check came less than the input timeout after the previous input
      completed, and less than the ttl after the last renewal; heartbeats,
      re-acquires and other commands never extend the former. */
  lemma InputGap(c: Config, es: seq<Event>, e: Event)
    requires Legal(c, INIT, es) && CancelsHarmless(c, INIT, es)
    requires Enabled(After(c, INIT, es), e) && Drives(After(c, INIT, es), e)
    ensures var s := After(c, INIT, es); var clock := InputClock(c, INIT, es, None);
      && (clock.Some? ==> s.checkedAt - clock.value < c.inputTimeout)
      && s.checkedAt - RenewalClock(c, INIT, es, 0.0) < c.ttl
  {
    LastInputIsInputClock(c, INIT, es);
    DeadlineIsRenewalClock(c, INIT, es, 0.0);
    InvRun(c, INIT, es);
  }

  /** Nobody renews a lease that was due: whatever renews it for its owner was
      checked less than the ttl after the last renewal, and less than the input
      timeout after the last input. */
  lemma RenewalInTime(c: Config, es: seq<Event>, e: Event)
    requires Legal(c, INIT, es) && CancelsHarmless(c, INIT, es) && Enabled(After(c, INIT, es), e)
    requires After(c, INIT, es).core.owner.Some? && e.Proceed? && Renews(c, After(c, INIT, es), e)
    ensures var s := After(c, INIT, es); var clock := InputClock(c, INIT, es, None);
      && s.checkedAt - RenewalClock(c, INIT, es, 0.0) < c.ttl
      && (clock.Some? ==> s.checkedAt - clock.value < c.inputTimeout)
  {
    LastInputIsInputClock(c, INIT, es);
    DeadlineIsRenewalClock(c, INIT, es, 0.0);
    InvRun(c, INIT, es);
  }

  // ---------------------------------------------------------------------
  // The watchdog
  // ---------------------------------------------------------------------

  function Max(a: real, b: real): real { if a >= b then a else b }

  /** Time passes only while the lock is free or its holder awaits the process:
      a stop for any time, a handler for up to h from the check that let it in.
      While somebody owns control and the lock is free, an expiry check comes
      round within d of the last renewal or of the end of a handler call let in
      by the last check. */
  predicate Watched(c: Config, h: real, d: real, s: State, es: seq<Event>)
    requires Legal(c, s, es)
    decreases |es|
  {
    es == [] ||
    (WatchedStep(c, h, d, s, es[0]) && Watched(c, h, d, Next(c, s, es[0]), es[1..]))
  }

  predicate WatchedStep(c: Config, h: real, d: real, s: State, e: Event) {
    e.Tick? ==>
      if s.holder.None? then
        s.core.owner.Some? ==> s.now + e.dt <= Max(s.checkedAt + h, s.core.deadline - c.ttl) + d
      else if AtPhase(s, AwaitingStart) || AtPhase(s, AwaitingReset) then s.now + e.dt <= s.checkedAt + h
      else AtPhase(s, StopWaiting)
  }

  predicate ExpirySpawned(s: State) {
    AtPhase(s, StopSpawned) && ChecksExpiry(s.holder.value.op)
  }

  predicate CheckedNow(s: State) {
    AtPhase(s, InBody) && ChecksExpiry(s.holder.value.op) && s.core.owner.Some? ==> s.checkedAt == s.now
  }

  // ---------------------------------------------------------------------
  // A bound on tenure
  // ---------------------------------------------------------------------

  predicate TenureInv(c: Config, h: real, d: real, s: State) {
    && s.checkedAt <= s.now && CheckedNow(s) && (InHandler(s) ==> s.now <= s.checkedAt + h)
    && (s.core.owner.Some? ==>
         && s.now < s.core.deadline + h + d && s.core.deadline - c.ttl <= s.now
         && (!ExpirySpawned(s) ==> s.checkedAt < s.core.deadline))
  }

  lemma TenureStep(c: Config, h: real, d: real, s: State, e: Event)
    requires c.Valid() && h >= 0.0 && d >= 0.0 && Inv(c, s) && TenureInv(c, h, d, s) && Enabled(s, e) && WatchedStep(c, h, d, s, e)
    ensures TenureInv(c, h, d, Next(c, s, e))
  {
    RenewalStep(c, s, e);
    if s.core.owner != Next(c, s, e).core.owner && Next(c, s, e).core.owner.Some? {
      GainStep(c, s, e, Next(c, s, e).core.owner.value);
    }
  }

  lemma {:induction false} TenureRun(c: Config, h: real, d: real, s: State, es: seq<Event>)
    requires c.Valid() && h >= 0.0 && d >= 0.0 && Inv(c, s) && TenureInv(c, h, d, s)
    requires Legal(c, s, es) && CancelsHarmless(c, s, es) && Watched(c, h, d, s, es)
    ensures TenureInv(c, h, d, After(c, s, es))
    decreases |es|
  {
    if es != [] {
      InvStep(c, s, es[0]);
      TenureStep(c, h, d, s, es[0]);
      TenureRun(c, h, d, Next(c, s, es[0]), es[1..]);
    }
  }

  /** If the watchdog comes round every d and handler calls take up to h, nobody
      owns control for the ttl plus h plus d after the lease was last renewed. */
  lemma TenureEnds(c: Config, h: real, d: real, es: seq<Event>)
    requires c.Valid() && h >= 0.0 && d >= 0.0
    requires Legal(c, INIT, es) && CancelsHarmless(c, INIT, es) && Watched(c, h, d, INIT, es)
    ensures var s := After(c, INIT, es);
      s.core.owner.Some? ==> s.now < RenewalClock(c, INIT, es, 0.0) + c.ttl + h + d
  {
    TenureRun(c, h, d, INIT, es);
    DeadlineIsRenewalClock(c, INIT, es, 0.0);
  }

  // ---------------------------------------------------------------------
  // A bound on stale input
  // ---------------------------------------------------------------------

  /** An input handed on here is understood throughout, or the input clock is
      running already, or what gets written before the first number it does not
      understand leaves the gamepad centred. */
  predicate InputHarmless(s: State, e: Event) {
    Drives(s, e) && IsInput(s.holder.value.op.cmd) ==>
      var f := FrameOf(s.holder.value.op.cmd);
      J.Understood(f) || s.core.lastInput.Some? || J.ApplyFrame(s.core.device, f).device == J.NEUTRAL
  }

  predicate InputsHarmless(c: Config, s: State, es: seq<Event>)
    requires Legal(c, s, es)
    decreases |es|
  {
    es == [] || (InputHarmless(s, es[0]) && InputsHarmless(c, Next(c, s, es[0]), es[1..]))
  }

  /** A gamepad off centre means that the last input completed less than the
      input timeout plus h plus d ago, or is just about to complete. */
  predicate NoStaleInput(c: Config, h: real, d: real, s: State) {
    s.core.device != J.NEUTRAL ==>
      || (AtPhase(s, Handled) && s.holder.value.op.Dispatch? && IsInput(s.holder.value.op.cmd))
      || (s.core.lastInput.Some? && s.now < s.core.lastInput.value + c.inputTimeout + h + d)
  }

  predicate TimeInv(c: Config, h: real, d: real, s: State) {
    && s.checkedAt <= s.now && CheckedNow(s) && (InHandler(s) ==> s.now <= s.checkedAt + h)
    && (s.core.device != J.NEUTRAL && s.core.lastInput.None? ==>
          AtPhase(s, Handled) && s.holder.value.op.Dispatch? && IsInput(s.holder.value.op.cmd))
    && (s.core.lastInput.Some? ==> InputInv(c, h, d, s, s.core.lastInput.value))
  }

  predicate InputInv(c: Config, h: real, d: real, s: State, t: real) {
    && s.now < t + c.inputTimeout + h + d
    && t <= s.now
    && (!ExpirySpawned(s) ==> s.checkedAt - t < c.inputTimeout)
    && s.core.deadline - c.ttl <= Max(s.checkedAt + h, t)
  }

  lemma TimeDispatch(c: Config, h: real, d: real, s: State, launch: P.Launch, motorsOk: bool)
    requires c.Valid() && h >= 0.0 && d >= 0.0 && Inv(c, s) && TimeInv(c, h, d, s) && AtPhase(s, InBody) && s.holder.value.op.Dispatch?
    requires InputHarmless(s, Proceed(launch, motorsOk))
    ensures TimeInv(c, h, d, Next(c, s, Proceed(launch, motorsOk)))
  {
    var op := s.holder.value.op;
    if DispatchGuard(s.core, op.session, op.cmd, Has(s, op.session, ScopeOf(op.cmd))).None? {
      HandleKeepsLease(s.core, op.cmd, launch, motorsOk);
      if IsInput(op.cmd) {
        InputCompletesIffUnderstood(s.core, op.cmd, launch, motorsOk);
      } else {
        CommandsOnlyCentre(s.core, op.cmd, launch, motorsOk);
      }
    }
  }

  /** Commands other than inputs either leave the gamepad alone or centre it. */
  lemma CommandsOnlyCentre(k: Core, cmd: Command, launch: P.Launch, motorsOk: bool)
    requires AllFinite(cmd) && !IsInput(cmd)
    ensures Handle(k, cmd, launch, motorsOk).0.device == if cmd.Reset? then J.NEUTRAL else k.device
    ensures !Handle(k, cmd, launch, motorsOk).1.Raised?
  {
  }

  lemma TimeOther(c: Config, h: real, d: real, s: State, launch: P.Launch, motorsOk: bool)
    requires c.Valid() && h >= 0.0 && d >= 0.0 && Inv(c, s) && TimeInv(c, h, d, s) && AtPhase(s, InBody) && !s.holder.value.op.Dispatch?
    ensures TimeInv(c, h, d, Next(c, s, Proceed(launch, motorsOk)))
  {
  }

  lemma TimeStop(c: Config, h: real, d: real, s: State, e: Event)
    requires c.Valid() && h >= 0.0 && d >= 0.0 && Inv(c, s) && TimeInv(c, h, d, s) && Enabled(s, e)
    requires e.StopRuns? || e.StopEnds? || e.Resume? || e.Cancel? || e.CancelAgain?
    ensures TimeInv(c, h, d, Next(c, s, e))
  {
    if e.StopRuns? { StopFaultsExactlyWhen(s.core, false); }
  }

  lemma TimeHandler(c: Config, h: real, d: real, s: State, e: Event)
    requires c.Valid() && h >= 0.0 && d >= 0.0 && Inv(c, s) && TimeInv(c, h, d, s) && Enabled(s, e)
    requires e.StartEnds? || e.ResetEnds? || e.Completes?
    ensures TimeInv(c, h, d, Next(c, s, e))
  {
  }

  lemma TimeEntry(c: Config, h: real, d: real, s: State, e: Event)
    requires c.Valid() && h >= 0.0 && d >= 0.0 && Inv(c, s) && TimeInv(c, h, d, s) && Enabled(s, e)
    requires e.Begin? || e.Request? || e.Check?
    ensures TimeInv(c, h, d, Next(c, s, e))
  {
  }

  lemma TimeTick(c: Config, h: real, d: real, s: State, dt: real)
    requires c.Valid() && h >= 0.0 && d >= 0.0 && Inv(c, s) && TimeInv(c, h, d, s) && Enabled(s, Tick(dt))
    requires WatchedStep(c, h, d, s, Tick(dt))
    ensures TimeInv(c, h, d, Next(c, s, Tick(dt)))
  {
  }

  lemma TimeStep(c: Config, h: real, d: real, s: State, e: Event)
    requires c.Valid() && h >= 0.0 && d >= 0.0 && Inv(c, s) && TimeInv(c, h, d, s) && Enabled(s, e)
    requires WatchedStep(c, h, d, s, e) && InputHarmless(s, e)
    ensures TimeInv(c, h, d, Next(c, s, e))
  {
    match e
    case Proceed(launch, motorsOk) =>
      if s.holder.value.op.Dispatch? {
        TimeDispatch(c, h, d, s, launch, motorsOk);
      } else {
        TimeOther(c, h, d, s, launch, motorsOk);
      }
    case StopRuns => TimeStop(c, h, d, s, e);
    case StopEnds(_) => TimeStop(c, h, d, s, e);
    case Resume => TimeStop(c, h, d, s, e);
    case Cancel => TimeStop(c, h, d, s, e);
    case CancelAgain => TimeStop(c, h, d, s, e);
    case StartEnds(_) => TimeHandler(c, h, d, s, e);
    case ResetEnds(_) => TimeHandler(c, h, d, s, e);
    case Completes => TimeHandler(c, h, d, s, e);
    case Begin(_) => TimeEntry(c, h, d, s, e);
    case Request(_, _) => TimeEntry(c, h, d, s, e);
    case Check => TimeEntry(c, h, d, s, e);
    case Tick(dt) => TimeTick(c, h, d, s, dt);
    case _ =>
  }

  /** A harmful input breaks the bound at the very step it is handed on. */
  lemma HarmfulStep(c: Config, h: real, d: real, s: State, e: Event)
    requires Inv(c, s) && Enabled(s, e) && !InputHarmless(s, e)
    ensures !NoStaleInput(c, h, d, Next(c, s, e))
  {
    InputCompletesIffUnderstood(s.core, s.holder.value.op.cmd, e.launch, e.motorsOk);
  }

  lemma {:induction false} TimeRun(c: Config, h: real, d: real, s: State, es: seq<Event>, n: nat)
    requires c.Valid() && h >= 0.0 && d >= 0.0 && Inv(c, s) && TimeInv(c, h, d, s)
    requires Legal(c, s, es) && CancelsHarmless(c, s, es) && Watched(c, h, d, s, es)
    requires InputsHarmless(c, s, es) && n <= |es|
    ensures TimeInv(c, h, d, StateAt(c, s, es, n))
    decreases n
  {
    if n > 0 {
      InvStep(c, s, es[0]);
      TimeStep(c, h, d, s, es[0]);
      TimeRun(c, h, d, Next(c, s, es[0]), es[1..], n - 1);
    }
  }

  lemma {:induction false} FirstHarm(c: Config, h: real, d: real, s: State, es: seq<Event>) returns (n: nat)
    requires Inv(c, s) && Legal(c, s, es) && CancelsHarmless(c, s, es) && !InputsHarmless(c, s, es)
    ensures n <= |es| && !NoStaleInput(c, h, d, StateAt(c, s, es, n))
    decreases |es|
  {
    var s1 := Next(c, s, es[0]);
    assert StateAt(c, s, es, 1) == StateAt(c, s1, es[1..], 0) == s1;
    if InputHarmless(s, es[0]) {
      InvStep(c, s, es[0]);
      var m := FirstHarm(c, h, d, s1, es[1..]);
      assert StateAt(c, s, es, m + 1) == StateAt(c, s1, es[1..], m);
      n := m + 1;
    } else {
      HarmfulStep(c, h, d, s, es[0]);
      n := 1;
    }
  }

  /** If the watchdog comes round every d and handler calls take up to h, then throughout a run no input ever
      goes stale if and only if every input handed on in it is harmless. */
  lemma NeutralByDeadline(c: Config, h: real, d: real, es: seq<Event>)
    requires c.Valid() && h >= 0.0 && d >= 0.0
    requires Legal(c, INIT, es) && CancelsHarmless(c, INIT, es) && Watched(c, h, d, INIT, es)
    ensures InputsHarmless(c, INIT, es) <==>
      forall n: nat :: n <= |es| ==> NoStaleInput(c, h, d, StateAt(c, INIT, es, n))
  {
    if InputsHarmless(c, INIT, es) {
      forall n: nat | n <= |es| ensures NoStaleInput(c, h, d, StateAt(c, INIT, es, n)) {
        TimeRun(c, h, d, INIT, es, n);
      }
    } else {
      var n := FirstHarm(c, h, d, INIT, es);
    }
  }

  // ---------------------------------------------------------------------
  // Frames the handler does not understand escape the bound
  // ---------------------------------------------------------------------

  /** Left stick hard over, then an axis number nobody has defined. */
  const HALF_FRAME := ControlFrame([AxisValue(1, Finite(1.0)), AxisValue(7, Finite(0.0))], [])

  lemma HalfFrameDeflects(k: Core, launch: P.Launch, motorsOk: bool)
    requires k.device == J.NEUTRAL
    ensures AllFinite(HALF_FRAME) && IsInput(HALF_FRAME) && !J.Understood(FrameOf(HALF_FRAME))
    ensures Handle(k, HALF_FRAME, launch, motorsOk) ==
      (k.(device := J.RawDevice.Device([32767, 0, 0, 0, 0, 0], {})), Raised)
  {
    var f := FrameOf(HALF_FRAME);
    assert f.axes == [J.AxisInput(1, 1.0), J.AxisInput(7, 0.0)];
    assert f.axes[1] in f.axes;
    assert f.axes[1..] == [J.AxisInput(7, 0.0)];
    var r := J.ApplyAxis(k.device, f.axes[0]);
    assert J.Level(1.0) == 32767;
    assert r.device.axes == [32767, 0, 0, 0, 0, 0];
    assert !J.ApplyAxes(r.device, f.axes[1..]).ok && J.ApplyAxes(r.device, f.axes[1..]).device == r.device;
    assert J.ApplyAxes(k.device, f.axes) == J.ApplyAxes(r.device, f.axes[1..]);
  }

  lemma {:induction false} WatchedAppend(c: Config, d: real, s: State, es: seq<Event>, e: Event)
    requires Legal(c, s, es) && Enabled(After(c, s, es), e) && Legal(c, s, es + [e])
    requires Watched(c, 0.0, d, s, es) && WatchedStep(c, 0.0, d, After(c, s, es), e)
    ensures Watched(c, 0.0, d, s, es + [e])
    decreases |es|
  {
    if es == [] {
      assert es + [e] == [e];
      assert Watched(c, 0.0, d, Next(c, s, e), []);
    } else {
      assert (es + [e])[1..] == es[1..] + [e];
      WatchedAppend(c, d, Next(c, s, es[0]), es[1..], e);
    }
  }

  lemma WatchedThen(c: Config, d: real, es: seq<Event>, s: State, e: Event) returns (es': seq<Event>, s': State)
    requires Legal(c, INIT, es) && s == After(c, INIT, es) && Enabled(s, e)
    requires SingleCancel(es) && !e.CancelAgain? && Watched(c, 0.0, d, INIT, es) && WatchedStep(c, 0.0, d, s, e)
    ensures es' == es + [e] && s' == Next(c, s, e)
    ensures Legal(c, INIT, es') && s' == After(c, INIT, es') && SingleCancel(es') && Watched(c, 0.0, d, INIT, es')
  {
    es', s' := Then(c, es, s, e);
    WatchedAppend(c, d, INIT, es, e);
  }

  /** Session 1 in control, its stick hard over, no input on record. */
  predicate Stuck(c: Config, s: State) {
    && s.holder.None? && s.core.owner == Some(1) && s.core.lastInput.None?
    && s.core.device == J.RawDevice.Device([32767, 0, 0, 0, 0, 0], {})
    && s.checkedAt == s.now && s.core.deadline == s.now + c.ttl
  }

  lemma AcquiredAtStart(c: Config, d: real) returns (es: seq<Event>, s: State)
    requires c.Valid()
    ensures Legal(c, INIT, es) && s == After(c, INIT, es) && SingleCancel(es) && Watched(c, 0.0, d, INIT, es)
    ensures s == INIT.(core := FRESH.(owner := Some(1), deadline := c.ttl), holders := {1}, grants := map[1 := {Control}])
  {
    assert Watched(c, 0.0, d, INIT, []);
    es, s := WatchedThen(c, d, [], INIT, SetGrants(1, {Control}));
    es, s := WatchedThen(c, d, es, s, Begin(Acquire(1)));
    es, s := WatchedThen(c, d, es, s, Check);
    es, s := WatchedThen(c, d, es, s, Proceed(P.Spawned, true));
  }

  lemma StuckFromTheStart(c: Config, d: real) returns (es: seq<Event>, s: State)
    requires c.Valid()
    ensures Legal(c, INIT, es) && s == After(c, INIT, es) && SingleCancel(es) && Watched(c, 0.0, d, INIT, es)
    ensures Stuck(c, s) && s.now == 0.0
  {
    es, s := AcquiredAtStart(c, d);
    es, s := WatchedThen(c, d, es, s, Request(1, HALF_FRAME));
    es, s := WatchedThen(c, d, es, s, Check);
    HalfFrameDeflects(s.core, P.Spawned, true);
    es, s := WatchedThen(c, d, es, s, Proceed(P.Spawned, true));
  }

  lemma StuckRound(c: Config, d: real, es: seq<Event>, s: State) returns (es': seq<Event>, s': State)
    requires c.Valid() && 0.0 <= d < c.ttl
    requires Legal(c, INIT, es) && s == After(c, INIT, es) && SingleCancel(es) && Watched(c, 0.0, d, INIT, es)
    requires Stuck(c, s)
    ensures Legal(c, INIT, es') && s' == After(c, INIT, es') && SingleCancel(es') && Watched(c, 0.0, d, INIT, es')
    ensures Stuck(c, s') && s'.now == s.now + d
    ensures es' == es + [Tick(d), Begin(Heartbeat(1)), Check, Proceed(P.Spawned, true)]
  {
    es', s' := WatchedThen(c, d, es, s, Tick(d));
    es', s' := WatchedThen(c, d, es', s', Begin(Heartbeat(1)));
    es', s' := WatchedThen(c, d, es', s', Check);
    es', s' := WatchedThen(c, d, es', s', Proceed(P.Spawned, true));
  }

  /** A frame that is understood only in part leaves the stick hard over with
      no input on record: the lease is renewed and checked every d, and for any
      number of periods the stick never comes back. */
  lemma {:induction false} HalfFrameEscapesTimeout(c: Config, d: real, n: nat) returns (es: seq<Event>)
    requires c.Valid() && 0.0 <= d < c.ttl
    ensures Legal(c, INIT, es) && SingleCancel(es) && Watched(c, 0.0, d, INIT, es)
    ensures Stuck(c, After(c, INIT, es)) && After(c, INIT, es).now == n as real * d
    decreases n
  {
    if n == 0 {
      var s;
      es, s := StuckFromTheStart(c, d);
    } else {
      var before := HalfFrameEscapesTimeout(c, d, n - 1);
      var s;
      es, s := StuckRound(c, d, before, After(c, INIT, before));
      assert (n - 1) as real * d + d == n as real * d;
    }
  }
}
