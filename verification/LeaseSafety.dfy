/** Safety of the lease over every run: exclusive hand-over, a neutral robot
    between owners, the stop latch, the fault flag, and who may drive. */
module LeaseSafety {
  import opened Wrappers
  import opened LeaseCore
  import opened LeaseSteps
  import J = Joystick
  import P = Policy

  /** What the expiry check of the current caller established. */
  predicate FreshAtCheck(c: Config, s: State) {
    && s.checkedAt < s.core.deadline
    && (s.core.lastInput.Some? ==> s.checkedAt - s.core.lastInput.value < c.inputTimeout)
  }

  predicate LatchPending(s: State) {
    AtPhase(s, StopSpawned) && s.holder.value.op.Stop? && s.holder.value.op.latch
  }

  predicate Inv(c: Config, s: State) {
    && (s.core.owner.None? ==> s.core.lastInput.None? && s.core.device == J.NEUTRAL)
    && (s.core.owner.None? && !s.core.fault && !AtPhase(s, StopWaiting) ==> !s.core.policy.Running())
    && (s.core.owner.Some? ==> !s.core.fault && s.core.owner.value in s.holders)
    && (s.core.owner.Some? && s.core.stopped ==> LatchPending(s))
    && (s.holder.Some? ==> CallInv(c, s, s.holder.value))
  }

  predicate CallInv(c: Config, s: State, call: Call) {
    && (call.phase.Checking? ==> ChecksExpiry(call.op) && !call.cancelled)
    && (call.phase.InBody? ==> !call.cancelled)
    && (call.phase.InBody? && ChecksExpiry(call.op) && s.core.owner.Some? ==> FreshAtCheck(c, s))
    && (call.phase.StopSpawned? ==>
          if call.op.Release? then s.core.owner == Some(call.op.session)
          else call.op.Stop? || (ChecksExpiry(call.op) && Expired(c, s.core, s.checkedAt)))
    && (call.phase.StopSpawned? && call.op.Stop? && call.op.latch ==> s.core.stopped)
    && (call.phase.StopWaiting? || call.phase.StopFinished? ==> s.core.owner.None?)
    && (call.phase.StopFinished? && !call.phase.ok ==> s.core.fault)
    && (call.op.Dispatch? ==> Route(call.op.session, call.op.cmd) == Some(call.op))
    && (InHandler(s) ==> call.op.Dispatch? && s.core.owner == Some(call.op.session))
  }

  lemma HandleKeepsLease(k: Core, cmd: Command, launch: P.Launch, motorsOk: bool)
    requires AllFinite(cmd)
    ensures var k1 := Handle(k, cmd, launch, motorsOk).0;
      k1.owner == k.owner && k1.deadline == k.deadline && k1.lastInput == k.lastInput &&
      k1.fault == k.fault && k1.stopped == k.stopped
  {
  }

  lemma BodyKeepsInv(c: Config, s: State, launch: P.Launch, motorsOk: bool)
    requires Inv(c, s) && AtPhase(s, InBody)
    ensures Inv(c, RunBody(c, s, launch, motorsOk))
  {
    var op := s.holder.value.op;
    match op
    case Dispatch(x, cmd) =>
      if DispatchGuard(s.core, x, cmd, Has(s, x, ScopeOf(cmd))).None? {
        HandleKeepsLease(s.core, cmd, launch, motorsOk);
        assert s.core.owner == Some(x);
      }
    case _ =>
  }

  lemma StopKeepsInv(c: Config, s: State, e: Event)
    requires Inv(c, s) && Enabled(s, e) && (e.StopRuns? || e.StopEnds?)
    ensures Inv(c, Next(c, s, e))
  {
    StopFaultsExactlyWhen(s.core, e.StopEnds? && e.exited);
  }

  lemma ResumeKeepsInv(c: Config, s: State)
    requires Inv(c, s) && Enabled(s, Resume)
    ensures Inv(c, Next(c, s, Resume))
  {
  }

  lemma HandlerKeepsInv(c: Config, s: State, e: Event)
    requires Inv(c, s) && Enabled(s, e) && (e.StartEnds? || e.ResetEnds? || e.Completes?)
    ensures Inv(c, Next(c, s, e))
  {
    assert InHandler(s);
  }

  lemma OutsideKeepsInv(c: Config, s: State, e: Event)
    requires Inv(c, s) && Enabled(s, e)
    requires e.Tick? || e.ProcessDies? || e.WatchNotices? || e.Notice? || e.SetGrants?
    ensures Inv(c, Next(c, s, e))
  {
  }

  lemma LockKeepsInv(c: Config, s: State, e: Event)
    requires Inv(c, s) && Enabled(s, e) && (e.Begin? || e.Request? || e.Check? || e.Cancel?)
    ensures Inv(c, Next(c, s, e))
  {
  }

  /** A second cancellation of a stop strikes the stop task itself, which has
      then taken its first step.  It does no harm unless it ends the wait for a
      running process. */
  predicate CancelHarmless(s: State, e: Event) {
    e.CancelAgain? ==> !(AtPhase(s, StopWaiting) && !s.core.fault && s.core.policy.Running())
  }

  /** Every second cancellation in the run is one of the harmless kind. */
  predicate CancelsHarmless(c: Config, s: State, es: seq<Event>)
    requires Legal(c, s, es)
    decreases |es|
  {
    es == [] || (CancelHarmless(s, es[0]) && CancelsHarmless(c, Next(c, s, es[0]), es[1..]))
  }

  lemma {:induction false} SingleCancelHarmless(c: Config, s: State, es: seq<Event>)
    requires Legal(c, s, es) && SingleCancel(es)
    ensures CancelsHarmless(c, s, es)
    decreases |es|
  {
    if es != [] {
      assert es[0] in es;
      SingleCancelHarmless(c, Next(c, s, es[0]), es[1..]);
    }
  }

  lemma InvStep(c: Config, s: State, e: Event)
    requires Inv(c, s) && Enabled(s, e) && CancelHarmless(s, e)
    ensures Inv(c, Next(c, s, e))
  {
    match e
    case Proceed(launch, motorsOk) => BodyKeepsInv(c, s, launch, motorsOk);
    case StopRuns => StopKeepsInv(c, s, e);
    case StopEnds(_) => StopKeepsInv(c, s, e);
    case Resume => ResumeKeepsInv(c, s);
    case StartEnds(_) => HandlerKeepsInv(c, s, e);
    case ResetEnds(_) => HandlerKeepsInv(c, s, e);
    case Completes => HandlerKeepsInv(c, s, e);
    case Begin(_) => LockKeepsInv(c, s, e);
    case Request(_, _) => LockKeepsInv(c, s, e);
    case Check => LockKeepsInv(c, s, e);
    case Cancel => LockKeepsInv(c, s, e);
    case CancelAgain => SecondCancelExactly(c, s);
    case _ => OutsideKeepsInv(c, s, e);
  }

  /** The condition is exact: a second cancellation keeps the invariant if and
      only if it is harmless. */
  lemma SecondCancelExactly(c: Config, s: State)
    requires Inv(c, s) && Enabled(s, CancelAgain)
    ensures Inv(c, Next(c, s, CancelAgain)) <==> CancelHarmless(s, CancelAgain)
  {
  }

  lemma {:induction false} InvRun(c: Config, s: State, es: seq<Event>)
    requires Inv(c, s) && Legal(c, s, es) && CancelsHarmless(c, s, es)
    ensures Inv(c, After(c, s, es))
    decreases |es|
  {
    if es != [] {
      InvStep(c, s, es[0]);
      InvRun(c, Next(c, s, es[0]), es[1..]);
    }
  }

  lemma {:induction false} InvAt(c: Config, s: State, es: seq<Event>, n: nat)
    requires Inv(c, s) && Legal(c, s, es) && CancelsHarmless(c, s, es) && n <= |es|
    ensures Inv(c, StateAt(c, s, es, n))
    decreases n
  {
    if n > 0 {
      InvStep(c, s, es[0]);
      InvAt(c, Next(c, s, es[0]), es[1..], n - 1);
    }
  }

  // ---------------------------------------------------------------------
  // Between owners
  // ---------------------------------------------------------------------

  /** Whenever nobody owns control, no input is pending and the gamepad is
      centred; and once the lock is free as well, no process runs unless a stop
      has failed. */
  lemma NeutralBetweenOwners(c: Config, es: seq<Event>)
    requires Legal(c, INIT, es) && CancelsHarmless(c, INIT, es)
    ensures var s := After(c, INIT, es);
      && (s.core.owner.None? ==> s.core.lastInput.None? && s.core.device == J.NEUTRAL)
      && (s.core.owner.None? && s.holder.None? && !s.core.fault ==> !s.core.policy.Running())
      && (s.core.owner.Some? ==> !s.core.fault)
      && (s.core.owner.Some? && s.holder.None? ==> !s.core.stopped)
  {
    InvRun(c, INIT, es);
  }

  lemma GainStep(c: Config, s: State, e: Event, b: Session)
    requires Inv(c, s) && Enabled(s, e)
    requires s.core.owner != Some(b) && Next(c, s, e).core.owner == Some(b)
    ensures s.holder == Some(Call(Acquire(b), InBody, false)) && e.Proceed?
    ensures s.core.owner.None? && !s.core.fault && !s.core.stopped && Has(s, b, Control)
    ensures Next(c, s, e).core == s.core.(owner := Some(b), deadline := s.now + c.ttl, lastInput := None)
  {
    match e
    case Proceed(launch, motorsOk) =>
      var op := s.holder.value.op;
      if op.Dispatch? && DispatchGuard(s.core, op.session, op.cmd, Has(s, op.session, ScopeOf(op.cmd))).None? {
        HandleKeepsLease(s.core, op.cmd, launch, motorsOk);
      }
    case StopRuns => StopFaultsExactlyWhen(s.core, false);
    case _ =>
  }

  /** Control only ever passes to a session through its own acquire, run to the
      end under the lock, on a robot that is neutral and has no latch or fault. */
  lemma {:induction false} Handover(c: Config, s: State, es: seq<Event>, b: Session) returns (k: nat)
    requires Inv(c, s) && Legal(c, s, es) && CancelsHarmless(c, s, es)
    requires s.core.owner != Some(b) && After(c, s, es).core.owner == Some(b)
    ensures k < |es| && es[k].Proceed?
    ensures var t := StateAt(c, s, es, k);
      && t.holder == Some(Call(Acquire(b), InBody, false)) && Has(t, b, Control)
      && t.core.owner.None? && t.core.lastInput.None? && t.core.device == J.NEUTRAL
      && !t.core.policy.Running() && !t.core.fault && !t.core.stopped
      && StateAt(c, s, es, k + 1).core == t.core.(owner := Some(b), deadline := t.now + c.ttl)
    decreases |es|
  {
    InvStep(c, s, es[0]);
    var s1 := Next(c, s, es[0]);
    if s1.core.owner == Some(b) {
      GainStep(c, s, es[0], b);
      assert StateAt(c, s1, es[1..], 0) == s1;
      k := 0;
    } else {
      var j := Handover(c, s1, es[1..], b);
      assert StateAt(c, s, es, j + 2) == StateAt(c, s1, es[1..], j + 1);
      k := j + 1;
    }
  }

  /** Whether the stop of an expired owner succeeds. */
  predicate StopSucceeds(k: Core, exited: bool) {
    if k.policy.Running() then exited else !k.policy.Failed()
  }

  /** Only the session's own acquire acts, and its stop task if there is one. */
  predicate OnlyAcquires(es: seq<Event>, exited: bool) {
    forall e :: e in es ==> e in {Check, Proceed(P.Spawned, true), StopRuns, StopEnds(exited), Resume}
  }

  /** An acquire that nobody disturbs leaves the session in control exactly when
      it was already and its time is not up, or it may control, nothing is
      latched or faulted, and control is free or held by an owner whose time is
      up and whose stop succeeds. */
  lemma UndisturbedAcquire(c: Config, s: State, x: Session, exited: bool) returns (es: seq<Event>)
    requires c.Valid() && Inv(c, s) && s.holder.None?
    ensures es != [] && es[0] == Begin(Acquire(x)) && OnlyAcquires(es[1..], exited)
    ensures Legal(c, s, es) && After(c, s, es).holder.None?
    ensures After(c, s, es).core.owner == Some(x) <==>
      if s.core.owner == Some(x) && !Expired(c, s.core, s.now) then true
      else
        && Has(s, x, Control) && !s.core.fault && !s.core.stopped
        && (if Expired(c, s.core, s.now) then StopSucceeds(s.core, exited) else s.core.owner.None?)
  {
    var s1 := Next(c, s, Begin(Acquire(x)));
    var s2 := Next(c, s1, Check);
    var rest;
    if Expired(c, s.core, s.now) {
      rest := AcquireAfterExpiry(c, s2, x, exited);
    } else {
      rest := [Proceed(P.Spawned, true)];
      Cons(c, s2, rest[0], []);
    }
    Cons(c, s1, Check, rest);
    es := [Begin(Acquire(x))] + ([Check] + rest);
    Cons(c, s, es[0], [Check] + rest);
  }

  lemma AcquireAfterExpiry(c: Config, s: State, x: Session, exited: bool) returns (es: seq<Event>)
    requires c.Valid() && s.holder == Some(Call(Acquire(x), StopSpawned, false)) && !s.core.fault
    ensures Legal(c, s, es) && OnlyAcquires(es, exited) && After(c, s, es).holder.None?
    ensures After(c, s, es).core.owner == Some(x) <==>
      Has(s, x, Control) && !s.core.stopped && StopSucceeds(s.core, exited)
  {
    var ok := StopSucceeds(s.core, exited);
    StopFaultsExactlyWhen(s.core, exited);
    var s1 := Next(c, s, StopRuns);
    var rest;
    if AtPhase(s1, StopWaiting) {
      var s2 := Next(c, s1, StopEnds(exited));
      var tail := AcquireAfterStop(c, s2, x, ok);
      rest := [StopEnds(exited)] + tail;
      Cons(c, s1, rest[0], tail);
    } else {
      rest := AcquireAfterStop(c, s1, x, ok);
    }
    es := [StopRuns] + rest;
    Cons(c, s, StopRuns, rest);
  }

  lemma AcquireAfterStop(c: Config, s: State, x: Session, ok: bool) returns (es: seq<Event>)
    requires c.Valid() && s.holder == Some(Call(Acquire(x), StopFinished(ok), false))
    requires s.core.owner.None? && s.core.fault == !ok
    ensures Legal(c, s, es) && OnlyAcquires(es, ok) && OnlyAcquires(es, !ok) && After(c, s, es).holder.None?
    ensures After(c, s, es).core.owner == Some(x) <==> Has(s, x, Control) && !s.core.stopped && ok
  {
    var s1 := Next(c, s, Resume);
    var rest := [];
    if ok {
      rest := [Proceed(P.Spawned, true)];
      Cons(c, s1, rest[0], []);
    }
    es := [Resume] + rest;
    Cons(c, s, Resume, rest);
  }

  // ---------------------------------------------------------------------
  // A stop, once begun, is finished under the lock
  // ---------------------------------------------------------------------

  lemma StopStep(c: Config, s: State, e: Event)
    requires Inv(c, s) && Enabled(s, e) && InStop(s) && !e.Resume? && !e.CancelAgain?
    ensures InStop(Next(c, s, e)) && Next(c, s, e).holder.value.op == s.holder.value.op
    ensures Next(c, s, e).core.owner in {None, s.core.owner}
    ensures !s.holder.value.phase.StopSpawned? ==> !Next(c, s, e).holder.value.phase.StopSpawned?
  {
  }

  /** The step that ends a stop which has taken control away: its caller
      resumes, or is cancelled again with no process left to wait for. */
  predicate EndsStop(s: State, e: Event) {
    e.Resume? || (e.CancelAgain? && !s.core.policy.Running())
  }

  /** After a stop task has taken control away, whoever owns control later got
      it after that stop ended: up to then the caller keeps the lock, cancelled
      or not, and there is no owner. */
  lemma {:induction false} StopCompletesFirst(c: Config, s: State, es: seq<Event>) returns (k: nat)
    requires Inv(c, s) && Legal(c, s, es) && CancelsHarmless(c, s, es)
    requires InStop(s) && s.core.owner.None?
    requires After(c, s, es).core.owner.Some?
    ensures k < |es| && EndsStop(StateAt(c, s, es, k), es[k])
    ensures forall m: nat :: m <= k ==>
      var t := StateAt(c, s, es, m);
      InStop(t) && t.holder.value.op == s.holder.value.op && t.core.owner.None?
    decreases |es|
  {
    assert StateAt(c, s, es, 0) == s;
    if es[0].Resume? {
      k := 0;
    } else if es[0].CancelAgain? {
      k := 0;
      if s.core.fault { FaultIsForever(c, s, es); }
    } else {
      InvStep(c, s, es[0]);
      StopStep(c, s, es[0]);
      var s1 := Next(c, s, es[0]);
      var j := StopCompletesFirst(c, s1, es[1..]);
      k := j + 1;
      forall m: nat | m <= k
        ensures var t := StateAt(c, s, es, m);
          InStop(t) && t.holder.value.op == s.holder.value.op && t.core.owner.None?
      {
        if m > 0 {
          assert StateAt(c, s, es, m) == StateAt(c, s1, es[1..], m - 1);
        }
      }
    }
  }

  /** The same over a whole run: whenever control is lost at step i and someone
      owns it at a later point, the stop that took it ended in between. */
  lemma NoTakeoverDuringStop(c: Config, es: seq<Event>, i: nat) returns (k: nat)
    requires Legal(c, INIT, es) && CancelsHarmless(c, INIT, es) && i < |es|
    requires StateAt(c, INIT, es, i).core.owner.Some?
    requires StateAt(c, INIT, es, i + 1).core.owner != StateAt(c, INIT, es, i).core.owner
    requires After(c, INIT, es).core.owner.Some?
    ensures i < k < |es| && es[i].StopRuns? && EndsStop(StateAt(c, INIT, es, k), es[k])
    ensures StateAt(c, INIT, es, i).holder.Some?
    ensures forall m: nat :: i < m <= k ==>
      var t := StateAt(c, INIT, es, m);
      InStop(t) && t.holder.value.op == StateAt(c, INIT, es, i).holder.value.op && t.core.owner.None?
  {
    InvAt(c, INIT, es, i);
    InvAt(c, INIT, es, i + 1);
    StepAt(c, INIT, es, i);
    var s, t := StateAt(c, INIT, es, i), StateAt(c, INIT, es, i + 1);
    LossStep(c, s, es[i]);
    Suffix(c, INIT, es, i + 1);
    HarmlessSuffix(c, INIT, es, i + 1);
    var rest := es[i + 1..];
    var j := StopCompletesFirst(c, t, rest);
    k := i + 1 + j;
    SuffixAt(c, INIT, es, i + 1, j);
    forall m: nat | i < m <= k
      ensures var u := StateAt(c, INIT, es, m);
        InStop(u) && u.holder.value.op == s.holder.value.op && u.core.owner.None?
    {
      SuffixAt(c, INIT, es, i + 1, m - i - 1);
    }
  }

  lemma LossStep(c: Config, s: State, e: Event)
    requires Inv(c, s) && Enabled(s, e)
    requires s.core.owner.Some? && Next(c, s, e).core.owner != s.core.owner
    ensures e.StopRuns? && Next(c, s, e).core.owner.None? && InStop(Next(c, s, e))
    ensures Next(c, s, e).holder.value.op == s.holder.value.op
  {
    match e
    case Proceed(launch, motorsOk) =>
      var op := s.holder.value.op;
      if op.Dispatch? && DispatchGuard(s.core, op.session, op.cmd, Has(s, op.session, ScopeOf(op.cmd))).None? {
        HandleKeepsLease(s.core, op.cmd, launch, motorsOk);
      }
    case _ =>
  }

  lemma {:induction false} Suffix(c: Config, s: State, es: seq<Event>, n: nat)
    requires Legal(c, s, es) && n <= |es|
    ensures Legal(c, StateAt(c, s, es, n), es[n..])
    ensures After(c, StateAt(c, s, es, n), es[n..]) == After(c, s, es)
    decreases n
  {
    if n > 0 {
      Suffix(c, Next(c, s, es[0]), es[1..], n - 1);
      assert es[n..] == es[1..][n - 1..];
    } else {
      assert es[n..] == es;
    }
  }

  lemma {:induction false} SuffixAt(c: Config, s: State, es: seq<Event>, n: nat, m: nat)
    requires Legal(c, s, es) && n + m <= |es|
    ensures Legal(c, StateAt(c, s, es, n), es[n..])
    ensures StateAt(c, StateAt(c, s, es, n), es[n..], m) == StateAt(c, s, es, n + m)
    decreases n
  {
    Suffix(c, s, es, n);
    if n > 0 {
      SuffixAt(c, Next(c, s, es[0]), es[1..], n - 1, m);
      assert es[n..] == es[1..][n - 1..];
    } else {
      assert es[n..] == es;
    }
  }

  lemma {:induction false} HarmlessSuffix(c: Config, s: State, es: seq<Event>, n: nat)
    requires Legal(c, s, es) && CancelsHarmless(c, s, es) && n <= |es|
    ensures Legal(c, StateAt(c, s, es, n), es[n..]) && CancelsHarmless(c, StateAt(c, s, es, n), es[n..])
    decreases n
  {
    if n > 0 {
      HarmlessSuffix(c, Next(c, s, es[0]), es[1..], n - 1);
      assert es[n..] == es[1..][n - 1..];
    } else {
      assert es[n..] == es;
    }
  }

  /** A stop can always be brought to its end: from any point of it, cancelled
      or not, at most three further steps lead past it with control given up. */
  lemma StopCanFinish(c: Config, s: State, exited: bool) returns (es: seq<Event>)
    requires Inv(c, s) && InStop(s)
    ensures Legal(c, s, es) && |es| <= 3 && forall e :: e in es ==> e in {StopRuns, StopEnds(exited), Resume}
    ensures var t := After(c, s, es);
      !InStop(t) && t.core.owner.None? && t.core.device == J.NEUTRAL && (t.core.fault || !t.core.policy.Running())
    decreases if AtPhase(s, StopSpawned) then 2 else if AtPhase(s, StopWaiting) then 1 else 0
    ensures |es| <= if AtPhase(s, StopSpawned) then 3 else if AtPhase(s, StopWaiting) then 2 else 1
  {
    var e := if AtPhase(s, StopSpawned) then StopRuns else if AtPhase(s, StopWaiting) then StopEnds(exited) else Resume;
    InvStep(c, s, e);
    var s1 := Next(c, s, e);
    var rest := [];
    if !e.Resume? {
      rest := StopCanFinish(c, s1, exited);
    }
    es := [e] + rest;
    assert es[1..] == rest;
  }

  // ---------------------------------------------------------------------
  // Cancellation
  // ---------------------------------------------------------------------

  /** Session `x` acquires control of a free robot at time zero. */
  lemma AcquireAtOnce(c: Config, es: seq<Event>, s: State, x: Session) returns (es': seq<Event>, s': State)
    requires Legal(c, INIT, es) && s == After(c, INIT, es)
    requires s.holder.None? && s.core.owner.None? && !s.core.fault && !s.core.stopped && Has(s, x, Control)
    ensures Legal(c, INIT, es') && s' == After(c, INIT, es') && es <= es' && (CancelAgain in es' <==> CancelAgain in es)
    ensures s'.holder.None? && s'.now == s.now && s'.checkedAt == s.now && s'.grants == s.grants
    ensures s'.core == s.core.(owner := Some(x), deadline := s.now + c.ttl, lastInput := None)
  {
    es', s' := Then(c, es, s, Begin(Acquire(x)));
    es', s' := Then(c, es', s', Check);
    es', s' := Then(c, es', s', Proceed(P.Spawned, true));
  }

  lemma TwoSessions(c: Config) returns (es: seq<Event>, s: State)
    requires c.Valid()
    ensures Legal(c, INIT, es) && s == After(c, INIT, es) && SingleCancel(es)
    ensures s == INIT.(grants := map[1 := {Control}, 2 := {Control}])
  {
    es, s := Then(c, [], INIT, SetGrants(1, {Control}));
    es, s := Then(c, es, s, SetGrants(2, {Control}));
    assert s.grants == map[1 := {Control}, 2 := {Control}];
  }

  lemma OwnerWithProcess(c: Config) returns (es: seq<Event>, s: State)
    requires c.Valid()
    ensures Legal(c, INIT, es) && s == After(c, INIT, es) && SingleCancel(es)
    ensures s.holder.None? && s.core.owner == Some(1) && s.core.policy == P.IDLE.(proc := P.Alive)
    ensures !s.core.fault && !s.core.stopped && Has(s, 2, Control)
  {
    es, s := TwoSessions(c);
    es, s := AcquireAtOnce(c, es, s, 1);
    es, s := StartsPolicy(c, es, s, 1);
  }

  /** The owner's start command, just after its acquire, runs to completion. */
  lemma StartsPolicy(c: Config, es: seq<Event>, s: State, x: Session) returns (es': seq<Event>, s': State)
    requires c.Valid() && Legal(c, INIT, es) && s == After(c, INIT, es) && SingleCancel(es)
    requires s.holder.None? && s.core.owner == Some(x) && s.core.lastInput.None? && Has(s, x, Control)
    requires s.now < s.core.deadline && !s.core.policy.Running()
    ensures Legal(c, INIT, es') && s' == After(c, INIT, es') && SingleCancel(es')
    ensures s' == s.(checkedAt := s.now,
                     core := s.core.(deadline := s.now + c.ttl, policy := P.IDLE.(proc := P.Alive)))
  {
    es', s' := Then(c, es, s, Request(x, PolicyStart));
    es', s' := Then(c, es', s', Check);
    assert s'.core == s.core && AtPhase(s', InBody);
    es', s' := Then(c, es', s', Proceed(P.Spawned, true));
    assert AtPhase(s', AwaitingStart);
    es', s' := Then(c, es', s', StartEnds(P.Ready));
    es', s' := Then(c, es', s', Completes);
  }

  lemma AcquiresWhenFree(c: Config, s: State, x: Session)
    requires s.holder.None? && s.core.owner.None? && !s.core.fault && !s.core.stopped && Has(s, x, Control)
    ensures var es := [Begin(Acquire(x)), Check, Proceed(P.Spawned, true)];
      && Legal(c, s, es) && After(c, s, es).holder.None?
      && After(c, s, es).core == s.core.(owner := Some(x), deadline := s.now + c.ttl, lastInput := None)
  {
    var s1 := Next(c, s, Begin(Acquire(x)));
    var s2 := Next(c, s1, Check);
    Cons(c, s2, Proceed(P.Spawned, true), []);
    Cons(c, s1, Check, [Proceed(P.Spawned, true)]);
    Cons(c, s, Begin(Acquire(x)), [Check, Proceed(P.Spawned, true)]);
  }

  /** Anybody may be given the scope and clear the latch of a free lease. */
  lemma ClearsWhenFree(c: Config, s: State, x: Session)
    requires s.holder.None?
    ensures var es := [SetGrants(x, {Control}), Begin(ClearStop), Proceed(P.Spawned, true)];
      && Legal(c, s, es)
      && After(c, s, es) == s.(grants := s.grants[x := {Control}], core := s.core.(stopped := false))
  {
    var s1 := Next(c, s, SetGrants(x, {Control}));
    var s2 := Next(c, s1, Begin(ClearStop));
    Cons(c, s2, Proceed(P.Spawned, true), []);
    Cons(c, s1, Begin(ClearStop), [Proceed(P.Spawned, true)]);
    Cons(c, s, SetGrants(x, {Control}), [Begin(ClearStop), Proceed(P.Spawned, true)]);
  }

  /** Wherever a second cancellation ends the wait for a running process, any
      session can be in control six steps later, unfaulted, with that process
      still running. */
  lemma SecondCancelLetsOwnerIn(c: Config, s: State, x: Session) returns (es: seq<Event>)
    requires Inv(c, s) && Enabled(s, CancelAgain)
    requires AtPhase(s, StopWaiting) && !s.core.fault && s.core.policy.Running()
    ensures es == [CancelAgain] + ([SetGrants(x, {Control}), Begin(ClearStop), Proceed(P.Spawned, true)] +
                                   [Begin(Acquire(x)), Check, Proceed(P.Spawned, true)])
    ensures Legal(c, s, es) && After(c, s, es).holder.None?
    ensures After(c, s, es).core == s.core.(owner := Some(x), deadline := s.now + c.ttl, stopped := false)
  {
    var s1 := Next(c, s, CancelAgain);
    var clearing := [SetGrants(x, {Control}), Begin(ClearStop), Proceed(P.Spawned, true)];
    var acquiring := [Begin(Acquire(x)), Check, Proceed(P.Spawned, true)];
    ClearsWhenFree(c, s1, x);
    AcquiresWhenFree(c, After(c, s1, clearing), x);
    Append(c, s1, clearing, acquiring);
    Cons(c, s, CancelAgain, clearing + acquiring);
    es := [CancelAgain] + (clearing + acquiring);
  }

  /** Such a point is reached, by a run whose only second cancellation is still
      to come. */
  lemma SecondCancelArises(c: Config) returns (es: seq<Event>)
    requires c.Valid()
    ensures Legal(c, INIT, es) && SingleCancel(es)
    ensures var s := After(c, INIT, es);
      && Inv(c, s) && Enabled(s, CancelAgain)
      && AtPhase(s, StopWaiting) && !s.core.fault && s.core.policy.Running()
  {
    var s;
    es, s := OwnerWithProcess(c);
    es, s := Then(c, es, s, Begin(Release(1, true)));
    es, s := Then(c, es, s, Proceed(P.Spawned, true));
    es, s := Then(c, es, s, StopRuns);
    es, s := Then(c, es, s, Cancel);
    SingleCancelHarmless(c, INIT, es);
    InvRun(c, INIT, es);
  }

  // ---------------------------------------------------------------------
  // The latch and the fault flag
  // ---------------------------------------------------------------------

  /** A fault is for good: no run, whatever is cancelled in it, clears it or
      gives anybody control again. */
  lemma {:induction false} FaultIsForever(c: Config, s: State, es: seq<Event>)
    requires Legal(c, s, es) && s.core.fault && s.core.owner.None?
    ensures After(c, s, es).core.fault && After(c, s, es).core.owner.None?
    decreases |es|
  {
    if es != [] {
      FaultStep(c, s, es[0]);
      FaultIsForever(c, Next(c, s, es[0]), es[1..]);
    }
  }

  lemma FaultStep(c: Config, s: State, e: Event)
    requires Enabled(s, e) && s.core.fault && s.core.owner.None?
    ensures Next(c, s, e).core.fault && Next(c, s, e).core.owner.None?
  {
  }

  /** A start that is refused because an inference instance already exists
      counts as a failed policy: the owner's own release then faults, and nobody
      gets control again. */
  lemma RefusedStartBlocksControl(c: Config, es: seq<Event>, x: Session) returns (es': seq<Event>)
    requires c.Valid() && Legal(c, INIT, es)
    requires var s := After(c, INIT, es);
      && s.holder.None? && s.core.owner == Some(x) && Has(s, x, Control)
      && !Expired(c, s.core, s.now) && !s.core.policy.Running()
    ensures Legal(c, INIT, es') && es' == es + [
      Request(x, PolicyStart), Check, Proceed(P.InstanceExists, true), Completes,
      Begin(Release(x, true)), Proceed(P.InstanceExists, true), StopRuns]
    ensures forall more :: Legal(c, After(c, INIT, es'), more) ==>
      After(c, After(c, INIT, es'), more).core.fault && After(c, After(c, INIT, es'), more).core.owner.None?
  {
    var s := After(c, INIT, es);
    es', s := Then(c, es, s, Request(x, PolicyStart));
    es', s := Then(c, es', s, Check);
    es', s := Then(c, es', s, Proceed(P.InstanceExists, true));
    es', s := Then(c, es', s, Completes);
    assert s.core.owner == Some(x) && s.core.policy.Failed() && !s.core.policy.Running();
    es', s := Then(c, es', s, Begin(Release(x, true)));
    es', s := Then(c, es', s, Proceed(P.InstanceExists, true));
    es', s := Then(c, es', s, StopRuns);
    forall more | Legal(c, s, more)
      ensures After(c, s, more).core.fault && After(c, s, more).core.owner.None?
    {
      FaultIsForever(c, s, more);
    }
  }

  /** The dispatch whose handler call this event makes. */
  predicate Drives(s: State, e: Event) {
    && e.Proceed? && AtPhase(s, InBody) && s.holder.value.op.Dispatch?
    && var op := s.holder.value.op;
       DispatchGuard(s.core, op.session, op.cmd, Has(s, op.session, ScopeOf(op.cmd))).None?
  }

  predicate Clears(s: State, e: Event) {
    e.Proceed? && AtPhase(s, InBody) && s.holder.value.op.ClearStop?
  }

  lemma LatchStep(c: Config, s: State, e: Event)
    requires Inv(c, s) && s.core.stopped && Enabled(s, e) && CancelHarmless(s, e) && !Clears(s, e)
    ensures Next(c, s, e).core.stopped && !Drives(s, e)
    ensures Next(c, s, e).core.owner in {None, s.core.owner}
  {
  }

  /** Once latched, and until somebody clears the latch, no session gains
      control, an owner once gone does not come back, and no dispatch reaches
      the handler; whether the stop itself succeeded plays no part. */
  lemma {:induction false} LatchHolds(c: Config, s: State, es: seq<Event>, m: nat, n: nat)
    requires Inv(c, s) && s.core.stopped && Legal(c, s, es) && CancelsHarmless(c, s, es) && m <= n <= |es|
    requires forall j: nat :: j < |es| ==> !Clears(StateAt(c, s, es, j), es[j])
    ensures StateAt(c, s, es, n).core.stopped
    ensures StateAt(c, s, es, n).core.owner in {None, StateAt(c, s, es, m).core.owner}
    ensures n < |es| ==> !Drives(StateAt(c, s, es, n), es[n])
    decreases n
  {
    if es != [] {
      assert StateAt(c, s, es, 0) == s;
      InvStep(c, s, es[0]);
      LatchStep(c, s, es[0]);
      if n > 0 {
        var s1 := Next(c, s, es[0]);
        forall j: nat | j < |es| - 1 ensures !Clears(StateAt(c, s1, es[1..], j), es[1..][j]) {
          assert StateAt(c, s1, es[1..], j) == StateAt(c, s, es, j + 1);
          assert !Clears(StateAt(c, s, es, j + 1), es[j + 1]);
        }
        LatchHolds(c, s1, es[1..], if m > 0 then m - 1 else 0, n - 1);
      }
    }
  }

  /** No latching stop is asked for by this event. */
  predicate Unlatching(e: Event) {
    && (e.Begin? && e.op.Stop? ==> !e.op.latch)
    && (e.Request? && e.cmd.StopRequest? ==> e.cmd.clear)
  }

  predicate Unlatched(s: State) {
    !s.core.stopped && (s.holder.Some? && s.holder.value.op.Stop? ==> !s.holder.value.op.latch)
  }

  lemma UnlatchedStep(c: Config, s: State, e: Event)
    requires Unlatched(s) && Enabled(s, e) && Unlatching(e)
    ensures Unlatched(Next(c, s, e))
  {
  }

  /** Only an explicit stop request latches: releases, expiries and the policy
      stop command never do. */
  lemma {:induction false} LatchNeedsRequest(c: Config, s: State, es: seq<Event>)
    requires Unlatched(s) && Legal(c, s, es) && forall e :: e in es ==> Unlatching(e)
    ensures !After(c, s, es).core.stopped
    decreases |es|
  {
    if es != [] {
      assert es[0] in es;
      UnlatchedStep(c, s, es[0]);
      LatchNeedsRequest(c, Next(c, s, es[0]), es[1..]);
    }
  }

  /** Under an owner the latch is set exactly in one window, between the
      creation of the latching stop's task and its first step; every step leads
      on within the window or takes control away. */
  lemma LatchWindow(c: Config, es: seq<Event>)
    requires Legal(c, INIT, es) && CancelsHarmless(c, INIT, es)
    ensures var s := After(c, INIT, es);
      && (s.core.owner.Some? && s.core.stopped <==> s.core.owner.Some? && LatchPending(s))
      && (s.core.owner.Some? && s.core.stopped ==>
            && Enabled(s, StopRuns)
            && forall e :: Enabled(s, e) ==>
                 LatchPending(Next(c, s, e)) || Next(c, s, e).core.owner.None?)
  {
    InvRun(c, INIT, es);
    var s := After(c, INIT, es);
    if s.core.owner.Some? && s.core.stopped {
      forall e | Enabled(s, e)
        ensures LatchPending(Next(c, s, e)) || Next(c, s, e).core.owner.None?
      {
        if !e.StopRuns? { LockKept(c, s, e); }
      }
    }
  }

  lemma LockKept(c: Config, s: State, e: Event)
    requires Enabled(s, e) && LatchPending(s) && !e.StopRuns?
    ensures LatchPending(Next(c, s, e))
  {
  }

  lemma LatchWindowIsReal(c: Config) returns (es: seq<Event>)
    requires c.Valid()
    ensures Legal(c, INIT, es) && SingleCancel(es)
    ensures After(c, INIT, es).core.owner.Some? && After(c, INIT, es).core.stopped
  {
    var s;
    es, s := OwnerWithProcess(c);
    es, s := Then(c, es, s, Request(2, StopRequest(false)));
    es, s := Then(c, es, s, Proceed(P.Spawned, true));
  }

  // ---------------------------------------------------------------------
  // Who drives
  // ---------------------------------------------------------------------

  /** Apart from stops, the gamepad moves and a process starts only through a
      dispatch of the session that owns control at that very step: checked
      before its deadline and within the input timeout, not latched, not
      faulted, with finite values and with its scope verified under the lock. */
  lemma OnlyTheOwnerDrives(c: Config, es: seq<Event>, e: Event)
    requires Legal(c, INIT, es) && CancelsHarmless(c, INIT, es) && Enabled(After(c, INIT, es), e)
    ensures var s := After(c, INIT, es); var s1 := Next(c, s, e);
      && (s1.core.device != s.core.device && !e.StopRuns? ==> Drives(s, e))
      && (s1.core.policy.Running() && !s.core.policy.Running() ==>
            Drives(s, e) && s.holder.value.op.cmd.PolicyStart?)
      && (e.Proceed? && s.holder.value.op.Dispatch? ==>
            var x, cmd := s.holder.value.op.session, s.holder.value.op.cmd;
            Drives(s, e) <==> (s.core.owner == Some(x) && Has(s, x, if cmd.Reset? then Admin else Control) && AllFinite(cmd)))
      && (Drives(s, e) ==>
            var x, cmd := s.holder.value.op.session, s.holder.value.op.cmd;
            && s.core.owner == Some(x) && FreshAtCheck(c, s) && !s.core.stopped && !s.core.fault
            && Has(s, x, if cmd.Reset? then Admin else Control) && AllFinite(cmd)
            && !cmd.Query? && !cmd.PolicyStop? && !cmd.StopRequest?)
  {
    InvRun(c, INIT, es);
    var s := After(c, INIT, es);
    if e.Proceed? {
      BodyDrives(c, s, e);
    }
  }

  lemma BodyDrives(c: Config, s: State, e: Event)
    requires Inv(c, s) && Enabled(s, e) && e.Proceed?
    ensures var s1 := Next(c, s, e);
      && (s1.core.device != s.core.device ==> Drives(s, e))
      && (s1.core.policy.Running() && !s.core.policy.Running() ==>
            Drives(s, e) && s.holder.value.op.cmd.PolicyStart?)
  {
  }

  // ---------------------------------------------------------------------
  // The server's holder set
  // ---------------------------------------------------------------------

  /** The call of this session has returned normally at this step. */
  predicate Returns(c: Config, s: State, e: Event, op: Op)
    requires Enabled(s, e)
  {
    && s.holder.Some? && s.holder.value.op == op && Next(c, s, e).holder.None?
    && (e.Proceed? || (e.Resume? && s.holder.value.phase.ok && !s.holder.value.cancelled))
  }

  /** Whoever owns control is in the holder set; when the watchdog's expiry
      check for a session has returned normally, that session is in the set only
      if it still owns control; one that has been let go, or has stopped the
      robot, is not in it; and only a session's own call or its watchdog ever
      takes it out, and only its acquire puts it in. */
  lemma HolderSetFollowsOwner(c: Config, es: seq<Event>, e: Event, x: Session)
    requires Legal(c, INIT, es) && CancelsHarmless(c, INIT, es) && Enabled(After(c, INIT, es), e)
    ensures var s := After(c, INIT, es); var s1 := Next(c, s, e);
      && (s.core.owner == Some(x) ==> x in s.holders)
      && (Returns(c, s, e, Expire(x)) && x in s1.holders ==> s1.core.owner == Some(x))
      && (Returns(c, s, e, Release(x, true)) || Returns(c, s, e, Stop(x, true)) ==> x !in s1.holders)
      && (e == Notice(x) ==> x !in s1.holders && s.core.owner != Some(x))
      && (x !in s.holders && x in s1.holders ==> Returns(c, s, e, Acquire(x)) && s1.core.owner == Some(x))
      && (x in s.holders && x !in s1.holders ==>
            e == Notice(x) || Returns(c, s, e, Expire(x)) || Returns(c, s, e, Release(x, true)) || Returns(c, s, e, Stop(x, true)))
  {
    InvRun(c, INIT, es);
  }
}
