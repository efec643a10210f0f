/** What each stretch of lease code between two suspension points does
    (protocol/control_lease.py, with the handler calls of protocol/handler.py). */
module LeaseCore {
  import opened Wrappers
  import J = Joystick
  import P = Policy

  type Session = nat

  datatype Config = Config(ttl: real, inputTimeout: real) {
    /** The constructor refuses anything else. */
    predicate Valid() { ttl > 0.0 && inputTimeout > 0.0 }
  }

  datatype Scope = Read | Control | Admin

  /** An axis value off the wire; only the finite ones get past dispatch. */
  datatype Value = Finite(v: real) | NonFinite

  datatype AxisValue = AxisValue(axis: int, value: Value)

  /** The body of a command envelope. */
  datatype Command =
    | Query
    | Button(button: J.ButtonInput)
    | Stick(axis: AxisValue)
    | ControlFrame(axes: seq<AxisValue>, buttons: seq<J.ButtonInput>)
    | PolicyStart
    | PolicyStop
    | PolicyUnspecified
    | Reset
    | StopRequest(clear: bool)
    | SkillAction
    | Unsupported

  function ScopeOf(cmd: Command): Scope {
    if cmd.Query? then Read else if cmd.Reset? then Admin else Control
  }

  /** The bodies whose completion restarts the input clock. */
  predicate IsInput(cmd: Command) { cmd.Button? || cmd.Stick? || cmd.ControlFrame? }

  function AxisValues(cmd: Command): seq<AxisValue> {
    match cmd
    case Stick(x) => [x]
    case ControlFrame(xs, _) => xs
    case _ => []
  }

  predicate AllFinite(cmd: Command) {
    forall x :: x in AxisValues(cmd) ==> x.value.Finite?
  }

  function Inputs(xs: seq<AxisValue>): (ys: seq<J.AxisInput>)
    requires forall x :: x in xs ==> x.value.Finite?
    ensures |ys| == |xs|
    ensures forall i :: 0 <= i < |xs| ==> ys[i] == J.AxisInput(xs[i].axis, xs[i].value.v)
  {
    seq(|xs|, i requires 0 <= i < |xs| && xs[i].value.Finite? => J.AxisInput(xs[i].axis, xs[i].value.v))
  }

  /** An input command as the frame the handler applies. */
  function FrameOf(cmd: Command): J.Frame
    requires IsInput(cmd) && AllFinite(cmd)
  {
    J.Frame(Inputs(AxisValues(cmd)),
            match cmd case Button(b) => [b] case ControlFrame(_, bs) => bs case _ => [])
  }

  /** The fields of the lease, the device and the process it guards. */
  datatype Core = Core(
    owner: Option<Session>,
    deadline: real,
    lastInput: Option<real>,
    fault: bool,
    stopped: bool,
    device: J.Device,
    policy: P.PolicyState)

  const FRESH := Core(None, 0.0, None, false, false, J.NEUTRAL, P.IDLE)

  datatype Error = Forbidden | StopFailed | ControlStopped | ControlBusy | LeaseRequired | InvalidInput

  /** `_expire`'s condition. */
  predicate Expired(c: Config, k: Core, now: real) {
    && k.owner.Some?
    && (now >= k.deadline || (k.lastInput.Some? && now - k.lastInput.value >= c.inputTimeout))
  }

  // ---------------------------------------------------------------------
  // _perform_stop
  // ---------------------------------------------------------------------

  /** Up to its only suspension point, or to its end. */
  function StopTaskBegin(k: Core): (Core, P.Progress) {
    var k1 := k.(owner := None, lastInput := None, device := J.NEUTRAL);
    if k.policy.Running() then
      var (p, r) := P.StopBegin(k.policy);
      (k1.(policy := p), r)
    else if k.policy.Failed() then (k1.(fault := true), P.Returned(false))
    else (k1, P.Returned(true))
  }

  /** After the process wait. */
  function StopTaskEnd(k: Core, exited: bool): (Core, bool) {
    var (p, ok) := P.StopEnd(k.policy, exited);
    (k.(policy := p, fault := k.fault || !ok), ok)
  }

  // ---------------------------------------------------------------------
  // Bodies of the public operations, once the expiry check is over
  // ---------------------------------------------------------------------

  function AcquireBody(c: Config, k: Core, x: Session, allowed: bool, now: real): (Core, Option<Error>) {
    if !allowed then (k, Some(Forbidden))
    else if k.fault then (k, Some(StopFailed))
    else if k.stopped then (k, Some(ControlStopped))
    else if k.owner.Some? && k.owner != Some(x) then (k, Some(ControlBusy))
    else (k.(owner := Some(x), deadline := now + c.ttl,
             lastInput := if k.owner.None? then None else k.lastInput), None)
  }

  function HeartbeatBody(c: Config, k: Core, x: Session, now: real): Core {
    if k.owner == Some(x) then k.(deadline := now + c.ttl) else k
  }

  /** The checks of dispatch, in the source's order. */
  function DispatchGuard(k: Core, x: Session, cmd: Command, allowed: bool): Option<Error> {
    if !allowed then Some(Forbidden)
    else if k.owner != Some(x) then Some(LeaseRequired)
    else if !AllFinite(cmd) then Some(InvalidInput)
    else None
  }

  /** How the handler call leaves off: returned, raised, or awaiting the process. */
  datatype Handling = Done | Raised | AwaitStart | AwaitStop

  /** CommandHandler.handle up to its first suspension.  `launch` and `motorsOk`
      are what the operating system and the motor bus make of it. */
  function Handle(k: Core, cmd: Command, launch: P.Launch, motorsOk: bool): (Core, Handling)
    requires AllFinite(cmd)
  {
    if IsInput(cmd) then
      var r := J.ApplyFrame(k.device, FrameOf(cmd));
      (k.(device := r.device), if r.ok then Done else Raised)
    else if cmd.PolicyStart? then
      var (p, r) := P.StartBegin(k.policy, launch);
      (k.(policy := p), if r.Suspended? then AwaitStart else Done)
    else if cmd.Reset? then
      var k1 := k.(device := J.NEUTRAL);
      if motorsOk && k.policy.Running() then
        (k1.(policy := P.StopBegin(k.policy).0), AwaitStop)
      else (k1, Done)
    else (k, Done)
  }

  /** The end of dispatch after the handler has returned. */
  function Complete(c: Config, k: Core, cmd: Command, now: real): Core {
    k.(deadline := now + c.ttl, lastInput := if IsInput(cmd) then Some(now) else k.lastInput)
  }

  // ---------------------------------------------------------------------
  // What these stretches amount to
  // ---------------------------------------------------------------------

  /** A stop gives control up, centres the gamepad, and ends in a fault exactly
      when a process is left alive or was lost without having been asked to stop. */
  lemma StopFaultsExactlyWhen(k: Core, exited: bool)
    ensures var (k1, r) := StopTaskBegin(k);
      && k1.owner.None? && k1.lastInput.None? && k1.device == J.NEUTRAL && k1.stopped == k.stopped
      && (r.Suspended? <==> k.policy.Running())
      && (r.Suspended? ==> k1.fault == k.fault && StopTaskEnd(k1, exited).0.fault == (k.fault || !exited))
      && (r.Returned? ==> k1.fault == (k.fault || k.policy.Failed()) && r.ok == !k.policy.Failed())
      && (r.Returned? ==> !k1.policy.Running())
      && (exited ==> !StopTaskEnd(k1, exited).0.policy.Running())
  {
  }

  /** An input restarts the freshness clock exactly when every wire number in
      it is defined; otherwise the handler raises on the way, having written
      what came before. */
  lemma InputCompletesIffUnderstood(k: Core, cmd: Command, launch: P.Launch, motorsOk: bool)
    requires IsInput(cmd) && AllFinite(cmd)
    ensures Handle(k, cmd, launch, motorsOk).1 == Done <==> J.Understood(FrameOf(cmd))
    ensures Handle(k, cmd, launch, motorsOk).1 in {Done, Raised}
    ensures Handle(k, cmd, launch, motorsOk).0 ==
              k.(device := J.ApplyFrame(k.device, FrameOf(cmd)).device)
  {
    J.FrameReturnsIffUnderstood(k.device, FrameOf(cmd));
  }
}
