/** ControlLease and CommandHandler as the objects of the source, updated in
    place over the cached gamepad driver and the policy driver.  Each method is
    the code between two suspension points, run while the caller holds the lock. */
module LeaseObject {
  import opened Wrappers
  import opened LeaseCore
  import J = Joystick
  import P = Policy

  class ControlLease {
    const cfg: Config
    const joy: J.JoyDriver
    const policy: P.PolicyDriver
    var owner: Option<Session>
    var deadline: real
    var lastInput: Option<real>
    var fault: bool
    var stopped: bool

    ghost predicate Valid()
      reads this, joy
    {
      joy.Valid() && joy.ready
    }

    ghost function View(): Core
      reads this, joy, policy
    {
      Core(owner, deadline, lastInput, fault, stopped, joy.device, policy.View())
    }

    constructor (cfg: Config, joy: J.JoyDriver, policy: P.PolicyDriver)
      requires cfg.Valid() && joy.Valid() && joy.ready
      requires joy.device == J.NEUTRAL && policy.View() == P.IDLE
      ensures Valid() && View() == FRESH && this.cfg == cfg && this.joy == joy && this.policy == policy
    {
      this.cfg, this.joy, this.policy := cfg, joy, policy;
      owner, deadline, lastInput, fault, stopped := None, 0.0, None, false, false;
    }

    /** _expire, up to the process wait of the stop it makes, if it makes one: an
        owner it leaves in place is fresh on both clocks. */
    method Expire(now: real) returns (r: Option<P.Progress>)
      requires Valid()
      modifies this, joy, policy
      ensures Valid()
      ensures if Expired(cfg, old(View()), now) then r.Some? && (View(), r.value) == StopTaskBegin(old(View()))
              else r.None? && View() == old(View())
      ensures owner.Some? ==> now < deadline && (lastInput.Some? ==> now < lastInput.value + cfg.inputTimeout)
    {
      if owner.Some? && (now >= deadline || (lastInput.Some? && now - lastInput.value >= cfg.inputTimeout)) {
        var progress := PerformStop();
        r := Some(progress);
      } else {
        r := None;
      }
    }

    method PerformStop() returns (r: P.Progress)
      requires Valid()
      modifies this, joy, policy
      ensures Valid() && (View(), r) == StopTaskBegin(old(View()))
    {
      owner, lastInput := None, None;
      joy.Reset();
      if policy.proc.Alive? {
        r := policy.Stop();
      } else if policy.failed || (policy.proc.Exited? && !policy.stopRequested) {
        fault := true;
        r := P.Returned(false);
      } else {
        r := P.Returned(true);
      }
    }

    method FinishStop(exited: bool) returns (ok: bool)
      requires Valid()
      modifies this, policy
      ensures Valid() && (View(), ok) == StopTaskEnd(old(View()), exited)
    {
      ok := policy.FinishStop(exited);
      if !ok {
        fault := true;
      }
    }

    method Acquire(session: Session, allowed: bool, now: real) returns (err: Option<Error>)
      requires Valid()
      modifies this
      ensures Valid() && (View(), err) == AcquireBody(cfg, old(View()), session, allowed, now)
    {
      if !allowed { return Some(Forbidden); }
      if fault { return Some(StopFailed); }
      if stopped { return Some(ControlStopped); }
      if owner != None && owner != Some(session) { return Some(ControlBusy); }
      if owner == None {
        lastInput := None;
      }
      owner := Some(session);
      deadline := now + cfg.ttl;
      err := None;
    }

    method Heartbeat(session: Session, now: real)
      requires Valid()
      modifies this
      ensures Valid() && View() == HeartbeatBody(cfg, old(View()), session, now)
    {
      if owner == Some(session) {
        deadline := now + cfg.ttl;
      }
    }

    /** What `stop` does before its stop task. */
    method Latch(latch: bool)
      requires Valid()
      modifies this
      ensures Valid() && View() == old(View()).(stopped := old(stopped) || latch)
    {
      if latch {
        stopped := true;
      }
    }

    method ClearStop()
      requires Valid()
      modifies this
      ensures Valid() && View() == old(View()).(stopped := false)
    {
      stopped := false;
    }

    method CheckDispatch(session: Session, cmd: Command, allowed: bool) returns (err: Option<Error>)
      ensures err == DispatchGuard(View(), session, cmd, allowed)
    {
      if !allowed { return Some(Forbidden); }
      if owner != Some(session) { return Some(LeaseRequired); }
      var values := AxisValues(cmd);
      for i := 0 to |values|
        invariant forall k :: 0 <= k < i ==> values[k].value.Finite?
      {
        if values[i].value.NonFinite? { return Some(InvalidInput); }
      }
      err := None;
    }

    /** The loops of the handler over one input frame. */
    method ApplyFrame(f: J.Frame) returns (ok: bool)
      requires Valid()
      modifies joy
      ensures Valid() && J.Applied(joy.device, ok) == J.ApplyFrame(old(joy.device), f)
    {
      for i := 0 to |f.axes|
        invariant Valid() && J.ApplyAxes(old(joy.device), f.axes) == J.ApplyAxes(joy.device, f.axes[i..])
      {
        var x := f.axes[i];
        assert f.axes[i..][0] == x && f.axes[i..][1..] == f.axes[i + 1..];
        if x.axis != 0 {
          if !J.KnownAxis(x.axis) { return false; }
          joy.SetAxis(x.axis, J.Quantize(x.value));
        }
      }
      ghost var mid := joy.device;
      for i := 0 to |f.buttons|
        invariant Valid() && J.ApplyButtons(mid, f.buttons) == J.ApplyButtons(joy.device, f.buttons[i..])
      {
        var x := f.buttons[i];
        assert f.buttons[i..][0] == x && f.buttons[i..][1..] == f.buttons[i + 1..];
        if x.button != 0 {
          if !J.KnownButton(x.button) { return false; }
          joy.SetButton(x.button, x.down);
        }
      }
      ok := true;
    }

    method HandleCommand(cmd: Command, launch: P.Launch, motorsOk: bool) returns (h: Handling)
      requires Valid() && AllFinite(cmd)
      modifies joy, policy
      ensures Valid() && (View(), h) == Handle(old(View()), cmd, launch, motorsOk)
    {
      if IsInput(cmd) {
        var ok := ApplyFrame(FrameOf(cmd));
        return if ok then Done else Raised;
      }
      match cmd {
        case PolicyStart =>
          var r := policy.Start(launch);
          h := if r.Suspended? then AwaitStart else Done;
        case Reset =>
          joy.Reset();
          h := Done;
          if motorsOk && policy.proc.Alive? {
            var _ := policy.Stop();
            h := AwaitStop;
          }
        case _ => h := Done;
      }
    }

    method Renew(cmd: Command, now: real)
      requires Valid()
      modifies this
      ensures Valid() && View() == Complete(cfg, old(View()), cmd, now)
    {
      deadline := now + cfg.ttl;
      if IsInput(cmd) {
        lastInput := Some(now);
      }
    }
  }
}
