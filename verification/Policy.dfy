/** The inference process and its driver (drivers/policy.py).

    `start` and `stop` are cut where the source suspends: at the wait for the
    lock and the readiness probe, and at the wait for the process to exit. */
module Policy {

  /** `_proc`: none, alive, or a handle whose poll() reports an exit. */
  datatype Process = NoProcess | Alive | Exited

  datatype PolicyState = PolicyState(proc: Process, failed: bool, stopRequested: bool) {
    predicate Running() { proc.Alive? }

    /** The `failed` property: an exit nobody asked for counts as a failure. */
    predicate Failed() { (proc.Exited? && !stopRequested) || failed }
  }

  const IDLE := PolicyState(NoProcess, false, false)

  /** What the environment makes of a start that gets past the running check. */
  datatype Launch = InvalidName | InstanceExists | SpawnFails | Spawned

  /** How the wait for a spawned process ends. */
  datatype Probe = Ready | LockBusy | NotReady

  /** Either the call has returned, or it is suspended. */
  datatype Progress = Returned(ok: bool) | Suspended

  function StartBegin(p: PolicyState, launch: Launch): (PolicyState, Progress) {
    if p.proc.Alive? then (p, Returned(false))
    else match launch
      case InvalidName => (IDLE, Returned(false))
      case InstanceExists => (IDLE.(failed := true), Returned(false))
      case SpawnFails => (IDLE, Returned(false))
      case Spawned => (IDLE.(proc := Alive), Suspended)
  }

  function StartEnd(p: PolicyState, probe: Probe): (PolicyState, bool) {
    match probe
    case Ready => (p, true)
    case LockBusy => (p.(proc := NoProcess, failed := true), false)
    case NotReady => (p.(proc := NoProcess, failed := true), false)
  }

  function StopBegin(p: PolicyState): (PolicyState, Progress) {
    match p.proc
    case NoProcess => (p, Returned(true))
    case Alive => (p.(stopRequested := true), Suspended)
    case Exited => (p.(proc := NoProcess, stopRequested := true), Returned(true))
  }

  /** The wait ends: `exited` when the process is gone, otherwise an exception
      came out of signalling or waiting. */
  function StopEnd(p: PolicyState, exited: bool): (PolicyState, bool) {
    if exited then (p.(proc := NoProcess), true)
    else (p.(stopRequested := false, failed := true), false)
  }

  /** The process dies on its own. */
  function Dies(p: PolicyState): PolicyState {
    if p.proc.Alive? then p.(proc := Exited) else p
  }

  /** `_watch` notices the exit. */
  function Notices(p: PolicyState): PolicyState {
    if p.proc.Exited? && !p.stopRequested then p.(failed := true) else p
  }

  /** A stop that reports success leaves no process, however it got there; one
      that reports failure leaves the driver failed. */
  lemma StopReportsTruthfully(p: PolicyState, exited: bool)
    ensures StopBegin(p).1 == Returned(true) ==> StopBegin(p).0.proc.NoProcess?
    ensures StopBegin(p).1.Suspended? <==> p.Running()
    ensures StopEnd(p, exited).1 ==> StopEnd(p, exited).0.proc.NoProcess?
    ensures !StopEnd(p, exited).1 ==> StopEnd(p, exited).0.Failed() && !StopEnd(p, exited).0.stopRequested
  {
  }

  /** A start never disturbs a running process, and otherwise forgets the past;
      it counts as a failure exactly when another instance exists, the lock is
      busy or readiness does not come, and then leaves no process. */
  lemma StartReportsTruthfully(p: PolicyState, launch: Launch, probe: Probe)
    ensures p.Running() ==> StartBegin(p, launch) == (p, Returned(false))
    ensures !p.Running() ==> var (p1, r) := StartBegin(p, launch);
      && (p1.Failed() <==> launch.InstanceExists?)
      && (p1.Running() <==> launch.Spawned?) && (r.Suspended? <==> launch.Spawned?)
      && (r.Returned? ==> !r.ok) && !p1.stopRequested && (launch.Spawned? ==> Dies(p1).Failed())
    ensures var (p1, ok) := StartEnd(p, probe);
      if ok then probe.Ready? && p1 == p else p1.Failed() && p1.proc.NoProcess?
  {
  }

  /** What may happen between the two halves of a stop. */
  datatype Happening = Death | Watched

  function Happen(p: PolicyState, hs: seq<Happening>): PolicyState
    decreases |hs|
  {
    if hs == [] then p else Happen(if hs[0].Death? then Dies(p) else Notices(p), hs[1..])
  }

  lemma {:induction false} NothingToReport(p: PolicyState, hs: seq<Happening>)
    requires p.stopRequested
    ensures var q := Happen(p, hs);
      q.stopRequested && q.failed == p.failed && (p.proc.Exited? ==> q.proc.Exited?) && (q.proc.NoProcess? <==> p.proc.NoProcess?)
    decreases |hs|
  {
    if hs != [] { NothingToReport(if hs[0].Death? then Dies(p) else Notices(p), hs[1..]); }
  }

  /** An exit during a stop is no failure, whenever it happens and whoever sees
      it first: a stop that ends with the process gone leaves the driver as
      failed as it was asked to be, no more. */
  lemma StopIsNoFailure(p: PolicyState, hs: seq<Happening>)
    ensures p.Running() ==>
      var q := StopEnd(Happen(StopBegin(p).0, hs), true).0;
      q.Failed() == p.failed && q.proc.NoProcess?
    ensures !p.Running() ==> StopBegin(p).0.Failed() == p.failed && StopBegin(p).0.proc.NoProcess?
  {
    if p.Running() { NothingToReport(StopBegin(p).0, hs); }
  }

  /** An exit nobody asked for is a failure from then on, seen or not. */
  lemma {:induction false} UnaskedExitFails(p: PolicyState, hs: seq<Happening>)
    requires p.proc.Exited? && !p.stopRequested
    ensures Happen(p, hs).Failed() && Happen(p, hs).proc.Exited?
    ensures Notices(p).failed
    decreases |hs|
  {
    if hs != [] { UnaskedExitFails(if hs[0].Death? then Dies(p) else Notices(p), hs[1..]); }
  }

  lemma DeathEndsRunning(p: PolicyState)
    ensures !Dies(p).Running() && Dies(p).failed == p.failed
    ensures p.Running() && !p.stopRequested && !p.failed ==> !p.Failed() && Dies(p).Failed()
  {
  }

  class PolicyDriver {
    var proc: Process
    var failed: bool
    var stopRequested: bool

    ghost function View(): PolicyState
      reads this
    {
      PolicyState(proc, failed, stopRequested)
    }

    constructor ()
      ensures View() == IDLE
    {
      proc, failed, stopRequested := NoProcess, false, false;
    }

    method Start(launch: Launch) returns (r: Progress)
      modifies this
      ensures (View(), r) == StartBegin(old(View()), launch)
    {
      if proc.Alive? {
        return Returned(false);
      }
      proc, failed, stopRequested := NoProcess, false, false;
      if launch.InvalidName? || launch.SpawnFails? {
        return Returned(false);
      }
      if launch.InstanceExists? {
        failed := true;
        return Returned(false);
      }
      proc := Alive;
      r := Suspended;
    }

    method FinishStart(probe: Probe) returns (ok: bool)
      modifies this
      ensures (View(), ok) == StartEnd(old(View()), probe)
    {
      if probe.Ready? {
        return true;
      }
      proc := NoProcess;
      failed := true;
      ok := false;
    }

    method Stop() returns (r: Progress)
      modifies this
      ensures (View(), r) == StopBegin(old(View()))
    {
      if proc.NoProcess? {
        return Returned(true);
      }
      stopRequested := true;
      if proc.Alive? {
        return Suspended;
      }
      proc := NoProcess;
      r := Returned(true);
    }

    method FinishStop(exited: bool) returns (ok: bool)
      modifies this
      ensures (View(), ok) == StopEnd(old(View()), exited)
    {
      if !exited {
        stopRequested, failed := false, true;
        return false;
      }
      proc := NoProcess;
      ok := true;
    }

    method Watch()
      modifies this
      ensures View() == Notices(old(View()))
    {
      if proc.Exited? && !stopRequested {
        failed := true;
      }
    }
  }
}
