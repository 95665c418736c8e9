/** The readiness coordinator: its fields, the probes chained behind one another,
    and the object that moves between states. */
module Readiness {
  import opened Wrappers

  datatype Mode = Enabled | Off | ReadOnly
  datatype Lifecycle = Draining | Running | Starting | Stopped
  datatype Reason = DependencyUnavailable | IsDraining | IsReady | RuntimeOff
  datatype Snapshot = Snapshot(authorityMode: Mode, epoch: nat, lifecycle: Lifecycle, ready: bool, reason: Reason)
  datatype ReadinessError = RuntimeNotReady | WriteDisabled | AuthorityNotHeld

  datatype Kind = Dependencies | Authority

  /** A chained probe; `ticket` tells its promise from all others. */
  datatype Probe = Probe(kind: Kind, requestedEpoch: nat, ticket: nat)

  datatype Answer =
    | DependencyResult(authorityGuard: bool, controlPlane: bool, persistence: bool, mode: Mode)
    | AuthorityResult(mode: Mode)
    | Threw

  datatype Outcome = Applied(snapshot: Snapshot) | Failed(snapshot: Snapshot) | Stale(snapshot: Snapshot)

  predicate Fits(kind: Kind, answer: Answer)
  {
    answer.Threw? || (kind == Dependencies <==> answer.DependencyResult?)
  }

  predicate Healthy(answer: Answer)
  {
    answer.DependencyResult? && answer.authorityGuard && answer.controlPlane && answer.persistence
  }

  /** What the coordinator remembers. The head of `queue` runs when `inFlight`. */
  datatype Coordinator = Coordinator(
    authorityHealthy: bool,
    authorityMode: Mode,
    checkpointHealthy: bool,
    dependenciesHealthy: bool,
    epoch: nat,
    lifecycle: Lifecycle,
    queue: seq<Probe>,
    inFlight: bool,
    issued: nat)
  {
    predicate Ready()
    {
      lifecycle == Running && authorityHealthy && checkpointHealthy && dependenciesHealthy && authorityMode != Off
    }

    function Reason(): Reason
    {
      if lifecycle == Draining then IsDraining
      else if lifecycle != Running || !authorityHealthy || !checkpointHealthy || !dependenciesHealthy then
        DependencyUnavailable
      else if authorityMode == Off then RuntimeOff
      else IsReady
    }

    function View(): Snapshot
    {
      Snapshot(authorityMode, epoch, lifecycle, Ready(), Reason())
    }

    function FailClosed(): Coordinator
    {
      this.(epoch := epoch + 1, authorityHealthy := false, dependenciesHealthy := false)
    }

    function MoveTo(target: Lifecycle): Coordinator
    {
      FailClosed().(lifecycle := target)
    }

    function Enqueued(kind: Kind): Coordinator
    {
      this.(queue := queue + [Probe(kind, epoch, issued)], issued := issued + 1)
    }

    predicate CanApply(probe: Probe)
    {
      lifecycle == Running && probe.requestedEpoch == epoch
    }

    function Dropped(): Coordinator
      requires queue != []
    {
      this.(queue := queue[1..], inFlight := false)
    }

    /** The chain reaches the probe at its head. */
    function Begun(): Coordinator
      requires queue != []
    {
      if CanApply(queue[0]) then this.(inFlight := true) else Dropped()
    }

    function Absorbed(answer: Answer): Coordinator
    {
      match answer
      case DependencyResult(guarded, control, persistence, mode) =>
        this.(dependenciesHealthy := Healthy(answer),
              authorityHealthy := guarded && control,
              authorityMode := if control then mode else authorityMode,
              epoch := if !Healthy(answer) || mode == Off then epoch + 1 else epoch)
      case AuthorityResult(mode) =>
        this.(authorityHealthy := true, authorityMode := mode, epoch := if mode == Off then epoch + 1 else epoch)
      case Threw => FailClosed()
    }

    /** The probe in flight settles. */
    function Settled(answer: Answer): Coordinator
      requires queue != []
    {
      if CanApply(queue[0]) then Absorbed(answer).Dropped() else Dropped()
    }

    function Checked(held: bool): Coordinator
    {
      if Ready() && !held then FailClosed() else this
    }
  }

  class RuntimeReadinessCoordinator {
    var authorityHealthy: bool
    var authorityMode: Mode
    var checkpointHealthy: bool
    var dependenciesHealthy: bool
    var epoch: nat
    var lifecycle: Lifecycle
    var queue: seq<Probe>
    var inFlight: bool
    var issued: nat

    ghost function State(): Coordinator
      reads this
    {
      Coordinator(authorityHealthy, authorityMode, checkpointHealthy, dependenciesHealthy, epoch, lifecycle,
                  queue, inFlight, issued)
    }

    constructor ()
      ensures State() == Coordinator(false, Off, true, false, 0, Starting, [], false, 0)
    {
      authorityHealthy, authorityMode, checkpointHealthy, dependenciesHealthy := false, Off, true, false;
      epoch, lifecycle, queue, inFlight, issued := 0, Starting, [], false, 0;
    }

    method Snap() returns (r: Snapshot)
      ensures r == State().View()
    {
      if lifecycle == Draining {
        return Snapshot(authorityMode, epoch, lifecycle, false, IsDraining);
      }
      if lifecycle != Running || !authorityHealthy || !checkpointHealthy || !dependenciesHealthy {
        return Snapshot(authorityMode, epoch, lifecycle, false, DependencyUnavailable);
      }
      if authorityMode == Off {
        return Snapshot(authorityMode, epoch, lifecycle, false, RuntimeOff);
      }
      return Snapshot(authorityMode, epoch, lifecycle, true, IsReady);
    }

    method AdvanceEpoch()
      modifies this`epoch
      ensures epoch == old(epoch) + 1
    {
      epoch := epoch + 1;
    }

    method Activate() returns (r: Snapshot)
      modifies this
      ensures State() == old(State()).MoveTo(Running) && r == State().View()
    {
      AdvanceEpoch();
      lifecycle, authorityHealthy, dependenciesHealthy := Running, false, false;
      r := Snap();
    }

    method BeginDrain() returns (r: Snapshot)
      modifies this
      ensures State() == old(State()).MoveTo(Draining) && r == State().View()
    {
      AdvanceEpoch();
      lifecycle, authorityHealthy, dependenciesHealthy := Draining, false, false;
      r := Snap();
    }

    method MarkStopped() returns (r: Snapshot)
      modifies this
      ensures State() == old(State()).MoveTo(Stopped) && r == State().View()
    {
      AdvanceEpoch();
      lifecycle, authorityHealthy, dependenciesHealthy := Stopped, false, false;
      r := Snap();
    }

    method FailClosed() returns (r: Snapshot)
      modifies this
      ensures State() == old(State()).FailClosed() && r == State().View()
    {
      AdvanceEpoch();
      authorityHealthy, dependenciesHealthy := false, false;
      r := Snap();
    }

    method MarkCheckpointFailed() returns (r: Snapshot)
      modifies this
      ensures State() == old(State()).FailClosed().(checkpointHealthy := false) && r == State().View()
    {
      AdvanceEpoch();
      checkpointHealthy, authorityHealthy, dependenciesHealthy := false, false, false;
      r := Snap();
    }

    method MarkCheckpointRecovered() returns (r: Snapshot)
      modifies this
      ensures State() == old(State()).(checkpointHealthy := true) && r == State().View()
    {
      checkpointHealthy := true;
      r := Snap();
    }

    /** `held` says whether asserting the authority returns, rather than throws. */
    method ReadinessNow(held: bool) returns (r: Snapshot)
      modifies this
      ensures State() == old(State()).Checked(held) && r == State().View()
      ensures r.ready ==> held
    {
      r := Snap();
      if !r.ready {
        return;
      }
      if !held {
        r := FailClosed();
        return;
      }
      r := Snap();
    }

    /** Admission passes exactly when the runtime is ready, the authority is held
        and a writer meets the enabled mode. */
    method AssertAdmissionReady(held: bool, write: bool) returns (r: Result<Mode, ReadinessError>)
      modifies this
      ensures State() == old(State()).Checked(held)
      ensures r.Ok? <==> State().Ready() && held && (write ==> authorityMode == Enabled)
      ensures r.Ok? ==> r.value == authorityMode && r.value != Off
      ensures r == Err(RuntimeNotReady) <==> !old(State()).Ready()
      ensures r == Err(AuthorityNotHeld) <==> old(State()).Ready() && !held
    {
      var before := Snap();
      if !before.ready {
        return Err(RuntimeNotReady);
      }
      if !held {
        var _ := FailClosed();
        return Err(AuthorityNotHeld);
      }
      var after := Snap();
      if !after.ready {
        return Err(RuntimeNotReady);
      }
      if write && after.authorityMode != Enabled {
        return Err(WriteDisabled);
      }
      return Ok(after.authorityMode);
    }

    method EnqueueProbe(kind: Kind)
      modifies this
      ensures State() == old(State()).Enqueued(kind)
    {
      queue, issued := queue + [Probe(kind, epoch, issued)], issued + 1;
    }

    method CanApplyHead() returns (b: bool)
      requires queue != []
      ensures b == State().CanApply(queue[0])
    {
      b := lifecycle == Running && queue[0].requestedEpoch == epoch;
    }

    /** `execute` up to its await. A stale probe is never sent. */
    method ExecuteNext() returns (outcome: Option<Outcome>)
      requires queue != [] && !inFlight
      modifies this
      ensures State() == old(State()).Begun()
      ensures outcome == if inFlight then None else Some(Stale(State().View()))
    {
      var live := CanApplyHead();
      if live {
        inFlight, outcome := true, None;
        return;
      }
      queue := queue[1..];
      var snapshot := Snap();
      outcome := Some(Stale(snapshot));
    }

    method ApplyDependencies(answer: Answer)
      requires answer.DependencyResult?
      modifies this
      ensures State() == old(State()).Absorbed(answer)
    {
      var healthy := answer.authorityGuard && answer.controlPlane && answer.persistence;
      dependenciesHealthy := healthy;
      authorityHealthy := answer.authorityGuard && answer.controlPlane;
      if answer.controlPlane {
        authorityMode := answer.mode;
      }
      if !healthy || answer.mode == Off {
        AdvanceEpoch();
      }
    }

    method ApplyAuthority(mode: Mode)
      modifies this
      ensures State() == old(State()).Absorbed(AuthorityResult(mode))
    {
      authorityHealthy, authorityMode := true, mode;
      if mode == Off {
        AdvanceEpoch();
      }
    }

    /** `execute` after its await. */
    method Settle(answer: Answer) returns (outcome: Outcome)
      requires queue != [] && inFlight && Fits(queue[0].kind, answer)
      modifies this
      ensures State() == old(State()).Settled(answer)
      ensures outcome == if !old(State()).CanApply(old(queue)[0]) then Stale(State().View())
                         else if answer.Threw? then Failed(State().View())
                         else Applied(State().View())
    {
      var live := CanApplyHead();
      if live {
        match answer
        case DependencyResult(_, _, _, _) => ApplyDependencies(answer);
        case AuthorityResult(mode) => ApplyAuthority(mode);
        case Threw =>
          AdvanceEpoch();
          authorityHealthy, dependenciesHealthy := false, false;
      }
      queue, inFlight := queue[1..], false;
      var snapshot := Snap();
      outcome := if !live then Stale(snapshot) else if answer.Threw? then Failed(snapshot) else Applied(snapshot);
    }
  }
}
