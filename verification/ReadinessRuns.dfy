/** Every interleaving of requests, answers, failures, drain and stop. */
module ReadinessRuns {
  import opened Wrappers
  import opened Readiness

  datatype Event =
    | Activates
    | Drains
    | Stops
    | FailsClosed
    | CheckpointFails
    | CheckpointRecovers
    | ChecksAuthority(held: bool)
    | Requests(kind: Kind)
    | Executes
    | Settles(answer: Answer)

  /** The answer can arrive and its probe is still current. */
  predicate Applies(s: Coordinator, answer: Answer)
  {
    s.queue != [] && s.inFlight && Fits(s.queue[0].kind, answer) && s.CanApply(s.queue[0])
  }

  /** An event that cannot happen in `s` changes nothing. */
  function Next(s: Coordinator, e: Event): Coordinator
  {
    match e
    case Activates => s.MoveTo(Running)
    case Drains => s.MoveTo(Draining)
    case Stops => s.MoveTo(Stopped)
    case FailsClosed => s.FailClosed()
    case CheckpointFails => s.FailClosed().(checkpointHealthy := false)
    case CheckpointRecovers => s.(checkpointHealthy := true)
    case ChecksAuthority(held) => s.Checked(held)
    case Requests(kind) => s.Enqueued(kind)
    case Executes => if s.queue != [] && !s.inFlight then s.Begun() else s
    case Settles(answer) =>
      if s.queue != [] && s.inFlight && Fits(s.queue[0].kind, answer) then s.Settled(answer) else s
  }

  /** The state after the first `n` events. */
  function At(events: seq<Event>, n: nat): Coordinator
    requires n <= |events|
  {
    if n == 0 then Coordinator(false, Off, true, false, 0, Starting, [], false, 0)
    else Next(At(events, n - 1), events[n - 1])
  }

  function Exec(events: seq<Event>): Coordinator
  {
    At(events, |events|)
  }

  // ----- the vocabulary of the claims -----

  /** An event that takes dependency health away: fail-closed, drain, stop,
      activation, checkpoint failure, a lost authority, a failed or unhealthy probe. */
  predicate Clears(s: Coordinator, e: Event)
  {
    match e
    case Activates => true
    case Drains => true
    case Stops => true
    case FailsClosed => true
    case CheckpointFails => true
    case ChecksAuthority(held) => s.Ready() && !held
    case Settles(answer) => Applies(s, answer) && (answer.Threw? || (answer.DependencyResult? && !Healthy(answer)))
    case _ => false
  }

  predicate AppliesHealthy(s: Coordinator, e: Event)
  {
    e.Settles? && Applies(s, e.answer) && Healthy(e.answer)
  }

  /** The mode that an applied answer reports. */
  function Reported(s: Coordinator, e: Event): Option<Mode>
  {
    if !e.Settles? || !Applies(s, e.answer) then None
    else match e.answer
      case DependencyResult(_, control, _, mode) => if control then Some(mode) else None
      case AuthorityResult(mode) => Some(mode)
      case Threw => None
  }

  ghost predicate QuietFrom(events: seq<Event>, from: nat, to: nat)
    requires to <= |events|
  {
    forall k :: from <= k < to ==> !Clears(At(events, k), events[k])
  }

  /** A dependency probe asked for at `r` was applied healthy at `j`, and nothing
      since `r` took dependency health away. */
  ghost predicate Backs(events: seq<Event>, r: nat, j: nat)
  {
    && r < j < |events|
    && events[r] == Requests(Dependencies)
    && AppliesHealthy(At(events, j), events[j])
    && At(events, j).queue[0].ticket == At(events, r).issued
    && QuietFrom(events, r, |events|)
  }

  ghost predicate Backed(events: seq<Event>)
  {
    exists r: nat, j: nat :: Backs(events, r, j)
  }

  /** The checkpoint failure at `a` has not been repaired before `n`. */
  ghost predicate Unrepaired(events: seq<Event>, n: nat, a: nat)
    requires n <= |events|
  {
    a < n && events[a] == CheckpointFails && forall b :: a < b < n ==> events[b] != CheckpointRecovers
  }

  ghost predicate LastReport(events: seq<Event>, n: nat, k: nat, mode: Mode)
    requires n <= |events|
  {
    k < n && Reported(At(events, k), events[k]) == Some(mode)
    && forall i :: k < i < n ==> Reported(At(events, i), events[i]) == None
  }

  // ----- one event -----

  lemma StepHealth(s: Coordinator, e: Event)
    ensures Next(s, e).dependenciesHealthy ==
            (!Clears(s, e) && (AppliesHealthy(s, e) || s.dependenciesHealthy))
  {
  }

  lemma StepEpoch(s: Coordinator, e: Event)
    ensures Next(s, e).epoch >= s.epoch && (Clears(s, e) ==> Next(s, e).epoch > s.epoch)
    ensures Next(s, e).issued == s.issued + if e.Requests? then 1 else 0
  {
  }

  lemma StepMode(s: Coordinator, e: Event)
    ensures Next(s, e).authorityMode == if Reported(s, e).Some? then Reported(s, e).value else s.authorityMode
  {
  }

  ghost predicate Consistent(s: Coordinator)
  {
    s.dependenciesHealthy ==> s.lifecycle == Running && s.authorityHealthy
  }

  lemma StepConsistent(s: Coordinator, e: Event)
    requires Consistent(s)
    ensures Consistent(Next(s, e))
  {
  }

  // ----- whole runs -----

  lemma {:induction false} Monotone(events: seq<Event>, i: nat, j: nat)
    requires i <= j <= |events|
    ensures At(events, i).epoch <= At(events, j).epoch && At(events, i).issued <= At(events, j).issued
  {
    if i < j {
      Monotone(events, i, j - 1);
      StepEpoch(At(events, j - 1), events[j - 1]);
    }
  }

  lemma ClearingAdvances(events: seq<Event>, i: nat, k: nat, j: nat)
    requires i <= k < j <= |events| && Clears(At(events, k), events[k])
    ensures At(events, i).epoch < At(events, j).epoch
  {
    Monotone(events, i, k);
    StepEpoch(At(events, k), events[k]);
    Monotone(events, k + 1, j);
  }

  lemma SameEpochIsQuiet(events: seq<Event>, i: nat, j: nat)
    requires i <= j <= |events| && At(events, i).epoch == At(events, j).epoch
    ensures QuietFrom(events, i, j)
  {
    forall k | i <= k < j && Clears(At(events, k), events[k]) ensures false {
      ClearingAdvances(events, i, k, j);
    }
  }

  lemma {:induction false} AlwaysConsistent(events: seq<Event>, n: nat)
    requires n <= |events|
    ensures Consistent(At(events, n))
  {
    if n > 0 {
      AlwaysConsistent(events, n - 1);
      StepConsistent(At(events, n - 1), events[n - 1]);
    }
  }

  ghost predicate RequestedAt(events: seq<Event>, n: nat, r: nat, q: Probe)
    requires n <= |events|
  {
    r < n && events[r] == Requests(q.kind) && At(events, r).issued == q.ticket && At(events, r).epoch == q.requestedEpoch
  }

  lemma StepQueue(s: Coordinator, e: Event, q: Probe)
    requires q in Next(s, e).queue && q !in s.queue
    ensures e == Requests(q.kind) && q.ticket == s.issued && q.requestedEpoch == s.epoch
  {
  }

  /** Every chained probe stems from a request earlier in the run. */
  lemma {:induction false} Origin(events: seq<Event>, n: nat, q: Probe) returns (r: nat)
    requires n <= |events| && q in At(events, n).queue
    ensures RequestedAt(events, n, r, q)
  {
    if q in At(events, n - 1).queue {
      r := Origin(events, n - 1, q);
    } else {
      r := n - 1;
      StepQueue(At(events, r), events[r], q);
    }
  }

  /** Health was given by an answer and not taken away since. */
  lemma {:induction false} HealthGiven(events: seq<Event>, n: nat) returns (j: nat)
    requires n <= |events| && At(events, n).dependenciesHealthy
    ensures j < n && AppliesHealthy(At(events, j), events[j]) && QuietFrom(events, j, n)
  {
    StepHealth(At(events, n - 1), events[n - 1]);
    if AppliesHealthy(At(events, n - 1), events[n - 1]) {
      j := n - 1;
    } else {
      j := HealthGiven(events, n - 1);
    }
  }

  lemma {:induction false} HealthKept(events: seq<Event>, j: nat, n: nat)
    requires j < n <= |events| && AppliesHealthy(At(events, j), events[j]) && QuietFrom(events, j, n)
    ensures At(events, n).dependenciesHealthy
  {
    StepHealth(At(events, n - 1), events[n - 1]);
    if j < n - 1 {
      HealthKept(events, j, n - 1);
    }
  }

  /** The request that a healthy answer fulfils came after the last clearing event
      before the answer. */
  lemma HealthyAnswerIsFresh(events: seq<Event>, j: nat) returns (r: nat)
    requires j < |events| && AppliesHealthy(At(events, j), events[j])
    ensures r < j && events[r] == Requests(Dependencies)
    ensures At(events, j).queue[0].ticket == At(events, r).issued && QuietFrom(events, r, j)
  {
    r := Origin(events, j, At(events, j).queue[0]);
    SameEpochIsQuiet(events, r, j);
  }

  /** Dependency health in any reachable state. */
  lemma BackedIff(events: seq<Event>)
    ensures Exec(events).dependenciesHealthy <==> Backed(events)
  {
    if Exec(events).dependenciesHealthy {
      var j := HealthGiven(events, |events|);
      var r := HealthyAnswerIsFresh(events, j);
      assert Backs(events, r, j);
    }
    if Backed(events) {
      var r: nat, j: nat :| Backs(events, r, j);
      HealthKept(events, j, |events|);
    }
  }

  lemma StepCheckpoint(s: Coordinator, e: Event)
    ensures Next(s, e).checkpointHealthy ==
            (e == CheckpointRecovers || (s.checkpointHealthy && e != CheckpointFails))
  {
  }

  lemma {:induction false} BrokenBy(events: seq<Event>, n: nat) returns (a: nat)
    requires n <= |events| && !At(events, n).checkpointHealthy
    ensures Unrepaired(events, n, a)
  {
    StepCheckpoint(At(events, n - 1), events[n - 1]);
    if events[n - 1] == CheckpointFails {
      a := n - 1;
    } else {
      a := BrokenBy(events, n - 1);
    }
  }

  lemma {:induction false} StaysBroken(events: seq<Event>, a: nat, n: nat)
    requires n <= |events| && Unrepaired(events, n, a)
    ensures !At(events, n).checkpointHealthy
  {
    StepCheckpoint(At(events, n - 1), events[n - 1]);
    if a < n - 1 {
      StaysBroken(events, a, n - 1);
    }
  }

  lemma {:induction false} ModeFrom(events: seq<Event>, n: nat) returns (k: nat)
    requires n <= |events| && At(events, n).authorityMode != Off
    ensures LastReport(events, n, k, At(events, n).authorityMode)
  {
    StepMode(At(events, n - 1), events[n - 1]);
    if Reported(At(events, n - 1), events[n - 1]).Some? {
      k := n - 1;
    } else {
      k := ModeFrom(events, n - 1);
    }
  }

  lemma {:induction false} ModeKept(events: seq<Event>, n: nat, k: nat, mode: Mode)
    requires n <= |events| && LastReport(events, n, k, mode)
    ensures At(events, n).authorityMode == mode
  {
    StepMode(At(events, n - 1), events[n - 1]);
    if k < n - 1 {
      ModeKept(events, n - 1, k, mode);
    }
  }

  /** The runtime is ready exactly when a dependency probe requested after the last
      event that took health away came back healthy, every checkpoint failure was
      repaired, and the last mode that the control plane reported is not `off`. */
  lemma ReadyIff(events: seq<Event>)
    ensures Exec(events).Ready() <==>
            && Backed(events)
            && (forall a: nat :: !Unrepaired(events, |events|, a))
            && exists k: nat, mode: Mode :: mode != Off && LastReport(events, |events|, k, mode)
  {
    var n, s := |events|, Exec(events);
    AlwaysConsistent(events, n);
    BackedIff(events);
    forall a: nat | Unrepaired(events, n, a) ensures !s.checkpointHealthy {
      StaysBroken(events, a, n);
    }
    if !s.checkpointHealthy {
      var a := BrokenBy(events, n);
    }
    forall k: nat, mode: Mode | LastReport(events, n, k, mode) ensures s.authorityMode == mode {
      ModeKept(events, n, k, mode);
    }
    if s.authorityMode != Off {
      var k := ModeFrom(events, n);
    }
  }

  /** Once health is taken away at `k`, a probe requested before `k` changes nothing
      any more, whether it still waits or is in flight. */
  lemma EarlierProbesAreDiscarded(events: seq<Event>, r: nat, k: nat)
    requires r < k < |events| && events[r].Requests? && Clears(At(events, k), events[k])
    requires Exec(events).queue != [] && Exec(events).queue[0].ticket == At(events, r).issued
    ensures Exec(events).Begun() == Exec(events).Dropped()
    ensures forall answer :: Exec(events).Settled(answer) == Exec(events).Dropped()
  {
    var n, s := |events|, Exec(events);
    var first := Origin(events, n, s.queue[0]);
    if first < r { Monotone(events, first + 1, r); StepEpoch(At(events, first), events[first]); }
    if r < first { Monotone(events, r + 1, first); StepEpoch(At(events, r), events[r]); }
    assert first == r;
    ClearingAdvances(events, r, k, n);
  }

  // ----- recovery -----

  lemma {:induction false} Continues(events: seq<Event>, more: seq<Event>, n: nat)
    requires n <= |events|
    ensures At(events + more, n) == At(events, n)
  {
    if n > 0 {
      Continues(events, more, n - 1);
    }
  }

  lemma Then(events: seq<Event>, e: Event) returns (after: seq<Event>)
    ensures after == events + [e] && Exec(after) == Next(Exec(events), e)
  {
    after := events + [e];
    Continues(events, [e], |events|);
  }

  ghost predicate AllStale(s: Coordinator)
  {
    forall q :: q in s.queue ==> q.requestedEpoch < s.epoch
  }

  /** Stale probes leave the chain without touching the health flags. */
  lemma {:induction false} Flush(events: seq<Event>) returns (more: seq<Event>)
    requires AllStale(Exec(events)) && !Exec(events).inFlight
    ensures Exec(events + more) == Exec(events).(queue := [])
    decreases |Exec(events).queue|
  {
    if Exec(events).queue == [] {
      more := [];
      assert events + more == events;
    } else {
      var after := Then(events, Executes);
      var rest := Flush(after);
      more := [Executes] + rest;
      assert after + rest == events + more;
    }
  }

  ghost predicate QueueInv(s: Coordinator)
  {
    (forall q :: q in s.queue ==> q.requestedEpoch <= s.epoch) && (s.inFlight ==> s.queue != [])
  }

  lemma StepQueueInv(s: Coordinator, e: Event)
    requires QueueInv(s)
    ensures QueueInv(Next(s, e))
  {
    StepEpoch(s, e);
    forall q | q in Next(s, e).queue ensures q.requestedEpoch <= Next(s, e).epoch {
      if q !in s.queue {
        StepQueue(s, e, q);
      }
    }
  }

  lemma {:induction false} EpochsAreOld(events: seq<Event>, n: nat)
    requires n <= |events|
    ensures QueueInv(At(events, n))
  {
    if n > 0 {
      EpochsAreOld(events, n - 1);
      StepQueueInv(At(events, n - 1), events[n - 1]);
    }
  }

  predicate Idling(s: Coordinator)
  {
    s.lifecycle == Running && s.checkpointHealthy && !s.inFlight
  }

  /** Activation makes every chained probe stale. */
  lemma Restart(events: seq<Event>) returns (run: seq<Event>)
    ensures events <= run && Idling(Exec(run)) && AllStale(Exec(run))
  {
    EpochsAreOld(events, |events|);
    run := Then(events, CheckpointRecovers);
    run := Then(run, Activates);
    if Exec(run).inFlight {
      run := Then(run, Settles(Threw));
    }
  }

  lemma Probed(events: seq<Event>) returns (run: seq<Event>)
    requires Idling(Exec(events)) && Exec(events).queue == []
    ensures events <= run && Exec(run).Ready()
  {
    run := Then(events, Requests(Dependencies));
    run := Then(run, Executes);
    run := Then(run, Settles(DependencyResult(true, true, true, Enabled)));
  }

  /** No history wedges the coordinator: from every reachable state some
      continuation makes it ready again. */
  lemma AlwaysRecoverable(events: seq<Event>) returns (more: seq<Event>)
    ensures Exec(events + more).Ready()
  {
    var run := Restart(events);
    var flush := Flush(run);
    run := Probed(run + flush);
    more := run[|events|..];
    assert events + more == run;
  }
}
