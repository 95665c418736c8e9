/** Any number of guards over one database lock and one shared clock. */
module MutualExclusion {
  import opened Wrappers
  import opened AuthorityGuard

  /** The acquisition safety window, the freshness bound, and a bound on how long
      a successful probe answer may travel after the server evaluated it. */
  datatype Config = Config(window: nat, freshness: nat, latency: nat)

  /** The answer of the database to a guard's query, on its way back. */
  datatype Flight = Nothing | Acquired(granted: bool) | Probed(held: bool, at: int) | Unlocked(released: bool)

  /** When, and as which one in order, a session was granted the lock. */
  datatype Grant = Grant(order: nat, at: int)

  datatype System = System(
    now: int,
    holder: Option<nat>,
    guards: seq<Guard>,
    flights: seq<Flight>,
    granted: map<nat, Grant>,
    orders: nat,
    sessions: nat)

  datatype Step =
    | Tick(ms: nat)
    | StartAcquire(i: nat)
    | StartProbe(i: nat)
    | StartRelease(i: nat)
    | ServerAcquire(i: nat)
    | ServerProbe(i: nat)
    | ServerRelease(i: nat)
    | DeliverAcquire(i: nat)
    | DeliverProbe(i: nat)
    | DeliverRelease(i: nat)
    | QueryFails(i: nat)
    | Wake(i: nat)
    | SessionEnds(session: nat)

  function Start(n: nat): System
  {
    System(0, None, seq(n, _ => Guard(None, None, Idle)), seq(n, _ => Nothing), map[], 0, 0)
  }

  predicate Known(s: System, i: nat)
  {
    i < |s.guards| == |s.flights|
  }

  predicate Enabled(c: Config, s: System, step: Step)
  {
    match step
    case Tick(_) => true
    case SessionEnds(_) => true
    case StartAcquire(i) => Known(s, i) && s.guards[i].operation == Idle
    case StartProbe(i) => Known(s, i) && s.guards[i].operation == Idle
    case StartRelease(i) => Known(s, i) && s.guards[i].operation == Idle
    case ServerAcquire(i) => Known(s, i) && s.guards[i].operation.Acquiring? && s.flights[i] == Nothing
    case ServerProbe(i) =>
      Known(s, i) && s.guards[i].operation == Probing && s.guards[i].session.Some? && s.flights[i] == Nothing
    case ServerRelease(i) => Known(s, i) && s.guards[i].operation.Releasing? && s.flights[i] == Nothing
    case DeliverAcquire(i) => Known(s, i) && s.guards[i].operation.Acquiring? && s.flights[i].Acquired?
    case DeliverProbe(i) =>
      Known(s, i) && s.guards[i].operation == Probing && s.flights[i].Probed?
      && (s.flights[i].held ==> s.now - s.flights[i].at <= c.latency)
    case DeliverRelease(i) => Known(s, i) && s.guards[i].operation.Releasing? && s.flights[i].Unlocked?
    case QueryFails(i) =>
      Known(s, i) && (s.guards[i].operation.Acquiring? || s.guards[i].operation == Probing || s.guards[i].operation.Releasing?)
    case Wake(i) => Known(s, i) && s.guards[i].operation.Sleeping? && s.now >= s.guards[i].operation.wakeAt
  }

  function Apply(c: Config, s: System, step: Step): System
    requires Enabled(c, s, step)
  {
    match step
    case Tick(ms) => s.(now := s.now + ms)
    case SessionEnds(session) => if s.holder == Some(session) then s.(holder := None) else s
    case StartAcquire(i) => s.(guards := s.guards[i := s.guards[i].StartAcquire(s.sessions)], sessions := s.sessions + 1)
    case StartProbe(i) => s.(guards := s.guards[i := s.guards[i].StartProbe()])
    case StartRelease(i) => s.(guards := s.guards[i := s.guards[i].StartRelease()])
    case ServerAcquire(i) =>
      if s.holder.None? then
        s.(holder := Some(s.guards[i].operation.candidate),
           flights := s.flights[i := Acquired(true)],
           granted := s.granted[s.guards[i].operation.candidate := Grant(s.orders, s.now)],
           orders := s.orders + 1)
      else s.(flights := s.flights[i := Acquired(false)])
    case ServerProbe(i) => s.(flights := s.flights[i := Probed(s.holder == s.guards[i].session, s.now)])
    case ServerRelease(i) =>
      var mine := s.holder == Some(s.guards[i].operation.released);
      s.(holder := if mine then None else s.holder, flights := s.flights[i := Unlocked(mine)])
    case DeliverAcquire(i) =>
      s.(guards := s.guards[i := s.guards[i].AcquireAnswered(s.flights[i].granted, s.now, c.window)],
         flights := s.flights[i := Nothing])
    case DeliverProbe(i) =>
      s.(guards := s.guards[i := s.guards[i].ProbeAnswered(s.flights[i].held, s.now)], flights := s.flights[i := Nothing])
    case DeliverRelease(i) => s.(guards := s.guards[i := s.guards[i].(operation := Idle)], flights := s.flights[i := Nothing])
    case QueryFails(i) => s.(guards := s.guards[i := s.guards[i].Cleared()], flights := s.flights[i := Nothing])
    case Wake(i) => s.(guards := s.guards[i := s.guards[i].Woken()])
  }

  /** The state after a run, if every step of it could be taken. */
  function Exec(c: Config, n: nat, steps: seq<Step>): Option<System>
  {
    if steps == [] then Some(Start(n))
    else
      var before := Exec(c, n, steps[..|steps| - 1]);
      var step := steps[|steps| - 1];
      if before.Some? && Enabled(c, before.value, step) then Some(Apply(c, before.value, step)) else None
  }

  predicate Holds(c: Config, s: System, i: nat)
  {
    i < |s.guards| && s.guards[i].HeldError(s.now, c.freshness).None?
  }

  ghost predicate Exclusive(c: Config, s: System)
  {
    forall i: nat, j: nat :: Holds(c, s, i) && Holds(c, s, j) ==> i == j
  }

  /** No run ever lets two guards assert authority at one instant. */
  ghost predicate AlwaysExclusive(c: Config)
  {
    forall n: nat, steps: seq<Step> :: Exec(c, n, steps).Some? ==> Exclusive(c, Exec(c, n, steps).value)
  }

  // ----- what every step keeps -----

  function SessionOf(g: Guard): Option<nat>
  {
    if g.session.Some? then g.session
    else match g.operation
      case Acquiring(x) => Some(x)
      case Releasing(x) => Some(x)
      case _ => None
  }

  /** Every session granted after `x` was granted at `since` or later. */
  ghost predicate LaterGrantsSince(s: System, x: nat, since: int)
  {
    x in s.granted && forall y :: y in s.granted && s.granted[y].order > s.granted[x].order ==> s.granted[y].at >= since
  }

  ghost predicate GuardInv(c: Config, s: System, g: Guard, f: Flight)
  {
    && (SessionOf(g).Some? ==> SessionOf(g).value < s.sessions)
    && (f != Nothing ==> g.operation.Acquiring? || g.operation == Probing || g.operation.Releasing?)
    && (g.operation.Acquiring? ==>
          g.session.None? && (f == Acquired(true) <==> g.operation.candidate in s.granted)
          && (f == Nothing || f.Acquired?))
    && (g.operation.Sleeping? ==> g.session.Some? && g.lastConfirmedAt.None?)
    && (g.operation == Probing ==> g.session.Some?)
    && (g.operation.Releasing? ==> g.session.None?)
    && (g.session.Some? ==>
          g.session.value in s.granted
          && (if g.operation.Sleeping? then g.operation.wakeAt >= s.granted[g.session.value].at + c.window
              else s.now >= s.granted[g.session.value].at + c.window))
    && (f.Probed? && f.held ==> g.session.Some? && f.at <= s.now && LaterGrantsSince(s, g.session.value, f.at))
    && (g.lastConfirmedAt.Some? ==>
          g.session.Some? && g.lastConfirmedAt.value <= s.now
          && g.session.value in s.granted
          && g.lastConfirmedAt.value >= s.granted[g.session.value].at + c.window
          && LaterGrantsSince(s, g.session.value, g.lastConfirmedAt.value - c.latency))
  }

  ghost predicate LockInv(s: System)
  {
    && (forall x :: x in s.granted ==> x < s.sessions && s.granted[x].order < s.orders && s.granted[x].at <= s.now)
    && (forall x, y :: x in s.granted && y in s.granted && s.granted[x].order == s.granted[y].order ==> x == y)
    && (s.holder.Some? ==> s.holder.value in s.granted && s.granted[s.holder.value].order + 1 == s.orders)
  }

  ghost predicate OwnSessions(s: System)
  {
    forall i, j :: 0 <= i < |s.guards| && 0 <= j < |s.guards| && i != j && SessionOf(s.guards[i]).Some? ==>
      SessionOf(s.guards[i]) != SessionOf(s.guards[j])
  }

  ghost predicate Inv(c: Config, s: System)
  {
    && |s.guards| == |s.flights|
    && LockInv(s)
    && OwnSessions(s)
    && forall i :: 0 <= i < |s.guards| ==> GuardInv(c, s, s.guards[i], s.flights[i])
  }

  /** A guard's own invariant survives what happens elsewhere. */
  lemma GuardFrame(c: Config, s: System, t: System, g: Guard, f: Flight)
    requires GuardInv(c, s, g, f)
    requires t.now >= s.now && t.sessions >= s.sessions && t.granted == s.granted
    ensures GuardInv(c, t, g, f)
  {
  }

  lemma GuardFrameGrant(c: Config, s: System, t: System, g: Guard, f: Flight, y: nat)
    requires LockInv(s) && GuardInv(c, s, g, f)
    requires t.now == s.now && t.sessions == s.sessions
    requires t.granted == s.granted[y := Grant(s.orders, s.now)]
    requires y !in s.granted && SessionOf(g) != Some(y)
    ensures GuardInv(c, t, g, f)
  {
  }

  /** Only guard `i` changed, to `g` with flight `f`. */
  lemma OneGuardChanged(c: Config, s: System, t: System, i: nat, g: Guard, f: Flight)
    requires Inv(c, s) && i < |s.guards|
    requires t.guards == s.guards[i := g] && t.flights == s.flights[i := f]
    requires t.now == s.now && t.sessions >= s.sessions && t.granted == s.granted && t.orders == s.orders
    requires LockInv(t) && GuardInv(c, t, g, f)
    requires SessionOf(g) == SessionOf(s.guards[i]) || SessionOf(g) == None || SessionOf(g).value >= s.sessions
    ensures Inv(c, t)
  {
    forall j | 0 <= j < |t.guards| ensures GuardInv(c, t, t.guards[j], t.flights[j]) {
      if j != i { GuardFrame(c, s, t, s.guards[j], s.flights[j]); }
    }
    forall j, k | 0 <= j < |t.guards| && 0 <= k < |t.guards| && j != k && SessionOf(t.guards[j]).Some?
      ensures SessionOf(t.guards[j]) != SessionOf(t.guards[k])
    {
      assert j != i ==> GuardInv(c, s, s.guards[j], s.flights[j]);
      assert k != i ==> GuardInv(c, s, s.guards[k], s.flights[k]);
    }
  }

  /** A session that holds the lock is the last one granted. */
  lemma HolderIsLast(s: System, x: nat)
    requires LockInv(s) && s.holder == Some(x)
    ensures LaterGrantsSince(s, x, s.now)
  {
  }

  lemma StartInv(c: Config, s: System, step: Step)
    requires Inv(c, s) && Enabled(c, s, step)
    requires step.StartAcquire? || step.StartProbe? || step.StartRelease? || step.Wake? || step.QueryFails?
    ensures Inv(c, Apply(c, s, step))
  {
    var t, i := Apply(c, s, step), step.i;
    assert GuardInv(c, s, s.guards[i], s.flights[i]);
    assert t.flights == s.flights[i := t.flights[i]];
    OneGuardChanged(c, s, t, i, t.guards[i], t.flights[i]);
  }

  lemma DeliverInv(c: Config, s: System, step: Step)
    requires Inv(c, s) && Enabled(c, s, step)
    requires step.DeliverAcquire? || step.DeliverProbe? || step.DeliverRelease?
    ensures Inv(c, Apply(c, s, step))
  {
    var t, i := Apply(c, s, step), step.i;
    assert GuardInv(c, s, s.guards[i], s.flights[i]);
    OneGuardChanged(c, s, t, i, t.guards[i], t.flights[i]);
  }

  lemma ServerProbeInv(c: Config, s: System, i: nat)
    requires Inv(c, s) && Enabled(c, s, ServerProbe(i))
    ensures Inv(c, Apply(c, s, ServerProbe(i)))
  {
    var t := Apply(c, s, ServerProbe(i));
    assert GuardInv(c, s, s.guards[i], s.flights[i]);
    if s.holder == s.guards[i].session {
      HolderIsLast(s, s.holder.value);
    }
    assert t.guards == s.guards[i := s.guards[i]];
    OneGuardChanged(c, s, t, i, s.guards[i], t.flights[i]);
  }

  lemma ServerReleaseInv(c: Config, s: System, i: nat)
    requires Inv(c, s) && Enabled(c, s, ServerRelease(i))
    ensures Inv(c, Apply(c, s, ServerRelease(i)))
  {
    var t := Apply(c, s, ServerRelease(i));
    assert GuardInv(c, s, s.guards[i], s.flights[i]);
    assert t.guards == s.guards[i := s.guards[i]];
    OneGuardChanged(c, s, t, i, s.guards[i], t.flights[i]);
  }

  lemma ServerAcquireInv(c: Config, s: System, i: nat)
    requires Inv(c, s) && Enabled(c, s, ServerAcquire(i))
    ensures Inv(c, Apply(c, s, ServerAcquire(i)))
  {
    var t := Apply(c, s, ServerAcquire(i));
    assert GuardInv(c, s, s.guards[i], s.flights[i]);
    if s.holder.None? {
      var y := s.guards[i].operation.candidate;
      forall j | 0 <= j < |t.guards| ensures GuardInv(c, t, t.guards[j], t.flights[j]) {
        if j != i {
          assert SessionOf(s.guards[i]) != SessionOf(s.guards[j]);
          GuardFrameGrant(c, s, t, s.guards[j], s.flights[j], y);
        }
      }
    } else {
      assert t.guards == s.guards[i := s.guards[i]];
      OneGuardChanged(c, s, t, i, s.guards[i], t.flights[i]);
    }
  }

  lemma WorldInv(c: Config, s: System, step: Step)
    requires Inv(c, s) && (step.Tick? || step.SessionEnds?)
    ensures Inv(c, Apply(c, s, step))
  {
    var t := Apply(c, s, step);
    forall j | 0 <= j < |t.guards| ensures GuardInv(c, t, t.guards[j], t.flights[j]) {
      GuardFrame(c, s, t, s.guards[j], s.flights[j]);
    }
  }

  lemma StepInv(c: Config, s: System, step: Step)
    requires Inv(c, s) && Enabled(c, s, step)
    ensures Inv(c, Apply(c, s, step))
  {
    match step
    case Tick(_) => WorldInv(c, s, step);
    case SessionEnds(_) => WorldInv(c, s, step);
    case ServerAcquire(i) => ServerAcquireInv(c, s, i);
    case ServerProbe(i) => ServerProbeInv(c, s, i);
    case ServerRelease(i) => ServerReleaseInv(c, s, i);
    case DeliverAcquire(_) => DeliverInv(c, s, step);
    case DeliverProbe(_) => DeliverInv(c, s, step);
    case DeliverRelease(_) => DeliverInv(c, s, step);
    case _ => StartInv(c, s, step);
  }

  lemma {:induction false} ExecInv(c: Config, n: nat, steps: seq<Step>)
    requires Exec(c, n, steps).Some?
    ensures Inv(c, Exec(c, n, steps).value)
    decreases |steps|
  {
    if steps != [] {
      var before := steps[..|steps| - 1];
      ExecInv(c, n, before);
      StepInv(c, Exec(c, n, before).value, steps[|steps| - 1]);
    }
  }

  /** Two guards that assert authority at once had their locks granted too close
      together for the safety window. */
  lemma InvExclusive(c: Config, s: System, i: nat, j: nat)
    requires Inv(c, s) && c.window > c.freshness + c.latency
    requires Holds(c, s, i) && Holds(c, s, j)
    ensures i == j
  {
    assert GuardInv(c, s, s.guards[i], s.flights[i]) && GuardInv(c, s, s.guards[j], s.flights[j]);
  }

  lemma WideWindowIsSafe(c: Config)
    requires c.window > c.freshness + c.latency
    ensures AlwaysExclusive(c)
  {
    forall n: nat, steps: seq<Step> | Exec(c, n, steps).Some?
      ensures Exclusive(c, Exec(c, n, steps).value)
    {
      ExecInv(c, n, steps);
      var s := Exec(c, n, steps).value;
      forall i: nat, j: nat | Holds(c, s, i) && Holds(c, s, j) ensures i == j {
        InvExclusive(c, s, i, j);
      }
    }
  }

  // ----- the window cannot be any narrower -----

  lemma Extend(c: Config, n: nat, steps: seq<Step>, step: Step)
    requires Exec(c, n, steps).Some? && Enabled(c, Exec(c, n, steps).value, step)
    ensures Exec(c, n, steps + [step]) == Some(Apply(c, Exec(c, n, steps).value, step))
  {
    assert (steps + [step])[..|steps|] == steps;
  }

  /** The wake-up at the end of the sleep, which a window of zero skips. */
  function Rouse(c: Config, i: nat): Step
  {
    if c.window > 0 then Wake(i) else Tick(0)
  }

  lemma Then(c: Config, steps: seq<Step>, step: Step) returns (after: seq<Step>)
    requires Exec(c, 2, steps).Some? && Enabled(c, Exec(c, 2, steps).value, step)
    ensures Exec(c, 2, after) == Some(Apply(c, Exec(c, 2, steps).value, step))
  {
    Extend(c, 2, steps, step);
    after := steps + [step];
  }

  lemma UpdateTwice<T>(s: seq<T>, i: nat, a: T, b: T)
    requires i < |s|
    ensures s[i := a][i := b] == s[i := b]
    ensures s[i := s[i]] == s
  {
  }

  predicate ReadyToAcquire(s: System, i: nat)
  {
    Known(s, i) && s.holder.None? && s.guards[i] == Guard(None, None, Idle) && s.flights[i] == Nothing
  }

  /** Guard `i` asks for the lock as session `x`, and the server grants it. */
  lemma AskLock(c: Config, steps: seq<Step>, i: nat, x: nat) returns (after: seq<Step>)
    requires Exec(c, 2, steps).Some?
    requires ReadyToAcquire(Exec(c, 2, steps).value, i) && x == Exec(c, 2, steps).value.sessions
    ensures Exec(c, 2, after).Some?
    ensures var s, t := Exec(c, 2, steps).value, Exec(c, 2, after).value;
            t.now == s.now && t.holder == Some(x) && t.sessions == s.sessions + 1
            && t.guards == s.guards[i := Guard(None, None, Acquiring(x))]
            && t.flights == s.flights[i := Acquired(true)]
  {
    after := Then(c, steps, StartAcquire(i));
    after := Then(c, after, ServerAcquire(i));
  }

  function Waiting(c: Config, x: nat, now: int): Guard
  {
    Guard(Some(x), None, if c.window > 0 then Sleeping(now + c.window) else Probing)
  }

  lemma HearGrant(c: Config, s: System, i: nat, x: nat)
    requires Known(s, i) && s.guards[i] == Guard(None, None, Acquiring(x)) && s.flights[i] == Acquired(true)
    ensures Enabled(c, s, DeliverAcquire(i))
    ensures Apply(c, s, DeliverAcquire(i)) ==
            s.(guards := s.guards[i := Waiting(c, x, s.now)], flights := s.flights[i := Nothing])
  {
  }

  /** Guard `i` gets the lock as session `x` and sleeps through its window. */
  lemma AcquireAndWake(c: Config, steps: seq<Step>, i: nat, x: nat) returns (after: seq<Step>)
    requires Exec(c, 2, steps).Some?
    requires ReadyToAcquire(Exec(c, 2, steps).value, i) && x == Exec(c, 2, steps).value.sessions
    ensures Exec(c, 2, after).Some?
    ensures var s, t := Exec(c, 2, steps).value, Exec(c, 2, after).value;
            t.now == s.now && t.holder == Some(x) && t.sessions == s.sessions + 1
            && t.flights == s.flights
            && t.guards == s.guards[i := Waiting(c, x, s.now)]
  {
    var s := Exec(c, 2, steps).value;
    after := AskLock(c, steps, i, x);
    HearGrant(c, Exec(c, 2, after).value, i, x);
    after := Then(c, after, DeliverAcquire(i));
    UpdateTwice(s.guards, i, Guard(None, None, Acquiring(x)), Waiting(c, x, s.now));
    UpdateTwice(s.flights, i, Acquired(true), Nothing);
  }

  /** Guard 0 is granted the lock, sends its probe, and its session dies after
      the server said yes. */
  lemma FirstGrant(c: Config) returns (steps: seq<Step>)
    ensures Exec(c, 2, steps).Some?
    ensures var s := Exec(c, 2, steps).value;
            s.now == c.window && s.holder == None && s.sessions == 1
            && s.guards == [Guard(Some(0), None, Probing), Guard(None, None, Idle)]
            && s.flights == [Probed(true, c.window), Nothing]
  {
    steps := AcquireAndWake(c, [], 0, 0);
    steps := Then(c, steps, Tick(c.window));
    steps := Then(c, steps, Rouse(c, 0));
    steps := Then(c, steps, ServerProbe(0));
    steps := Then(c, steps, SessionEnds(0));
  }

  /** Guard 1 takes the lock at once. */
  lemma SecondGrant(c: Config) returns (steps: seq<Step>)
    ensures Exec(c, 2, steps).Some?
    ensures var s := Exec(c, 2, steps).value;
            s.now == c.window && s.holder == Some(1)
            && s.guards == [Guard(Some(0), None, Probing), Waiting(c, 1, c.window)]
            && s.flights == [Probed(true, c.window), Nothing]
  {
    steps := FirstGrant(c);
    steps := AcquireAndWake(c, steps, 1, 1);
  }

  lemma HearYes(c: Config, s: System, i: nat, x: nat)
    requires Known(s, i) && s.guards[i] == Guard(Some(x), None, Probing)
    requires s.flights[i].Probed? && s.flights[i].held && s.now - s.flights[i].at <= c.latency
    ensures Enabled(c, s, DeliverProbe(i))
    ensures Apply(c, s, DeliverProbe(i)) ==
            s.(guards := s.guards[i := Guard(Some(x), Some(s.now), Idle)], flights := s.flights[i := Nothing])
  {
  }

  /** Time passes while the answer to guard 0 travels. */
  lemma AnswerTravels(c: Config, m: nat) returns (steps: seq<Step>)
    ensures Exec(c, 2, steps).Some?
    ensures var s := Exec(c, 2, steps).value;
            s.now == c.window + m && s.holder == Some(1)
            && s.guards == [Guard(Some(0), None, Probing), Waiting(c, 1, c.window)]
            && s.flights == [Probed(true, c.window), Nothing]
  {
    steps := SecondGrant(c);
    steps := Then(c, steps, Tick(m));
  }

  /** Guard 0 hears its answer `m` later. */
  lemma LateAnswer(c: Config, m: nat) returns (steps: seq<Step>)
    requires m <= c.latency && m <= c.window
    ensures Exec(c, 2, steps).Some?
    ensures var s := Exec(c, 2, steps).value;
            s.now == c.window + m && s.holder == Some(1)
            && s.guards == [Guard(Some(0), Some(c.window + m), Idle), Waiting(c, 1, c.window)]
            && s.flights == [Nothing, Nothing]
  {
    hide Apply, Enabled, Waiting, Exec;
    steps := AnswerTravels(c, m);
    HearYes(c, Exec(c, 2, steps).value, 0, 0);
    steps := Then(c, steps, DeliverProbe(0));
  }

  /** A window no longer than freshness and latency together admits two holders:
      the first guard's last good answer travels while its session dies and the
      second guard waits out its whole window. */
  lemma NarrowWindowFails(c: Config) returns (steps: seq<Step>)
    requires c.window <= c.freshness + c.latency
    ensures Exec(c, 2, steps).Some?
    ensures Holds(c, Exec(c, 2, steps).value, 0) && Holds(c, Exec(c, 2, steps).value, 1)
  {
    var m := if c.latency < c.window then c.latency else c.window;
    steps := LateAnswer(c, m);
    steps := Then(c, steps, Tick(c.window - m));
    steps := Then(c, steps, Rouse(c, 1));
    steps := Then(c, steps, ServerProbe(1));
    steps := Then(c, steps, DeliverProbe(1));
  }

  /** Mutual exclusion holds in every run exactly when the safety window exceeds
      the freshness bound by more than a probe answer may travel. */
  lemma MutualExclusionIff(c: Config)
    ensures AlwaysExclusive(c) <==> c.window > c.freshness + c.latency
  {
    if c.window > c.freshness + c.latency {
      WideWindowIsSafe(c);
    } else {
      var steps := NarrowWindowFails(c);
      assert !Exclusive(c, Exec(c, 2, steps).value);
    }
  }

  /** With the default window and freshness, answers must arrive within 250 ms. */
  lemma DefaultsNeedFastAnswers(latency: nat)
    ensures AlwaysExclusive(Config(2250, 2000, latency)) <==> latency < 250
  {
    MutualExclusionIff(Config(2250, 2000, latency));
  }
}
