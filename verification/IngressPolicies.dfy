/** The rolling message and byte budgets of an authenticated socket. */
module IngressPolicies {
  import opened Wrappers
  import opened Text
  import opened KeyParts
  import opened RollingWindow

  datatype Limits = Limits(maxBytesPerWindow: nat, maxMessagesPerWindow: nat, windowMs: nat)

  datatype Denial =
    | InputInvalid
    | ClockInvalid
    | MessageBudgetExceeded
    | ByteBudgetExceeded

  datatype Remaining = Remaining(bytes: int, messages: int)

  /** What is stored for a socket. */
  datatype SocketState = SocketState(bytes: nat, events: seq<Event>, lastObservedAt: int)

  datatype Call = Call(now: int, byteLength: nat)

  /** Either budget, for `n` more bytes after `count` messages of `bytes` bytes. */
  function Budget(limits: Limits, count: nat, bytes: nat, n: nat): Option<Denial>
  {
    if count >= limits.maxMessagesPerWindow then Some(MessageBudgetExceeded)
    else if bytes + n > limits.maxBytesPerWindow then Some(ByteBudgetExceeded)
    else None
  }

  // ----- the stored state -----

  function Pruned(limits: Limits, state: SocketState, now: int): SocketState
  {
    SocketState(WeightSince(state.events, now - limits.windowMs), Since(state.events, now - limits.windowMs), now)
  }

  function Charged(state: SocketState, n: nat): SocketState
  {
    SocketState(state.bytes + n, state.events + [Event(state.lastObservedAt, n)], state.lastObservedAt)
  }

  predicate ClockRuns(last: Option<int>, now: int)
  {
    ValidClock(now) && (last.Some? ==> now >= last.value)
  }

  function Last(stored: Option<SocketState>): Option<int>
  {
    if stored.Some? then Some(stored.value.lastObservedAt) else None
  }

  /** What a call starts from, for a socket that may have nothing stored yet. */
  function Current(stored: Option<SocketState>, now: int): SocketState
  {
    if stored.Some? then stored.value else SocketState(0, [], now)
  }

  /** One call for a socket that may have nothing stored yet. */
  function Consumed(limits: Limits, stored: Option<SocketState>, call: Call): (Option<SocketState>, Option<Denial>)
  {
    if !ClockRuns(Last(stored), call.now) then (stored, Some(ClockInvalid))
    else
      var state := Pruned(limits, Current(stored, call.now), call.now);
      var denial := Budget(limits, |state.events|, state.bytes, call.byteLength);
      if denial.None? then (Some(Charged(state, call.byteLength)), None)
      else (if stored.Some? then Some(state) else None, denial)
  }

  // ----- the whole history -----

  /** Everything ever accepted, and the last instant observed since the first of it. */
  datatype History = History(log: seq<Event>, last: Option<int>)

  /** The rule of the budgets over the whole history. */
  function Verdict(limits: Limits, h: History, call: Call): Option<Denial>
  {
    if !ClockRuns(h.last, call.now) then Some(ClockInvalid)
    else
      Budget(limits, CountSince(h.log, call.now - limits.windowMs), WeightSince(h.log, call.now - limits.windowMs),
             call.byteLength)
  }

  function Recorded(limits: Limits, h: History, call: Call): History
  {
    match Verdict(limits, h, call)
    case None => History(h.log + [Event(call.now, call.byteLength)], Some(call.now))
    case Some(ClockInvalid) => h
    case Some(_) => if h.last.Some? then h.(last := Some(call.now)) else h
  }

  function HistoryOf(limits: Limits, calls: seq<Call>): History
  {
    if calls == [] then History([], None)
    else Recorded(limits, HistoryOf(limits, calls[..|calls| - 1]), calls[|calls| - 1])
  }

  function StateOf(limits: Limits, calls: seq<Call>): Option<SocketState>
  {
    if calls == [] then None
    else Consumed(limits, StateOf(limits, calls[..|calls| - 1]), calls[|calls| - 1]).0
  }

  ghost predicate LogInv(limits: Limits, h: History)
  {
    && (h.last.None? ==> h.log == [])
    && (h.last.Some? ==> UpTo(h.log, h.last.value))
    && Sorted(h.log)
    && Within(h.log, limits.windowMs, limits.maxMessagesPerWindow, limits.maxBytesPerWindow)
  }

  /** The stored state is what the whole history prunes to. */
  predicate StandsFor(limits: Limits, stored: Option<SocketState>, h: History)
  {
    Last(stored) == h.last
    && (stored.Some? ==>
          && stored.value.events == Since(h.log, stored.value.lastObservedAt - limits.windowMs)
          && stored.value.bytes == WeightSince(h.log, stored.value.lastObservedAt - limits.windowMs))
  }

  lemma RecordedInv(limits: Limits, h: History, call: Call)
    requires LogInv(limits, h) && limits.windowMs > 0
    ensures LogInv(limits, Recorded(limits, h, call))
  {
    var e := Event(call.now, call.byteLength);
    if Verdict(limits, h, call).None? {
      AppendSorted(h.log, e);
      AppendKeepsWithin(h.log, e, limits.windowMs, limits.maxMessagesPerWindow, limits.maxBytesPerWindow);
    }
  }

  /** Pruning the stored events again, later, is pruning the whole history then. */
  lemma PrunedAgain(limits: Limits, state: SocketState, log: seq<Event>, now: int)
    requires now >= state.lastObservedAt && Sorted(log)
    requires state.events == Since(log, state.lastObservedAt - limits.windowMs)
    ensures Pruned(limits, state, now) ==
            SocketState(WeightSince(log, now - limits.windowMs), Since(log, now - limits.windowMs), now)
    ensures |Since(log, now - limits.windowMs)| == CountSince(log, now - limits.windowMs)
  {
    hide Since, CountSince, WeightSince, Sorted;
    PruneTwice(log, state.lastObservedAt - limits.windowMs, now - limits.windowMs);
    CountIsLength(log, now - limits.windowMs);
  }

  lemma NothingStored(limits: Limits, now: int)
    ensures Pruned(limits, SocketState(0, [], now), now) == SocketState(0, [], now)
  {
  }

  /** One call on the stored state decides and moves on as the whole history does. */
  lemma ConsumedRefines(limits: Limits, stored: Option<SocketState>, h: History, call: Call)
    requires StandsFor(limits, stored, h) && LogInv(limits, h) && limits.windowMs > 0
    ensures Consumed(limits, stored, call).1 == Verdict(limits, h, call)
    ensures StandsFor(limits, Consumed(limits, stored, call).0, Recorded(limits, h, call))
  {
    hide Since, CountSince, WeightSince, Sorted, Within;
    NothingStored(limits, call.now);
    if ClockRuns(h.last, call.now) {
      var state := Current(stored, call.now);
      PrunedAgain(limits, state, h.log, call.now);
      if Verdict(limits, h, call).None? {
        AppendRecent(h.log, Event(call.now, call.byteLength), call.now - limits.windowMs);
      }
    }
  }

  /** The pruned state stands for the whole history of any run of calls, and no
      window of the history overran a budget. */
  lemma {:induction false} RunRefines(limits: Limits, calls: seq<Call>)
    requires limits.windowMs > 0
    ensures StandsFor(limits, StateOf(limits, calls), HistoryOf(limits, calls))
    ensures LogInv(limits, HistoryOf(limits, calls))
  {
    if calls == [] {
    } else {
      var before, call := calls[..|calls| - 1], calls[|calls| - 1];
      RunRefines(limits, before);
      ConsumedRefines(limits, StateOf(limits, before), HistoryOf(limits, before), call);
      RecordedInv(limits, HistoryOf(limits, before), call);
    }
  }

  /** After any calls, the next one is decided exactly by the rule over everything
      accepted before, and no window ever exceeds its limits. */
  lemma WholeHistoryDecides(limits: Limits, calls: seq<Call>, call: Call)
    requires limits.windowMs > 0
    ensures Consumed(limits, StateOf(limits, calls), call).1 == Verdict(limits, HistoryOf(limits, calls), call)
    ensures Within(HistoryOf(limits, calls).log, limits.windowMs, limits.maxMessagesPerWindow, limits.maxBytesPerWindow)
  {
    RunRefines(limits, calls);
    ConsumedRefines(limits, StateOf(limits, calls), HistoryOf(limits, calls), call);
  }

  predicate Sound(state: SocketState)
  {
    state.bytes == Sum(state.events, 0, |state.events|)
  }

  lemma PrunedSound(limits: Limits, state: SocketState, now: int)
    ensures Sound(Pruned(limits, state, now))
  {
    var k := First(state.events, now - limits.windowMs, 0);
    SumTwice(state.events, k, 0);
  }

  lemma ChargedSound(state: SocketState, n: nat)
    requires Sound(state)
    ensures Sound(Charged(state, n))
  {
    SumOfPrefix(state.events, Event(state.lastObservedAt, n), 0, |state.events|);
  }

  class RuntimeIngressPolicy {
    const limits: Limits
    var sockets: map<Str, SocketState>

    predicate Valid()
      reads this
    {
      forall id :: id in sockets ==> Sound(sockets[id])
    }

    function Stored(id: Str): Option<SocketState>
      reads this
    {
      if id in sockets then Some(sockets[id]) else None
    }

    constructor (limits: Limits)
      ensures Valid() && this.limits == limits && sockets == map[]
    {
      this.limits, sockets := limits, map[];
    }

    /** Prunes at a clock that runs, and stores the observation of a known socket. */
    method Observe(socketId: Str, now: int) returns (state: Option<SocketState>)
      requires Valid()
      modifies this
      ensures Valid()
      ensures state == if ClockRuns(Last(old(Stored(socketId))), now)
                       then Some(Pruned(limits, Current(old(Stored(socketId)), now), now)) else None
      ensures state.Some? ==> Sound(state.value)
      ensures Stored(socketId) == if old(Stored(socketId)).Some? && state.Some? then state else old(Stored(socketId))
      ensures sockets - {socketId} == old(sockets) - {socketId}
    {
      if !ValidClock(now) {
        return None;
      }
      var current := if socketId in sockets then sockets[socketId] else SocketState(0, [], now);
      if now < current.lastObservedAt {
        return None;
      }
      PrunedSound(limits, current, now);
      var events, bytes := Prune(current.events, current.bytes, now - limits.windowMs);
      hide Since, WeightSince, Sum, Sound;
      state := Some(SocketState(bytes, events, now));
      if socketId in sockets {
        sockets := sockets[socketId := state.value];
      }
    }

    /** Charges a pruned state against both budgets, and stores it if they allow. */
    method Charge(socketId: Str, state: SocketState, byteLength: nat) returns (denial: Option<Denial>)
      requires Valid() && Sound(state)
      modifies this
      ensures Valid()
      ensures denial == Budget(limits, |state.events|, state.bytes, byteLength)
      ensures Stored(socketId) == if denial.None? then Some(Charged(state, byteLength)) else old(Stored(socketId))
      ensures sockets - {socketId} == old(sockets) - {socketId}
    {
      if |state.events| >= limits.maxMessagesPerWindow {
        return Some(MessageBudgetExceeded);
      }
      if state.bytes + byteLength > limits.maxBytesPerWindow {
        return Some(ByteBudgetExceeded);
      }
      ChargedSound(state, byteLength);
      hide Sound;
      var charged := SocketState(state.bytes + byteLength, state.events + [Event(state.lastObservedAt, byteLength)],
                                 state.lastObservedAt);
      sockets := sockets[socketId := charged];
      return None;
    }

    method Consume(socketId: Str, byteLength: int, now: int) returns (r: Result<Remaining, Denial>)
      requires Valid()
      modifies this
      ensures Valid()
      ensures r == Err(InputInvalid) <==> !ValidKeyPart(socketId, 256) || !PositiveSafe(byteLength)
      ensures r != Err(InputInvalid) ==>
              (Stored(socketId), if r.Err? then Some(r.error) else None)
              == Consumed(limits, old(Stored(socketId)), Call(now, byteLength))
      ensures r.Ok? ==>
              r.value == Remaining(limits.maxBytesPerWindow - sockets[socketId].bytes,
                                   limits.maxMessagesPerWindow - |sockets[socketId].events|)
      ensures r == Err(InputInvalid) ==> sockets == old(sockets)
      ensures sockets - {socketId} == old(sockets) - {socketId}
    {
      if !ValidKeyPart(socketId, 256) || !PositiveSafe(byteLength) {
        return Err(InputInvalid);
      }
      hide Valid, Sound, ValidKeyPart, Pruned;
      var state := Observe(socketId, now);
      if state.None? {
        return Err(ClockInvalid);
      }
      var denial := Charge(socketId, state.value, byteLength);
      if denial.Some? {
        return Err(denial.value);
      }
      var stored := sockets[socketId];
      return Ok(Remaining(limits.maxBytesPerWindow - stored.bytes, limits.maxMessagesPerWindow - |stored.events|));
    }

    method Release(socketId: Str) returns (error: Option<Denial>)
      requires Valid()
      modifies this
      ensures Valid()
      ensures error == if ValidKeyPart(socketId, 256) then None else Some(InputInvalid)
      ensures sockets == if error.None? then old(sockets) - {socketId} else old(sockets)
    {
      if !ValidKeyPart(socketId, 256) {
        return Some(InputInvalid);
      }
      sockets := sockets - {socketId};
      error := None;
    }
  }
}
