/** The gate in front of the provider's queues: one socket's rate windows and its
    frames in flight. */
module IngressGate {
  import opened Wrappers
  import opened KeyParts
  import opened RollingWindow
  import opened Varuint
  import AwarenessFrames
  import FrameDecoders

  /** `codec` decodes awareness states; without awareness limits nothing is inspected. */
  datatype Limits = Limits(
    awareness: Option<AwarenessFrames.GateLimits>,
    codec: AwarenessFrames.Codec,
    maxBytesPerWindow: nat,
    maxFrameBytes: nat,
    maxMessagesPerWindow: nat,
    maxQueuedBytesPerSocket: nat,
    maxQueuedMessagesPerSocket: nat,
    windowMs: nat)

  datatype Denial =
    | FrameTooLarge
    | RawClockInvalid
    | MessageRateExceeded
    | ByteRateExceeded
    | AwarenessDenied(reason: AwarenessFrames.Denial)
    | QueueMessagesExceeded
    | QueueBytesExceeded

  const MESSAGE_TYPE_AUTH: nat := 2

  /** A received buffer: its identity and its bytes. */
  datatype Frame = Frame(id: nat, content: seq<Byte>) {
    function Size(): nat { |content| }

    /** It carries authentication, which never enters the queue. */
    predicate IsAuth()
    {
      var envelope := AwarenessFrames.ReadEnvelope(content);
      envelope.Some? && envelope.value.messageType == MESSAGE_TYPE_AUTH
    }

    /** What the inspection of awareness frames denies. */
    function Inspected(limits: Limits): Option<Denial>
    {
      if limits.awareness.None? then None
      else
        var located := AwarenessFrames.GateInspect(limits.codec, limits.awareness.value, content);
        if located.Err? then Some(AwarenessDenied(located.error)) else None
    }
  }

  datatype Socket = Socket(
    closed: bool,
    bytesInWindow: nat,
    events: seq<Event>,
    lastObservedAt: int,
    pendingFrames: map<nat, nat>,
    queuedBytes: nat)

  function Opened(now: int): Socket
  {
    Socket(false, 0, [], now, map[], 0)
  }

  function Closed(s: Socket): Socket
  {
    s.(closed := true, pendingFrames := map[], queuedBytes := 0)
  }

  function Observed(limits: Limits, s: Socket, now: int): Socket
  {
    s.(lastObservedAt := now, events := Since(s.events, now - limits.windowMs),
       bytesInWindow := WeightSince(s.events, now - limits.windowMs))
  }

  function RateDenial(limits: Limits, count: nat, bytes: nat, frame: Frame): Option<Denial>
  {
    if count >= limits.maxMessagesPerWindow then Some(MessageRateExceeded)
    else if bytes + frame.Size() > limits.maxBytesPerWindow then Some(ByteRateExceeded)
    else None
  }

  function QueueDenial(limits: Limits, s: Socket, frame: Frame): Option<Denial>
  {
    if frame.IsAuth() then None
    else if |s.pendingFrames| >= limits.maxQueuedMessagesPerSocket then Some(QueueMessagesExceeded)
    else if s.queuedBytes + frame.Size() > limits.maxQueuedBytesPerSocket then Some(QueueBytesExceeded)
    else None
  }

  function Queued(s: Socket, frame: Frame): Socket
  {
    if frame.IsAuth() then s
    else s.(pendingFrames := s.pendingFrames[frame.id := frame.Size()], queuedBytes := s.queuedBytes + frame.Size())
  }

  function Recorded(s: Socket, frame: Frame, now: int): Socket
  {
    Queued(s, frame).(events := s.events + [Event(now, frame.Size())], bytesInWindow := s.bytesInWindow + frame.Size())
  }

  /** One frame on an open socket; a denial closes the socket. */
  function Admitted(limits: Limits, s: Socket, frame: Frame, now: int): (Socket, Option<Denial>)
  {
    if frame.Size() > limits.maxFrameBytes then (Closed(s), Some(FrameTooLarge))
    else if !ValidClock(now) || now < s.lastObservedAt then (Closed(s), Some(RawClockInvalid))
    else
      var o := Observed(limits, s, now);
      var rate, queue := RateDenial(limits, |o.events|, o.bytesInWindow, frame), QueueDenial(limits, o, frame);
      if rate.Some? then (Closed(o), rate)
      else if frame.Inspected(limits).Some? then (Closed(o), frame.Inspected(limits))
      else if queue.Some? then (Closed(o), queue)
      else
        (Recorded(o, frame, now), None)
  }

  function Completed(s: Socket, id: nat): Socket
  {
    if id !in s.pendingFrames then s
    else
      s.(pendingFrames := s.pendingFrames - {id},
         queuedBytes := if s.queuedBytes < s.pendingFrames[id] then 0 else s.queuedBytes - s.pendingFrames[id])
  }

  // ----- the whole history -----

  datatype Step = Frames(frame: Frame, now: int) | Completes(id: nat) | Closes

  /** The socket, and every frame it ever admitted. */
  datatype History = History(socket: Socket, log: seq<Event>)

  function Next(limits: Limits, h: History, step: Step): History
  {
    if h.socket.closed then h
    else
      match step
      case Frames(frame, now) =>
        var r := Admitted(limits, h.socket, frame, now);
        History(r.0, if r.1.None? then h.log + [Event(now, frame.Size())] else h.log)
      case Completes(id) => h.(socket := Completed(h.socket, id))
      case Closes => h.(socket := Closed(h.socket))
  }

  function Run(limits: Limits, start: int, steps: seq<Step>): History
  {
    if steps == [] then History(Opened(start), [])
    else Next(limits, Run(limits, start, steps[..|steps| - 1]), steps[|steps| - 1])
  }

  ghost predicate LogInv(limits: Limits, h: History)
  {
    && Sorted(h.log) && (!h.socket.closed ==> UpTo(h.log, h.socket.lastObservedAt))
    && Within(h.log, limits.windowMs, limits.maxMessagesPerWindow, limits.maxBytesPerWindow)
  }

  /** An open socket keeps what the whole history prunes to. */
  ghost predicate StandsFor(limits: Limits, h: History)
  {
    !h.socket.closed ==>
      && h.socket.events == Since(h.log, h.socket.lastObservedAt - limits.windowMs)
      && h.socket.bytesInWindow == WeightSince(h.log, h.socket.lastObservedAt - limits.windowMs)
  }

  predicate QueueInv(limits: Limits, s: Socket)
  {
    |s.pendingFrames| <= limits.maxQueuedMessagesPerSocket && s.queuedBytes <= limits.maxQueuedBytesPerSocket
  }

  lemma ObservedStands(limits: Limits, h: History, now: int, lo: int)
    requires !h.socket.closed && StandsFor(limits, h) && Sorted(h.log) && now >= h.socket.lastObservedAt
    requires lo == now - limits.windowMs
    ensures var o := Observed(limits, h.socket, now);
            && o.events == Since(h.log, lo) && |o.events| == CountSince(h.log, lo)
            && o.bytesInWindow == WeightSince(h.log, lo)
  {
    hide Since, CountSince, WeightSince, Sorted;
    PruneTwice(h.log, h.socket.lastObservedAt - limits.windowMs, lo);
    CountIsLength(h.log, lo);
  }

  /** The rate rule over everything the socket ever admitted. */
  function Verdict(limits: Limits, log: seq<Event>, frame: Frame, now: int): Option<Denial>
  {
    RateDenial(limits, CountSince(log, now - limits.windowMs), WeightSince(log, now - limits.windowMs), frame)
  }

  /** What an open socket makes of a frame, from everything it ever admitted. */
  function Decision(limits: Limits, h: History, frame: Frame, now: int): Option<Denial>
  {
    if frame.Size() > limits.maxFrameBytes then Some(FrameTooLarge)
    else if !ValidClock(now) || now < h.socket.lastObservedAt then Some(RawClockInvalid)
    else if Verdict(limits, h.log, frame, now).Some? then Verdict(limits, h.log, frame, now)
    else if frame.Inspected(limits).Some? then frame.Inspected(limits)
    else QueueDenial(limits, h.socket, frame)
  }

  lemma AdmittedRefines(limits: Limits, h: History, frame: Frame, now: int)
    requires limits.windowMs > 0 && !h.socket.closed && LogInv(limits, h) && StandsFor(limits, h)
    ensures Admitted(limits, h.socket, frame, now).1 == Decision(limits, h, frame, now)
  {
    hide Since, CountSince, WeightSince, Sorted, UpTo, Within, Frame.Inspected, Frame.IsAuth;
    if ValidClock(now) && now >= h.socket.lastObservedAt {
      ObservedStands(limits, h, now, now - limits.windowMs);
    }
  }

  /** Under equal limits the gate denies no frame for its awareness update that the
      strict inspector takes. */
  lemma StrictFramesPass(limits: Limits, strict: AwarenessFrames.StrictLimits, frame: Frame)
    requires limits.awareness.Some? && limits.awareness.value.maxStates >= 1
    requires limits.awareness.value.maxBytes == strict.maxAwarenessBytes && limits.awareness.value.maxDepth == strict.maxDepth
    requires AwarenessFrames.StrictInspect(limits.codec, strict, frame.content).Ok?
    ensures frame.Inspected(limits).None?
  {
    hide AwarenessFrames.StrictInspect, AwarenessFrames.GateInspect;
    AwarenessFrames.GateAgrees(limits.codec, strict, limits.awareness.value, frame.content);
  }

  lemma AdmittedKeeps(limits: Limits, h: History, frame: Frame, now: int, lo: int)
    requires limits.windowMs > 0 && !h.socket.closed && LogInv(limits, h) && StandsFor(limits, h)
    requires lo == now - limits.windowMs && Admitted(limits, h.socket, frame, now).1.None?
    ensures var t := History(Admitted(limits, h.socket, frame, now).0, h.log + [Event(now, frame.Size())]);
            LogInv(limits, t) && StandsFor(limits, t)
  {
    hide Since, CountSince, WeightSince, Sorted, UpTo, Within;
    ObservedStands(limits, h, now, lo);
    UpToLater(h.log, h.socket.lastObservedAt, now);
    AppendChecked(h.log, Event(now, frame.Size()), lo, limits.windowMs, limits.maxMessagesPerWindow,
                  limits.maxBytesPerWindow);
  }

  lemma NextInv(limits: Limits, h: History, step: Step)
    requires limits.windowMs > 0 && LogInv(limits, h) && StandsFor(limits, h) && QueueInv(limits, h.socket)
    ensures LogInv(limits, Next(limits, h, step)) && StandsFor(limits, Next(limits, h, step))
    ensures QueueInv(limits, Next(limits, h, step).socket)
  {
    hide Since, CountSince, WeightSince, Sorted, UpTo, Within;
    if !h.socket.closed && step.Frames? {
      AdmittedQueue(limits, h.socket, step.frame, step.now);
      if Admitted(limits, h.socket, step.frame, step.now).1.None? {
        AdmittedKeeps(limits, h, step.frame, step.now, step.now - limits.windowMs);
      }
      hide Admitted;
    }
  }

  lemma AdmittedQueue(limits: Limits, s: Socket, frame: Frame, now: int)
    requires QueueInv(limits, s)
    ensures QueueInv(limits, Admitted(limits, s, frame, now).0)
    ensures Admitted(limits, s, frame, now).1.Some? ==> Admitted(limits, s, frame, now).0.closed
  {
    hide Since, WeightSince;
    var p := s.pendingFrames;
    assert |p[frame.id := frame.Size()]| <= |p| + 1 by {
      assert p[frame.id := frame.Size()].Keys == p.Keys + {frame.id};
    }
  }

  lemma {:induction false} RunInv(limits: Limits, start: int, steps: seq<Step>)
    requires limits.windowMs > 0
    ensures var h := Run(limits, start, steps);
            LogInv(limits, h) && StandsFor(limits, h) && QueueInv(limits, h.socket)
  {
    if steps == [] {
    } else {
      RunInv(limits, start, steps[..|steps| - 1]);
      hide LogInv, StandsFor, QueueInv, Next;
      NextInv(limits, Run(limits, start, steps[..|steps| - 1]), steps[|steps| - 1]);
    }
  }

  /** An open socket decides by everything it ever admitted; no window and no queue ever
      holds more than its limits. */
  lemma WholeHistoryDecides(limits: Limits, start: int, steps: seq<Step>, frame: Frame, now: int)
    requires limits.windowMs > 0 && !Run(limits, start, steps).socket.closed
    ensures var h := Run(limits, start, steps);
            && Admitted(limits, h.socket, frame, now).1 == Decision(limits, h, frame, now)
            && Within(h.log, limits.windowMs, limits.maxMessagesPerWindow, limits.maxBytesPerWindow)
            && QueueInv(limits, h.socket)
  {
    hide Run, Since, CountSince, WeightSince, Sorted, UpTo, Within, Admitted, Decision, QueueInv;
    RunInv(limits, start, steps);
    AdmittedRefines(limits, Run(limits, start, steps), frame, now);
  }

  /** Once a frame was denied or the socket closed, nothing is admitted any more. */
  lemma {:induction false} ClosedForGood(limits: Limits, start: int, steps: seq<Step>, more: seq<Step>)
    requires Run(limits, start, steps).socket.closed
    ensures Run(limits, start, steps + more) == Run(limits, start, steps)
    decreases |more|
  {
    if more == [] {
      assert steps + more == steps;
    } else {
      var init := more[..|more| - 1];
      ClosedForGood(limits, start, steps, init);
      assert (steps + more)[..|steps + more| - 1] == steps + init;
    }
  }

  // ----- the object -----

  class SocketGate {
    const limits: Limits
    var closed: bool
    var bytesInWindow: nat
    var events: seq<Event>
    var lastObservedAt: int
    var pendingFrames: map<nat, nat>
    var queuedBytes: nat

    function State(): Socket
      reads this
    {
      Socket(closed, bytesInWindow, events, lastObservedAt, pendingFrames, queuedBytes)
    }

    predicate Valid()
      reads this
    {
      bytesInWindow == Sum(events, 0, |events|)
    }

    constructor (limits: Limits, now: int)
      ensures Valid() && State() == Opened(now) && this.limits == limits
    {
      this.limits := limits;
      closed, bytesInWindow, events, lastObservedAt, pendingFrames, queuedBytes := false, 0, [], now, map[], 0;
    }

    method ReleaseState()
      modifies this
      ensures State() == Closed(old(State()))
    {
      closed, pendingFrames, queuedBytes := true, map[], 0;
    }

    method Observe(now: int)
      requires Valid()
      modifies this
      ensures Valid() && State() == Observed(limits, old(State()), now)
    {
      lastObservedAt := now;
      events, bytesInWindow := Prune(events, bytesInWindow, now - limits.windowMs);
      SumTwice(old(events), First(old(events), now - limits.windowMs, 0), 0);
    }

    method Inspect(frame: Frame) returns (denial: Option<Denial>)
      ensures denial == frame.Inspected(limits)
    {
      if limits.awareness.None? {
        return None;
      }
      var located := FrameDecoders.InspectRawAwarenessFrame(limits.codec, limits.awareness.value, frame.content);
      return if located.Err? then Some(AwarenessDenied(located.error)) else None;
    }

    method IsAuthenticationFrame(frame: Frame) returns (auth: bool)
      ensures auth == frame.IsAuth()
    {
      var envelope := FrameDecoders.ReadFrameEnvelope(frame.content);
      return envelope.Some? && envelope.value.messageType == MESSAGE_TYPE_AUTH;
    }

    method Check(frame: Frame) returns (denial: Option<Denial>)
      ensures denial == if RateDenial(limits, |events|, bytesInWindow, frame).Some? then
                          RateDenial(limits, |events|, bytesInWindow, frame)
                        else if frame.Inspected(limits).Some? then frame.Inspected(limits) else QueueDenial(limits, State(), frame)
    {
      if |events| >= limits.maxMessagesPerWindow {
        return Some(MessageRateExceeded);
      }
      if bytesInWindow + frame.Size() > limits.maxBytesPerWindow {
        return Some(ByteRateExceeded);
      }
      denial := Inspect(frame);
      if denial.Some? {
        return;
      }
      var auth := IsAuthenticationFrame(frame);
      if !auth {
        if |pendingFrames| >= limits.maxQueuedMessagesPerSocket {
          return Some(QueueMessagesExceeded);
        }
        if queuedBytes + frame.Size() > limits.maxQueuedBytesPerSocket {
          return Some(QueueBytesExceeded);
        }
      }
      return None;
    }

    /** `admitFrame` on an open socket. */
    method AdmitFrame(frame: Frame, now: int) returns (denial: Option<Denial>)
      requires Valid() && !closed
      modifies this
      ensures (State(), denial) == Admitted(limits, old(State()), frame, now)
      ensures !closed ==> Valid()
    {
      if frame.Size() > limits.maxFrameBytes {
        ReleaseState();
        return Some(FrameTooLarge);
      }
      if !ValidClock(now) || now < lastObservedAt {
        ReleaseState();
        return Some(RawClockInvalid);
      }
      Observe(now);
      hide Since, WeightSince, Sum, Recorded;
      denial := Check(frame);
      if denial.Some? {
        ReleaseState();
        return;
      }
      Record(frame, now);
    }

    method Record(frame: Frame, now: int)
      requires Valid()
      modifies this
      ensures Valid() && State() == Recorded(old(State()), frame, now)
    {
      SumAppend(events, Event(now, frame.Size()));
      hide Sum;
      var auth := IsAuthenticationFrame(frame);
      if !auth {
        pendingFrames, queuedBytes := pendingFrames[frame.id := frame.Size()], queuedBytes + frame.Size();
      }
      events, bytesInWindow := events + [Event(now, frame.Size())], bytesInWindow + frame.Size();
    }

    method CompleteProcessing(id: nat)
      requires Valid()
      modifies this
      ensures Valid() && State() == Completed(old(State()), id)
    {
      if id !in pendingFrames {
        return;
      }
      var byteLength := pendingFrames[id];
      pendingFrames := pendingFrames - {id};
      queuedBytes := if queuedBytes < byteLength then 0 else queuedBytes - byteLength;
    }
  }

  lemma SumAppend(es: seq<Event>, e: Event)
    ensures Sum(es + [e], 0, |es| + 1) == Sum(es, 0, |es|) + e.weight
  {
    SumOfPrefix(es, e, 0, |es|);
  }
}
