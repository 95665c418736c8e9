/** Two decoders of the same raw frames: the strict inspector and the gate's check. */
module AwarenessFrames {
  import opened Wrappers
  import opened Varuint
  import opened JsonDepth

  const MESSAGE_TYPE_AWARENESS: nat := 1
  const MAX_YJS_CLIENT_ID: nat := 0xffff_ffff

  /** UTF-8 validity, and `JSON.parse` of decoded bytes, where `None` is an exception. */
  datatype Codec = Codec(validText: seq<Byte> -> bool, parse: seq<Byte> -> Option<State>)

  // ----- the strict inspector -----

  datatype StrictLimits = StrictLimits(maxAddressBytes: nat, maxAwarenessBytes: nat, maxDepth: nat, maxFrameBytes: nat)

  datatype StrictError =
    | RawAddressTooLarge
    | RawAwarenessDepthExceeded
    | RawAwarenessMalformed
    | RawAwarenessStateCountInvalid
    | RawAwarenessStateInvalid
    | RawAwarenessTooLarge
    | RawEnvelopeMalformed
    | RawFrameTooLarge

  /** `payload` and `state` are the bytes that the inspector located. */
  datatype Inspection =
    | NonAwareness(messageType: nat)
    | Awareness(maxDepth: nat, payload: seq<Byte>, clientId: nat, state: seq<Byte>, decoded: State)

  datatype CursorError = Oversize | BadBytes

  datatype Delimited = Delimited(content: seq<Byte>, length: nat)

  /** A length and that many bytes; `length` counts both. */
  function StrictDelimited(rest: seq<Byte>, maxBytes: nat): (r: Result<Delimited, CursorError>)
    ensures r.Ok? ==> r.value.length <= |rest|
  {
    var read := Strict(rest);
    if read.Err? then Err(BadBytes)
    else
      StrictAcceptsOnlyEncodings(rest);
      var start := read.value.length;
      if read.value.value > maxBytes then Err(Oversize)
      else if start + read.value.value > |rest| then Err(BadBytes)
      else Ok(Delimited(rest[start..start + read.value.value], start + read.value.value))
  }

  function CheckState(state: State, maxDepth: nat, byteLimit: nat): Result<nat, StrictError>
  {
    if state == Null then Ok(0)
    else if !state.ObjectOf? then Err(RawAwarenessStateInvalid)
    else
      var walk := Walk(Items(0, [state]), 0, 0, maxDepth, Max(1, byteLimit));
      if walk.Ok? then Ok(walk.value)
      else if walk.error == TooDeep then Err(RawAwarenessDepthExceeded) else Err(RawAwarenessStateInvalid)
  }

  /** After the state count: client, clock and the one state. */
  function StrictUpdate(codec: Codec, update: seq<Byte>, maxDepth: nat): Result<Inspection, StrictError>
  {
    var count := Strict(update);
    if count.Err? then Err(RawAwarenessMalformed)
    else if count.value.value != 1 then Err(RawAwarenessStateCountInvalid)
    else
      StrictAcceptsOnlyEncodings(update);
      var rest1 := update[count.value.length..];
      var client := Strict(rest1);
      if client.Err? then Err(RawAwarenessMalformed)
      else if client.value.value > MAX_YJS_CLIENT_ID then Err(RawAwarenessStateInvalid)
      else
        StrictAcceptsOnlyEncodings(rest1);
        var rest2 := rest1[client.value.length..];
        var clock := Strict(rest2);
        if clock.Err? then Err(RawAwarenessMalformed)
        else
          StrictAcceptsOnlyEncodings(rest2);
          StrictState(codec, update, client.value.value, rest2[clock.value.length..], maxDepth)
  }

  function StrictState(codec: Codec, update: seq<Byte>, clientId: nat, rest: seq<Byte>, maxDepth: nat)
    : Result<Inspection, StrictError>
  {
    var state := StrictDelimited(rest, |rest|);
    if state.Err? || state.value.length != |rest| then Err(RawAwarenessMalformed)
    else
      var decoded := codec.parse(state.value.content);
      if decoded.None? then Err(RawAwarenessStateInvalid)
      else
        var depth := CheckState(decoded.value, maxDepth, |update|);
        if depth.Err? then Err(depth.error)
        else Ok(Awareness(depth.value, update, clientId, state.value.content, decoded.value))
  }

  function StrictInspect(codec: Codec, limits: StrictLimits, frame: seq<Byte>): Result<Inspection, StrictError>
  {
    if |frame| > limits.maxFrameBytes then Err(RawFrameTooLarge)
    else
      var address := StrictDelimited(frame, limits.maxAddressBytes);
      if address.Err? then Err(if address.error == Oversize then RawAddressTooLarge else RawEnvelopeMalformed)
      else if !codec.validText(address.value.content) then Err(RawEnvelopeMalformed)
      else
        var rest1 := frame[address.value.length..];
        var messageType := Strict(rest1);
        if messageType.Err? then Err(RawEnvelopeMalformed)
        else if messageType.value.value != MESSAGE_TYPE_AWARENESS then Ok(NonAwareness(messageType.value.value))
        else
          StrictAcceptsOnlyEncodings(rest1);
          var rest2 := rest1[messageType.value.length..];
          var update := StrictDelimited(rest2, limits.maxAwarenessBytes);
          if update.Err? then Err(if update.error == Oversize then RawAwarenessTooLarge else RawAwarenessMalformed)
          else if update.value.length != |rest2| then Err(RawAwarenessMalformed)
          else StrictUpdate(codec, update.value.content, limits.maxDepth)
  }

  // ----- the gate's check -----

  datatype GateLimits = GateLimits(maxBytes: nat, maxDepth: nat, maxStates: nat)

  datatype Denial =
    | AwarenessBytesExceeded
    | AwarenessDepthExceeded
    | AwarenessDuplicateClient
    | AwarenessMalformed
    | AwarenessStateCountExceeded

  datatype ReadTo = ReadTo(value: nat, next: nat)

  function ReadAt(frame: seq<Byte>, start: nat): (r: Option<ReadTo>)
    ensures r.Some? ==> start < r.value.next <= |frame|
  {
    if start > |frame| then None
    else
      var read := Lenient(frame[start..]);
      if read.None? then None
      else
        LenientStandsForFrom(frame[start..], 0, 0);
        Some(ReadTo(read.value.value, start + read.value.length))
  }

  datatype Envelope = Envelope(messageType: nat, payloadOffset: nat)

  function ReadEnvelope(frame: seq<Byte>): Option<Envelope>
  {
    var address := ReadAt(frame, 0);
    if address.None? then None
    else
      var typeOffset := address.value.next + address.value.value;
      if typeOffset > |frame| then None
      else
        var messageType := ReadAt(frame, typeOffset);
        if messageType.None? then None else Some(Envelope(messageType.value.value, messageType.value.next))
  }

  datatype GateStates = GateStates(offset: nat, ids: set<nat>, states: seq<State>, raw: seq<seq<Byte>>)

  /** One turn of the state loop. */
  function GateState(codec: Codec, frame: seq<Byte>, payloadEnd: nat, g: GateStates): Result<GateStates, Denial>
    requires payloadEnd <= |frame|
  {
    var client := ReadAt(frame, g.offset);
    if client.None? then Err(AwarenessMalformed)
    else if client.value.value in g.ids then Err(AwarenessDuplicateClient)
    else
      var clock := ReadAt(frame, client.value.next);
      if clock.None? then Err(AwarenessMalformed)
      else
        var length := ReadAt(frame, clock.value.next);
        if length.None? then Err(AwarenessMalformed)
        else
          var start, end := length.value.next, length.value.next + length.value.value;
          if end > payloadEnd then Err(AwarenessMalformed)
          else
            var state := codec.parse(frame[start..end]);
            if state.None? then Err(AwarenessMalformed)
            else Ok(GateStates(end, g.ids + {client.value.value},
                               if state.value == Null then g.states else g.states + [state.value],
                               g.raw + [frame[start..end]]))
  }

  function GateLoop(codec: Codec, frame: seq<Byte>, payloadEnd: nat, g: GateStates, left: nat): Result<GateStates, Denial>
    requires payloadEnd <= |frame|
    decreases left
  {
    if left == 0 then Ok(g)
    else
      var next := GateState(codec, frame, payloadEnd, g);
      if next.Err? then next else GateLoop(codec, frame, payloadEnd, next.value, left - 1)
  }

  /** `validateAwarenessEnvelope` on the decoded states. */
  function StatesDenial(limits: GateLimits, byteLength: nat, states: seq<State>): Option<Denial>
  {
    if byteLength > limits.maxBytes then Some(AwarenessBytesExceeded)
    else if |states| > limits.maxStates then Some(AwarenessStateCountExceeded)
    else
      var walk := Walk(Items(0, states), 0, 0, limits.maxDepth, Max(1, limits.maxBytes));
      if walk.Ok? then None
      else if walk.error == TooDeep then Some(AwarenessDepthExceeded) else Some(AwarenessMalformed)
  }

  /** What the gate located in an awareness frame that it lets pass. */
  datatype Located = Located(payload: seq<Byte>, raw: seq<seq<Byte>>)

  function GatePayload(codec: Codec, limits: GateLimits, frame: seq<Byte>, start: nat, length: nat): Result<Located, Denial>
    requires start <= |frame|
  {
    if start + length != |frame| || length > limits.maxBytes then
      Err(if length > limits.maxBytes then AwarenessBytesExceeded else AwarenessMalformed)
    else
      var count := ReadAt(frame, start);
      if count.None? then Err(AwarenessMalformed)
      else if count.value.value > limits.maxStates then Err(AwarenessStateCountExceeded)
      else
        var g := GateLoop(codec, frame, |frame|, GateStates(count.value.next, {}, [], []), count.value.value);
        if g.Err? then Err(g.error)
        else if g.value.offset != |frame| then Err(AwarenessMalformed)
        else
          var denial := StatesDenial(limits, length, g.value.states);
          if denial.Some? then Err(denial.value) else Ok(Located(frame[start..], g.value.raw))
  }

  /** Frames of other types pass unread. */
  function GateInspect(codec: Codec, limits: GateLimits, frame: seq<Byte>): Result<Option<Located>, Denial>
  {
    var envelope := ReadEnvelope(frame);
    if envelope.None? || envelope.value.messageType != MESSAGE_TYPE_AWARENESS then Ok(None)
    else
      var length := ReadAt(frame, envelope.value.payloadOffset);
      if length.None? then Err(AwarenessMalformed)
      else
        var located := GatePayload(codec, limits, frame, length.value.next, length.value.value);
        if located.Err? then Err(located.error) else Ok(Some(located.value))
  }

  // ----- agreement -----

  lemma DropDrop(s: seq<Byte>, i: nat, j: nat)
    requires i + j <= |s|
    ensures s[i..][j..] == s[i + j..]
  {
  }

  /** What the strict reader reads at an offset, the lenient one reads there too. */
  lemma ReadsAlike(frame: seq<Byte>, start: nat)
    requires start <= |frame| && Strict(frame[start..]).Ok?
    ensures var read := Strict(frame[start..]).value;
            start + read.length <= |frame| && ReadAt(frame, start) == Some(ReadTo(read.value, start + read.length))
  {
    LenientAgrees(frame[start..]);
    StrictAcceptsOnlyEncodings(frame[start..]);
  }

  /** A delimited field at an offset, seen by both. */
  lemma DelimitedAlike(frame: seq<Byte>, start: nat, maxBytes: nat)
    requires start <= |frame| && StrictDelimited(frame[start..], maxBytes).Ok?
    ensures var d := StrictDelimited(frame[start..], maxBytes).value;
            var read := ReadAt(frame, start);
            && read.Some? && read.value.next + read.value.value == start + d.length <= |frame|
            && frame[read.value.next..start + d.length] == d.content && |d.content| == read.value.value <= maxBytes
  {
    ReadsAlike(frame, start);
    var read, rest := Strict(frame[start..]).value, frame[start..];
    StrictAcceptsOnlyEncodings(rest);
    assert rest[read.length..read.length + read.value] == frame[start + read.length..start + read.length + read.value];
  }

  /** Count, client and clock of a strict update, at the gate's offsets. */
  lemma HeaderAlike(codec: Codec, frame: seq<Byte>, start: nat, maxDepth: nat)
    requires start <= |frame| && StrictUpdate(codec, frame[start..], maxDepth).Ok?
    ensures var count := ReadAt(frame, start);
            && count.Some? && count.value.value == 1
            && var client := ReadAt(frame, count.value.next);
               && client.Some?
               && var clock := ReadAt(frame, client.value.next);
                  && clock.Some?
                  && StrictUpdate(codec, frame[start..], maxDepth)
                     == StrictState(codec, frame[start..], client.value.value, frame[clock.value.next..], maxDepth)
  {
    hide StrictState, ReadAt;
    var update := frame[start..];
    var l1 := Strict(update).value.length;
    ReadsAlike(frame, start);
    DropDrop(frame, start, l1);
    var l2 := Strict(frame[start + l1..]).value.length;
    ReadsAlike(frame, start + l1);
    DropDrop(frame, start + l1, l2);
    var l3 := Strict(frame[start + l1 + l2..]).value.length;
    ReadsAlike(frame, start + l1 + l2);
    DropDrop(frame, start + l1 + l2, l3);
    hide Strict;
  }

  lemma LastField(codec: Codec, update: seq<Byte>, clientId: nat, frame: seq<Byte>, at: nat, maxDepth: nat)
    requires at <= |frame| && StrictState(codec, update, clientId, frame[at..], maxDepth).Ok?
    ensures var i := StrictState(codec, update, clientId, frame[at..], maxDepth).value;
            var length := ReadAt(frame, at);
            && i.Awareness? && i.payload == update && i.clientId == clientId
            && length.Some? && length.value.next + length.value.value == |frame|
            && i.state == frame[length.value.next..|frame|] && codec.parse(i.state) == Some(i.decoded)
            && CheckState(i.decoded, maxDepth, |update|).Ok?
  {
    hide Strict, ReadAt, StrictDelimited, CheckState;
    DelimitedAlike(frame, at, |frame[at..]|);
  }

  /** A turn of the gate's loop that starts with nothing and ends with the frame. */
  lemma OnlyTurn(codec: Codec, frame: seq<Byte>, offset: nat, client: ReadTo, clock: ReadTo, length: ReadTo, state: State)
    requires ReadAt(frame, offset) == Some(client) && ReadAt(frame, client.next) == Some(clock)
    requires ReadAt(frame, clock.next) == Some(length) && length.next + length.value == |frame|
    requires codec.parse(frame[length.next..|frame|]) == Some(state)
    ensures GateState(codec, frame, |frame|, GateStates(offset, {}, [], []))
            == Ok(GateStates(|frame|, {client.value}, if state == Null then [] else [state],
                             [frame[length.next..|frame|]]))
  {
    hide ReadAt;
    assert {} + {client.value} == {client.value};
    assert [] + [state] == [state];
    assert [] + [frame[length.next..|frame|]] == [frame[length.next..|frame|]];
  }

  /** The one state of a strict update, as the gate's loop reads it. */
  lemma StateAlike(codec: Codec, frame: seq<Byte>, start: nat, maxDepth: nat)
    requires start <= |frame| && StrictUpdate(codec, frame[start..], maxDepth).Ok?
    ensures var i := StrictUpdate(codec, frame[start..], maxDepth).value;
            && i.Awareness? && i.payload == frame[start..]
            && ReadAt(frame, start).Some? && ReadAt(frame, start).value.value == 1
            && GateState(codec, frame, |frame|, GateStates(ReadAt(frame, start).value.next, {}, [], []))
               == Ok(GateStates(|frame|, {i.clientId}, if i.decoded == Null then [] else [i.decoded], [i.state]))
            && CheckState(i.decoded, maxDepth, |frame| - start).Ok?
  {
    hide ReadAt, CheckState, StrictUpdate, StrictState, GateState;
    HeaderAlike(codec, frame, start, maxDepth);
    var offset := ReadAt(frame, start).value.next;
    var client := ReadAt(frame, offset).value;
    var clock := ReadAt(frame, client.next).value;
    LastField(codec, frame[start..], client.value, frame, clock.next, maxDepth);
    var i := StrictUpdate(codec, frame[start..], maxDepth).value;
    OnlyTurn(codec, frame, offset, client, clock, ReadAt(frame, clock.next).value, i.decoded);
  }

  lemma OneTurn(codec: Codec, frame: seq<Byte>, g: GateStates)
    ensures GateLoop(codec, frame, |frame|, g, 1) == GateState(codec, frame, |frame|, g)
  {
    var next := GateState(codec, frame, |frame|, g);
    if next.Ok? {
      assert GateLoop(codec, frame, |frame|, next.value, 0) == Ok(next.value);
    }
  }

  lemma StatesPass(limits: GateLimits, state: State, maxDepth: nat, byteLength: nat)
    requires CheckState(state, maxDepth, byteLength).Ok?
    requires byteLength <= limits.maxBytes && maxDepth == limits.maxDepth && limits.maxStates >= 1
    ensures StatesDenial(limits, byteLength, if state == Null then [] else [state]).None?
  {
    if state == Null {
      assert Items(0, []) == [];
    } else {
      OneStateIff(state, maxDepth, Max(1, byteLength));
      OneStateIff(state, maxDepth, Max(1, limits.maxBytes));
    }
  }

  lemma PayloadAlike(codec: Codec, limits: GateLimits, frame: seq<Byte>, start: nat, maxDepth: nat)
    requires start <= |frame| && StrictUpdate(codec, frame[start..], maxDepth).Ok?
    requires |frame| - start <= limits.maxBytes && maxDepth == limits.maxDepth && limits.maxStates >= 1
    ensures var i := StrictUpdate(codec, frame[start..], maxDepth).value;
            i.Awareness? && GatePayload(codec, limits, frame, start, |frame| - start) == Ok(Located(i.payload, [i.state]))
  {
    hide StrictUpdate, ReadAt, CheckState, GateState;
    StateAlike(codec, frame, start, maxDepth);
    OneTurn(codec, frame, GateStates(ReadAt(frame, start).value.next, {}, [], []));
    var i := StrictUpdate(codec, frame[start..], maxDepth).value;
    StatesPass(limits, i.decoded, maxDepth, |frame| - start);
    hide GateLoop, StatesDenial;
    assert GateLoop(codec, frame, |frame|, GateStates(ReadAt(frame, start).value.next, {}, [], []), 1).value.offset == |frame|;
  }

  /** Under equal byte and depth limits, every frame that the strict inspector takes
      passes the gate, and in an awareness frame both find the same bytes. */
  lemma GateAgrees(codec: Codec, strict: StrictLimits, gate: GateLimits, frame: seq<Byte>)
    requires gate.maxBytes == strict.maxAwarenessBytes && gate.maxDepth == strict.maxDepth && gate.maxStates >= 1
    requires StrictInspect(codec, strict, frame).Ok?
    ensures var i := StrictInspect(codec, strict, frame).value;
            GateInspect(codec, gate, frame) ==
            Ok(if i.NonAwareness? then None else Some(Located(i.payload, [i.state])))
  {
    hide Strict, ReadAt, StrictDelimited, StrictUpdate, GatePayload;
    assert frame[0..] == frame;
    DelimitedAlike(frame, 0, strict.maxAddressBytes);
    var at1 := StrictDelimited(frame, strict.maxAddressBytes).value.length;
    ReadsAlike(frame, at1);
    var messageType := Strict(frame[at1..]).value;
    var at2 := at1 + messageType.length;
    DropDrop(frame, at1, messageType.length);
    assert ReadEnvelope(frame) == Some(Envelope(messageType.value, at2));
    if messageType.value == MESSAGE_TYPE_AWARENESS {
      DelimitedAlike(frame, at2, strict.maxAwarenessBytes);
      var at3 := ReadAt(frame, at2).value.next;
      assert frame[at3..|frame|] == frame[at3..];
      PayloadAlike(codec, gate, frame, at3, strict.maxDepth);
    }
  }
}
