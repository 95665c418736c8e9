/** The decoders as they run: a cursor that moves over the bytes, and index loops. */
module FrameDecoders {
  import opened Wrappers
  import opened Varuint
  import opened JsonDepth
  import opened AwarenessFrames

  class ByteCursor {
    const bytes: seq<Byte>
    const end: nat
    var offset: nat

    predicate Valid()
      reads this
    {
      offset <= end == |bytes|
    }

    function Rest(): seq<Byte>
      requires Valid()
      reads this
    {
      bytes[offset..]
    }

    constructor (bytes: seq<Byte>)
      ensures Valid() && Rest() == bytes
    {
      this.bytes, end, offset := bytes, |bytes|, 0;
    }

    function Remaining(): nat
      requires Valid()
      reads this
    {
      end - offset
    }

    /** Moves past the number on success; after an error the cursor is not used. */
    method ReadVarUint() returns (r: Result<nat, ReadError>)
      requires Valid()
      modifies this`offset
      ensures Valid()
      ensures match Strict(old(Rest()))
              case Err(e) => r == Err(e)
              case Ok(read) => r == Ok(read.value) && read.length <= |old(Rest())| && Rest() == old(Rest())[read.length..]
    {
      ghost var start := offset;
      var value: nat, multiplier: nat, byteCount: nat := 0, 1, 0;
      while offset < end && byteCount < MAX_BYTES
        invariant Valid() && offset == start + byteCount && multiplier == Pow128(byteCount)
        invariant StrictFrom(bytes[offset..], value, byteCount) == Strict(bytes[start..])
        decreases end - offset
      {
        var byte := bytes[offset];
        assert bytes[offset..][0] == byte && bytes[offset..][1..] == bytes[offset + 1..];
        PowerStep(byteCount);
        offset := offset + 1;
        byteCount := byteCount + 1;
        var chunk := byte % 128;
        var contribution := chunk * multiplier;
        if contribution + value > MAX_SAFE {
          return Err(UnsafeVaruint);
        }
        value := value + contribution;
        if byte < 128 {
          if byteCount > 1 && chunk == 0 {
            return Err(NonCanonicalVaruint);
          }
          MovedOn(bytes, start, byteCount);
          return Ok(value);
        }
        multiplier := 128 * multiplier;
        if multiplier > MAX_SAFE {
          return Err(UnsafeVaruint);
        }
      }
      return Err(TruncatedVaruint);
    }

    method ReadLengthDelimited(maxBytes: nat) returns (r: Result<seq<Byte>, CursorError>)
      requires Valid()
      modifies this`offset
      ensures Valid()
      ensures match StrictDelimited(old(Rest()), maxBytes)
              case Err(e) => r == Err(e)
              case Ok(d) => r == Ok(d.content) && Rest() == old(Rest())[d.length..]
    {
      ghost var rest := Rest();
      var length := ReadVarUint();
      if length.Err? {
        return Err(BadBytes);
      }
      if length.value > maxBytes {
        return Err(Oversize);
      }
      var next := offset + length.value;
      if next > end {
        return Err(BadBytes);
      }
      var value := bytes[offset..next];
      assert value == Rest()[..length.value];
      MovedOn(bytes, offset, length.value);
      DropTake(rest, |rest| - |Rest()|, length.value);
      offset := next;
      return Ok(value);
    }

    function Done(): (done: bool)
      requires Valid()
      reads this
      ensures done <==> Rest() == []
    {
      offset == end
    }
  }

  /** Where a cursor stands after two moves. */
  lemma MovedOn(bytes: seq<Byte>, i: nat, n: nat)
    requires i + n <= |bytes|
    ensures bytes[i..][n..] == bytes[i + n..]
  {
  }

  lemma DropTake(bytes: seq<Byte>, i: nat, n: nat)
    requires i + n <= |bytes|
    ensures bytes[i..][..n] == bytes[i..i + n] && bytes[i..][n..] == bytes[i + n..]
  {
  }

  method InspectAwarenessUpdate(codec: Codec, update: seq<Byte>, maxDepth: nat) returns (r: Result<Inspection, StrictError>)
    ensures r == StrictUpdate(codec, update, maxDepth)
  {
    hide Strict, StrictState;
    var cursor := new ByteCursor(update);
    var stateCount := cursor.ReadVarUint();
    if stateCount.Err? {
      return Err(RawAwarenessMalformed);
    }
    if stateCount.value != 1 {
      return Err(RawAwarenessStateCountInvalid);
    }
    var clientId := cursor.ReadVarUint();
    if clientId.Err? {
      return Err(RawAwarenessMalformed);
    }
    if clientId.value > MAX_YJS_CLIENT_ID {
      return Err(RawAwarenessStateInvalid);
    }
    var clock := cursor.ReadVarUint();
    if clock.Err? {
      return Err(RawAwarenessMalformed);
    }
    r := InspectState(codec, update, clientId.value, cursor, maxDepth);
  }

  method InspectState(codec: Codec, update: seq<Byte>, clientId: nat, cursor: ByteCursor, maxDepth: nat)
    returns (r: Result<Inspection, StrictError>)
    requires cursor.Valid()
    modifies cursor`offset
    ensures r == StrictState(codec, update, clientId, old(cursor.Rest()), maxDepth)
  {
    hide Strict, StrictDelimited;
    var stateBytes := cursor.ReadLengthDelimited(cursor.Remaining());
    if stateBytes.Err? || !cursor.Done() {
      return Err(RawAwarenessMalformed);
    }
    var state := codec.parse(stateBytes.value);
    if state.None? {
      return Err(RawAwarenessStateInvalid);
    }
    if state.value == Null {
      return Ok(Awareness(0, update, clientId, stateBytes.value, Null));
    }
    if !state.value.ObjectOf? {
      return Err(RawAwarenessStateInvalid);
    }
    var depth := RunWalk([state.value], maxDepth, Max(1, |update|));
    if depth.Err? {
      return Err(if depth.error == TooDeep then RawAwarenessDepthExceeded else RawAwarenessStateInvalid);
    }
    return Ok(Awareness(depth.value, update, clientId, stateBytes.value, state.value));
  }

  method InspectRawHocuspocusAwareness(codec: Codec, limits: StrictLimits, frame: seq<Byte>)
    returns (r: Result<Inspection, StrictError>)
    ensures r == StrictInspect(codec, limits, frame)
  {
    hide Strict, StrictDelimited, StrictUpdate;
    if |frame| > limits.maxFrameBytes {
      return Err(RawFrameTooLarge);
    }
    var envelope := new ByteCursor(frame);
    var address := envelope.ReadLengthDelimited(limits.maxAddressBytes);
    if address.Err? {
      return Err(if address.error == Oversize then RawAddressTooLarge else RawEnvelopeMalformed);
    }
    if !codec.validText(address.value) {
      return Err(RawEnvelopeMalformed);
    }
    var messageType := envelope.ReadVarUint();
    if messageType.Err? {
      return Err(RawEnvelopeMalformed);
    }
    if messageType.value != MESSAGE_TYPE_AWARENESS {
      return Ok(NonAwareness(messageType.value));
    }
    var update := envelope.ReadLengthDelimited(limits.maxAwarenessBytes);
    if update.Err? {
      return Err(if update.error == Oversize then RawAwarenessTooLarge else RawAwarenessMalformed);
    }
    if !envelope.Done() {
      return Err(RawAwarenessMalformed);
    }
    r := InspectAwarenessUpdate(codec, update.value, limits.maxDepth);
  }

  // ----- the gate -----

  method ReadVarUint(bytes: seq<Byte>, start: nat) returns (r: Option<ReadTo>)
    requires start <= |bytes|
    ensures r == ReadAt(bytes, start)
  {
    var value: nat, shift: nat, index := 0, 0, start;
    ghost var count := 0;
    while index < |bytes| && shift <= 49
      invariant start <= index <= |bytes| && index == start + count && shift == 7 * count
      invariant LenientFrom(bytes[index..], value, count) == Lenient(bytes[start..])
      decreases |bytes| - index
    {
      var byte := bytes[index];
      assert bytes[index..][0] == byte && bytes[index..][1..] == bytes[index + 1..];
      value := value + byte % 128 * Pow128(shift / 7);
      if value > MAX_SAFE {
        return None;
      }
      if byte < 128 {
        return Some(ReadTo(value, index + 1));
      }
      shift, index := shift + 7, index + 1;
      count := count + 1;
    }
    return None;
  }

  method DecodeState(codec: Codec, frame: seq<Byte>, payloadEnd: nat, g: GateStates) returns (r: Result<GateStates, Denial>)
    requires g.offset <= payloadEnd <= |frame|
    ensures r == GateState(codec, frame, payloadEnd, g)
    ensures r.Ok? ==> r.value.offset <= payloadEnd
  {
    hide Lenient, ReadAt;
    var clientId := ReadVarUint(frame, g.offset);
    if clientId.None? {
      return Err(AwarenessMalformed);
    }
    if clientId.value.value in g.ids {
      return Err(AwarenessDuplicateClient);
    }
    var clock := ReadVarUint(frame, clientId.value.next);
    if clock.None? {
      return Err(AwarenessMalformed);
    }
    var stateLength := ReadVarUint(frame, clock.value.next);
    if stateLength.None? {
      return Err(AwarenessMalformed);
    }
    var offset := stateLength.value.next;
    var stateEnd := offset + stateLength.value.value;
    if stateEnd > payloadEnd || stateEnd < offset {
      return Err(AwarenessMalformed);
    }
    var state := codec.parse(frame[offset..stateEnd]);
    if state.None? {
      return Err(AwarenessMalformed);
    }
    return Ok(GateStates(stateEnd, g.ids + {clientId.value.value},
                         if state.value == Null then g.states else g.states + [state.value],
                         g.raw + [frame[offset..stateEnd]]));
  }

  method DecodeStates(codec: Codec, frame: seq<Byte>, start: nat, count: nat) returns (r: Result<GateStates, Denial>)
    requires start <= |frame|
    ensures r == GateLoop(codec, frame, |frame|, GateStates(start, {}, [], []), count)
  {
    hide GateState;
    var g, index := GateStates(start, {}, [], []), 0;
    while index < count
      invariant index <= count && g.offset <= |frame|
      invariant GateLoop(codec, frame, |frame|, g, count - index)
             == GateLoop(codec, frame, |frame|, GateStates(start, {}, [], []), count)
    {
      r := DecodeState(codec, frame, |frame|, g);
      if r.Err? {
        return;
      }
      g, index := r.value, index + 1;
    }
    return Ok(g);
  }

  method ValidateAwarenessEnvelope(limits: GateLimits, byteLength: nat, states: seq<State>) returns (denial: Option<Denial>)
    ensures denial == StatesDenial(limits, byteLength, states)
  {
    if byteLength > limits.maxBytes {
      return Some(AwarenessBytesExceeded);
    }
    if |states| > limits.maxStates {
      return Some(AwarenessStateCountExceeded);
    }
    var depth := RunWalk(states, limits.maxDepth, Max(1, limits.maxBytes));
    if depth.Ok? {
      return None;
    }
    return Some(if depth.error == TooDeep then AwarenessDepthExceeded else AwarenessMalformed);
  }

  method InspectPayload(codec: Codec, limits: GateLimits, frame: seq<Byte>, payloadStart: nat, length: nat)
    returns (r: Result<Located, Denial>)
    requires payloadStart <= |frame|
    ensures r == GatePayload(codec, limits, frame, payloadStart, length)
  {
    hide ReadAt, GateState, GateLoop;
    if payloadStart + length != |frame| || length > limits.maxBytes {
      return Err(if length > limits.maxBytes then AwarenessBytesExceeded else AwarenessMalformed);
    }
    var stateCount := ReadVarUint(frame, payloadStart);
    if stateCount.None? {
      return Err(AwarenessMalformed);
    }
    if stateCount.value.value > limits.maxStates {
      return Err(AwarenessStateCountExceeded);
    }
    var g := DecodeStates(codec, frame, stateCount.value.next, stateCount.value.value);
    if g.Err? {
      return Err(g.error);
    }
    if g.value.offset != |frame| {
      return Err(AwarenessMalformed);
    }
    var denial := ValidateAwarenessEnvelope(limits, length, g.value.states);
    if denial.Some? {
      return Err(denial.value);
    }
    return Ok(Located(frame[payloadStart..], g.value.raw));
  }

  method ReadFrameEnvelope(frame: seq<Byte>) returns (r: Option<Envelope>)
    ensures r == ReadEnvelope(frame)
  {
    hide ReadAt;
    var addressLength := ReadVarUint(frame, 0);
    if addressLength.None? {
      return None;
    }
    var typeOffset := addressLength.value.next + addressLength.value.value;
    if typeOffset > |frame| {
      return None;
    }
    var messageType := ReadVarUint(frame, typeOffset);
    if messageType.None? {
      return None;
    }
    return Some(Envelope(messageType.value.value, messageType.value.next));
  }

  /** The denial of a frame, or what the gate found in it. */
  method InspectRawAwarenessFrame(codec: Codec, limits: GateLimits, frame: seq<Byte>)
    returns (r: Result<Option<Located>, Denial>)
    ensures r == GateInspect(codec, limits, frame)
  {
    var envelope := ReadFrameEnvelope(frame);
    if envelope.None? || envelope.value.messageType != MESSAGE_TYPE_AWARENESS {
      return Ok(None);
    }
    EnvelopeInFrame(frame);
    hide ReadAt, GatePayload, ReadEnvelope;
    var payloadLength := ReadVarUint(frame, envelope.value.payloadOffset);
    if payloadLength.None? {
      return Err(AwarenessMalformed);
    }
    var located := InspectPayload(codec, limits, frame, payloadLength.value.next, payloadLength.value.value);
    if located.Err? {
      return Err(located.error);
    }
    return Ok(Some(located.value));
  }

  lemma EnvelopeInFrame(frame: seq<Byte>)
    ensures ReadEnvelope(frame).Some? ==> ReadEnvelope(frame).value.payloadOffset <= |frame|
  {
  }
}
