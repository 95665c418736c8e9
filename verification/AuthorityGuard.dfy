/** The singleton authority guard: what one guard remembers between its awaits,
    and the object that changes those fields. */
module AuthorityGuard {
  import opened Wrappers

  datatype GuardError =
    | ProviderAuthorityDuplicate
    | ProviderAuthorityNotAcquired
    | ProviderAuthoritySessionLost
    | ProviderAuthorityStale
    | ProviderAuthorityUnavailable

  /** Where the serialized operation chain of a guard is suspended. */
  datatype Operation =
    | Idle
    | Acquiring(candidate: nat)
    | Sleeping(wakeAt: int)
    | Probing
    | Releasing(released: nat)

  /** A session is identified with its backend. */
  datatype Guard = Guard(session: Option<nat>, lastConfirmedAt: Option<int>, operation: Operation) {

    /** `clearLocalAuthority`, at the end of an operation. */
    function Cleared(): Guard
    {
      Guard(None, None, Idle)
    }

    /** `acquire` and `probe` both probe a session that is already held. */
    function StartAcquire(candidate: nat): Guard
    {
      if session.Some? then this.(operation := Probing) else this.(operation := Acquiring(candidate))
    }

    function StartProbe(): Guard
    {
      if session.Some? then this.(operation := Probing) else this
    }

    function StartRelease(): Guard
    {
      if session.Some? then Guard(None, None, Releasing(session.value)) else this
    }

    function AcquireAnswered(acquired: bool, now: int, window: nat): Guard
      requires operation.Acquiring?
    {
      if acquired then
        Guard(Some(operation.candidate), None, if window > 0 then Sleeping(now + window) else Probing)
      else this.(operation := Idle)
    }

    function Woken(): Guard
    {
      this.(operation := Probing)
    }

    function ProbeAnswered(held: bool, now: int): Guard
    {
      if held then this.(lastConfirmedAt := Some(now), operation := Idle) else Cleared()
    }

    /** The error that `assertHeld` throws, if any. */
    function HeldError(now: int, freshness: nat): Option<GuardError>
    {
      if session.None? || lastConfirmedAt.None? then Some(ProviderAuthorityNotAcquired)
      else if now < lastConfirmedAt.value || now - lastConfirmedAt.value > freshness then Some(ProviderAuthorityStale)
      else None
    }
  }

  /** The guard object. Each method runs from one await to the next. */
  class ProviderAuthorityGuard {
    const acquisitionSafetyWindowMs: nat
    const freshnessMs: nat
    var session: Option<nat>
    var lastConfirmedAt: Option<int>
    var operation: Operation

    ghost function View(): Guard
      reads this
    {
      Guard(session, lastConfirmedAt, operation)
    }

    constructor (acquisitionSafetyWindowMs: nat, freshnessMs: nat)
      requires freshnessMs > 0
      ensures View() == Guard(None, None, Idle)
      ensures this.acquisitionSafetyWindowMs == acquisitionSafetyWindowMs && this.freshnessMs == freshnessMs
    {
      this.acquisitionSafetyWindowMs, this.freshnessMs := acquisitionSafetyWindowMs, freshnessMs;
      session, lastConfirmedAt, operation := None, None, Idle;
    }

    method ClearLocalAuthority()
      modifies this
      ensures session == None && lastConfirmedAt == None && operation == old(operation)
    {
      session, lastConfirmedAt := None, None;
    }

    method Acquire(candidate: nat)
      requires operation == Idle
      modifies this
      ensures View() == old(View()).StartAcquire(candidate)
    {
      operation := if session.Some? then Probing else Acquiring(candidate);
    }

    /** The row of the acquire query: absent, or with an `acquired` flag. */
    method OnAcquireAnswer(row: Option<bool>, now: int) returns (error: Option<GuardError>)
      requires operation.Acquiring?
      modifies this
      ensures View() == old(View()).AcquireAnswered(row == Some(true), now, acquisitionSafetyWindowMs)
      ensures error == match row
                       case Some(true) => None
                       case Some(false) => Some(ProviderAuthorityDuplicate)
                       case None => Some(ProviderAuthorityUnavailable)
    {
      if row == Some(true) {
        session, lastConfirmedAt := Some(operation.candidate), None;
        operation := if acquisitionSafetyWindowMs > 0 then Sleeping(now + acquisitionSafetyWindowMs) else Probing;
        error := None;
      } else {
        operation := Idle;
        error := Some(if row == Some(false) then ProviderAuthorityDuplicate else ProviderAuthorityUnavailable);
      }
    }

    method OnWake()
      requires operation.Sleeping?
      modifies this
      ensures View() == old(View()).Woken()
    {
      operation := Probing;
    }

    method Probe() returns (error: Option<GuardError>)
      requires operation == Idle
      modifies this
      ensures View() == old(View()).StartProbe()
      ensures error == if old(session).None? then Some(ProviderAuthorityNotAcquired) else None
    {
      if session.None? {
        return Some(ProviderAuthorityNotAcquired);
      }
      operation := Probing;
      error := None;
    }

    /** `held` is false when the query failed, too. */
    method OnProbeAnswer(held: bool, now: int) returns (error: Option<GuardError>)
      requires operation == Probing
      modifies this
      ensures View() == old(View()).ProbeAnswered(held, now)
      ensures error == if held then None else Some(ProviderAuthoritySessionLost)
    {
      operation := Idle;
      if held {
        lastConfirmedAt := Some(now);
        error := None;
      } else {
        ClearLocalAuthority();
        error := Some(ProviderAuthoritySessionLost);
      }
    }

    method Release()
      requires operation == Idle
      modifies this
      ensures View() == old(View()).StartRelease()
    {
      if session.Some? {
        operation := Releasing(session.value);
        ClearLocalAuthority();
      }
    }

    method OnReleaseAnswer(released: bool) returns (error: Option<GuardError>)
      requires operation.Releasing?
      modifies this
      ensures View() == old(View()).(operation := Idle)
      ensures error == if released then None else Some(ProviderAuthoritySessionLost)
    {
      operation := Idle;
      error := if released then None else Some(ProviderAuthoritySessionLost);
    }

    method AssertHeld(now: int) returns (error: Option<GuardError>)
      ensures error == View().HeldError(now, freshnessMs)
    {
      if session.None? || lastConfirmedAt.None? {
        return Some(ProviderAuthorityNotAcquired);
      }
      var age := now - lastConfirmedAt.value;
      if age < 0 || age > freshnessMs {
        return Some(ProviderAuthorityStale);
      }
      return None;
    }
  }
}
