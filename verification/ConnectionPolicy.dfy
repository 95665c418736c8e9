/** The admission policy: four connection quotas and the reconnect throttle. */
module ConnectionPolicy {
  import opened Wrappers
  import opened Text
  import opened KeyParts
  import opened RollingWindow
  import opened Tallies
  import ElementStore
  import KeyedBudgets

  datatype Capability = Edit | Present | View

  /** What a collaboration grant resolves to. */
  datatype Scope = Scope(
    authorityLease: Str,
    actorId: Str,
    capability: Capability,
    documentId: Str,
    generation: int,
    maxConnectionsPerTenant: int,
    origin: Str,
    providerDocumentName: Str,
    sessionId: Str,
    tenantId: Str,
    writerFence: int)

  datatype Limits = Limits(
    maxConnections: nat,
    maxConnectionsPerActor: nat,
    maxConnectionsPerDocument: nat,
    maxConnectionsPerTenant: nat,
    maxReconnectAttempts: nat,
    reconnectWindowMs: nat)

  datatype PolicyError =
    | ActorConnectionQuota
    | DocumentConnectionQuota
    | TenantConnectionQuota
    | GlobalConnectionQuota
    | PolicyClockInvalid
    | PolicyInputInvalid
    | ReconnectStormDenied

  predicate ValidScope(s: Scope)
  {
    ValidKeyPart(s.actorId, 256) && ValidKeyPart(s.documentId, 256) && ValidKeyPart(s.tenantId, 256)
    && PositiveSafe(s.generation)
  }

  function ActorKey(s: Scope): Str
  {
    Scoped(s.tenantId, s.actorId)
  }

  function DocumentKey(s: Scope): Str
  {
    Scoped(s.tenantId, Scoped(s.documentId, ElementStore.Decimal(if s.generation < 0 then 0 else s.generation)))
  }

  /** What the release closure of an admission captured. */
  datatype Lease = Lease(actorKey: Str, documentKey: Str, tenantId: Str)

  function LeaseOf(s: Scope): Lease
  {
    Lease(ActorKey(s), DocumentKey(s), s.tenantId)
  }

  function LeaseActor(l: Lease): Str { l.actorKey }
  function LeaseDocument(l: Lease): Str { l.documentKey }
  function LeaseTenant(l: Lease): Str { l.tenantId }

  /** The counters, and the release closures that have not run yet. */
  datatype Quotas = Quotas(
    active: nat,
    actors: Counts,
    documents: Counts,
    tenants: Counts,
    unreleased: map<nat, Lease>,
    issued: nat)

  function Min(a: int, b: int): int
  {
    if a < b then a else b
  }

  function Max(a: int, b: int): int
  {
    if a < b then b else a
  }

  /** The first quota that one more connection would exceed. */
  function QuotaDenial(limits: Limits, q: Quotas, s: Scope): Option<PolicyError>
  {
    if Of(q.actors, ActorKey(s)) >= limits.maxConnectionsPerActor then Some(ActorConnectionQuota)
    else if Of(q.documents, DocumentKey(s)) >= limits.maxConnectionsPerDocument then Some(DocumentConnectionQuota)
    else if Of(q.tenants, s.tenantId) >= Min(limits.maxConnectionsPerTenant, s.maxConnectionsPerTenant) then
      Some(TenantConnectionQuota)
    else if q.active >= limits.maxConnections then Some(GlobalConnectionQuota)
    else None
  }

  function Admitted(q: Quotas, l: Lease): Quotas
  {
    Quotas(q.active + 1, Increment(q.actors, l.actorKey), Increment(q.documents, l.documentKey),
           Increment(q.tenants, l.tenantId), q.unreleased[q.issued := l], q.issued + 1)
  }

  /** The release closure of `lease` runs, for the first time or once more. */
  function Released(q: Quotas, lease: nat): Quotas
  {
    if lease !in q.unreleased then q
    else
      var l := q.unreleased[lease];
      q.(active := Max(0, q.active - 1),
         actors := Decrement(q.actors, l.actorKey),
         documents := Decrement(q.documents, l.documentKey),
         tenants := Decrement(q.tenants, l.tenantId),
         unreleased := q.unreleased - {lease})
  }

  /** What the throttle says, which looks at nothing but past attempts. */
  function ReconnectDenial(limits: Limits, reconnects: KeyedBudgets.Events, key: Str, now: int): Option<PolicyError>
  {
    if KeyedBudgets.ClockBehind(reconnects, now) then Some(PolicyClockInvalid)
    else if !KeyedBudgets.Spent(reconnects, key, 1, limits.maxReconnectAttempts, now, limits.reconnectWindowMs).1 then
      Some(ReconnectStormDenied)
    else None
  }

  /** One attempt as a call on the keyed budget. */
  function Attempt(limits: Limits, key: Str, now: int): KeyedBudgets.Call
  {
    KeyedBudgets.Call(key, 1, limits.maxReconnectAttempts, now)
  }

  /** The throttle holds over its window exactly when the clock never goes back. */
  lemma ReconnectThrottleHoldsIff(limits: Limits, drift: nat)
    requires PositiveSafe(limits.maxReconnectAttempts) && PositiveSafe(limits.reconnectWindowMs)
    requires limits.reconnectWindowMs > 1
    ensures KeyedBudgets.Holds(limits.reconnectWindowMs, limits.maxReconnectAttempts, 1, drift, limits.reconnectWindowMs)
            <==> drift == 0
  {
    KeyedBudgets.BudgetHoldsIff(limits.reconnectWindowMs, limits.maxReconnectAttempts, 1, drift);
  }

  // ----- every reachable state -----

  ghost predicate Bounded(c: Counts, limit: nat)
  {
    forall key :: key in c ==> c[key] <= limit
  }

  /** Each counter equals the number of admissions that have not been released, and
      no quota is exceeded. */
  ghost predicate QuotasInv(limits: Limits, q: Quotas)
  {
    && q.active == |q.unreleased| <= limits.maxConnections
    && Tally(q.actors, q.unreleased, LeaseActor) && Bounded(q.actors, limits.maxConnectionsPerActor)
    && Tally(q.documents, q.unreleased, LeaseDocument) && Bounded(q.documents, limits.maxConnectionsPerDocument)
    && Tally(q.tenants, q.unreleased, LeaseTenant) && Bounded(q.tenants, limits.maxConnectionsPerTenant)
    && forall lease :: lease in q.unreleased ==> lease < q.issued
  }

  lemma NoQuotasInv(limits: Limits)
    ensures QuotasInv(limits, Quotas(0, map[], map[], map[], map[], 0))
  {
    TallyEmpty<nat, Lease>(map[], LeaseActor);
    TallyEmpty<nat, Lease>(map[], LeaseDocument);
    TallyEmpty<nat, Lease>(map[], LeaseTenant);
  }

  lemma AdmittedInv(limits: Limits, q: Quotas, s: Scope)
    requires QuotasInv(limits, q) && QuotaDenial(limits, q, s).None?
    ensures QuotasInv(limits, Admitted(q, LeaseOf(s)))
  {
    var l := LeaseOf(s);
    hide Tally;
    TallyAdd(q.actors, q.unreleased, LeaseActor, q.issued, l);
    TallyAdd(q.documents, q.unreleased, LeaseDocument, q.issued, l);
    TallyAdd(q.tenants, q.unreleased, LeaseTenant, q.issued, l);
  }

  lemma BoundedDecrement(c: Counts, limit: nat, key: Str)
    requires Bounded(c, limit)
    ensures Bounded(Decrement(c, key), limit)
  {
  }

  lemma ReleasedInv(limits: Limits, q: Quotas, lease: nat)
    requires QuotasInv(limits, q)
    ensures QuotasInv(limits, Released(q, lease))
    ensures lease in q.unreleased ==> Released(q, lease).active == q.active - 1
  {
    hide Tally;
    if lease in q.unreleased {
      var l := q.unreleased[lease];
      TallyRemove(q.actors, q.unreleased, LeaseActor, lease);
      TallyRemove(q.documents, q.unreleased, LeaseDocument, lease);
      TallyRemove(q.tenants, q.unreleased, LeaseTenant, lease);
      assert |q.unreleased - {lease}| == |q.unreleased| - 1 by {
        assert q.unreleased == (q.unreleased - {lease})[lease := l];
      }
      BoundedDecrement(q.actors, limits.maxConnectionsPerActor, l.actorKey);
      BoundedDecrement(q.documents, limits.maxConnectionsPerDocument, l.documentKey);
      BoundedDecrement(q.tenants, limits.maxConnectionsPerTenant, l.tenantId);
      hide Bounded;
    }
  }

  /** A release closure acts once. */
  lemma ReleaseOnce(q: Quotas, lease: nat)
    ensures Released(Released(q, lease), lease) == Released(q, lease)
  {
  }

  /** Releasing what was just admitted restores every counter. */
  lemma AdmitThenRelease(limits: Limits, q: Quotas, s: Scope)
    requires QuotasInv(limits, q)
    ensures Released(Admitted(q, LeaseOf(s)), q.issued) == q.(issued := q.issued + 1)
  {
    assert q.unreleased[q.issued := LeaseOf(s)] - {q.issued} == q.unreleased;
    IncrementDecrement(q.actors, q.unreleased, LeaseActor, ActorKey(s));
    IncrementDecrement(q.documents, q.unreleased, LeaseDocument, DocumentKey(s));
    IncrementDecrement(q.tenants, q.unreleased, LeaseTenant, s.tenantId);
  }

  lemma IncrementDecrement(c: Counts, m: map<nat, Lease>, f: Lease -> Str, key: Str)
    requires Tally(c, m, f)
    ensures Decrement(Increment(c, key), key) == c
  {
    assert key in c <==> Of(c, key) > 0;
  }

  // ----- keys -----

  /** Two valid scopes share a document key exactly when they share tenant, document
      and generation. */
  lemma DocumentKeyInjective(s: Scope, t: Scope)
    requires ValidScope(s) && ValidScope(t)
    ensures DocumentKey(s) == DocumentKey(t) <==>
            s.tenantId == t.tenantId && s.documentId == t.documentId && s.generation == t.generation
  {
    if DocumentKey(s) == DocumentKey(t) {
      var m, n := ElementStore.Decimal(s.generation), ElementStore.Decimal(t.generation);
      ScopedInjective(s.tenantId, Scoped(s.documentId, m), t.tenantId, Scoped(t.documentId, n));
      ScopedInjective(s.documentId, m, t.documentId, n);
      ElementStore.DecimalInjective(s.generation, t.generation);
    }
  }

  lemma ActorKeyInjective(s: Scope, t: Scope)
    requires ValidScope(s) && ValidScope(t)
    ensures ActorKey(s) == ActorKey(t) <==> s.tenantId == t.tenantId && s.actorId == t.actorId
  {
    if ActorKey(s) == ActorKey(t) {
      ScopedInjective(s.tenantId, s.actorId, t.tenantId, t.actorId);
    }
  }

  // ----- the object -----

  class RuntimeConnectionPolicy {
    const limits: Limits
    var active: nat
    var actors: Counts
    var documents: Counts
    var tenants: Counts
    var unreleased: map<nat, Lease>
    var issued: nat
    /** Per actor, its recent attempts, each an event of weight one. */
    var reconnects: KeyedBudgets.Events

    function Counters(): Quotas
      reads this
    {
      Quotas(active, actors, documents, tenants, unreleased, issued)
    }

    ghost predicate Valid()
      reads this
    {
      QuotasInv(limits, Counters())
    }

    constructor (limits: Limits)
      ensures Valid() && this.limits == limits
      ensures Counters() == Quotas(0, map[], map[], map[], map[], 0) && reconnects == map[]
    {
      this.limits := limits;
      active, actors, documents, tenants, unreleased, issued := 0, map[], map[], map[], map[], 0;
      reconnects := map[];
      NoQuotasInv(limits);
    }

    method ConsumeReconnectAttempt(actorKey: Str, now: int) returns (denial: Option<PolicyError>)
      modifies this`reconnects
      ensures denial == ReconnectDenial(limits, old(reconnects), actorKey, now)
      ensures KeyedBudgets.Charged(old(reconnects), Attempt(limits, actorKey, now), limits.reconnectWindowMs, reconnects,
                                   denial.None?)
    {
      hide KeyedBudgets.ClockBehind, KeyedBudgets.PrunedAll, KeyedBudgets.PartlyPruned, Sum;
      var pruned, behind := KeyedBudgets.PruneKeys(reconnects, now, now - limits.reconnectWindowMs);
      reconnects := pruned;
      if behind {
        return Some(PolicyClockInvalid);
      }
      var timestamps := KeyedBudgets.EventsOf(reconnects, actorKey);
      if Sum(timestamps, 0, |timestamps|) + 1 > limits.maxReconnectAttempts {
        return Some(ReconnectStormDenied);
      }
      reconnects := reconnects[actorKey := timestamps + [Event(now, 1)]];
      return None;
    }

    /** An attempt counts toward the throttle even when a quota then denies it. */
    method Acquire(scope: Scope, now: int) returns (r: Result<nat, PolicyError>)
      requires Valid()
      modifies this
      ensures Valid()
      ensures r == if !ValidScope(scope) then Err(PolicyInputInvalid)
                   else if !ValidClock(now) then Err(PolicyClockInvalid)
                   else if old(ReconnectDenial(limits, reconnects, ActorKey(scope), now)).Some? then
                     Err(old(ReconnectDenial(limits, reconnects, ActorKey(scope), now)).value)
                   else if old(QuotaDenial(limits, Counters(), scope)).Some? then
                     Err(old(QuotaDenial(limits, Counters(), scope)).value)
                   else Ok(old(issued))
      ensures Counters() == if r.Ok? then Admitted(old(Counters()), LeaseOf(scope)) else old(Counters())
      ensures if ValidScope(scope) && ValidClock(now) then
                KeyedBudgets.Charged(old(reconnects), Attempt(limits, ActorKey(scope), now), limits.reconnectWindowMs, reconnects,
                                     old(ReconnectDenial(limits, reconnects, ActorKey(scope), now)).None?)
              else reconnects == old(reconnects)
    {
      if !ValidScope(scope) {
        return Err(PolicyInputInvalid);
      }
      if !ValidClock(now) {
        return Err(PolicyClockInvalid);
      }
      hide KeyedBudgets.Charged, KeyedBudgets.Spent, KeyedBudgets.ClockBehind, QuotasInv, ValidScope, ActorKey, DocumentKey;
      var denial := ConsumeReconnectAttempt(ActorKey(scope), now);
      if denial.Some? {
        return Err(denial.value);
      }
      denial := CheckQuotas(scope);
      if denial.Some? {
        return Err(denial.value);
      }
      r := Ok(issued);
      AdmittedInv(limits, Counters(), scope);
      Count(LeaseOf(scope));
    }

    method CheckQuotas(scope: Scope) returns (denial: Option<PolicyError>)
      ensures denial == QuotaDenial(limits, Counters(), scope)
    {
      if Of(actors, ActorKey(scope)) >= limits.maxConnectionsPerActor {
        return Some(ActorConnectionQuota);
      }
      if Of(documents, DocumentKey(scope)) >= limits.maxConnectionsPerDocument {
        return Some(DocumentConnectionQuota);
      }
      if Of(tenants, scope.tenantId) >= Min(limits.maxConnectionsPerTenant, scope.maxConnectionsPerTenant) {
        return Some(TenantConnectionQuota);
      }
      if active >= limits.maxConnections {
        return Some(GlobalConnectionQuota);
      }
      return None;
    }

    method Count(l: Lease)
      requires QuotasInv(limits, Admitted(Counters(), l))
      modifies this
      ensures Valid()
      ensures Counters() == Admitted(old(Counters()), l) && reconnects == old(reconnects)
    {
      hide QuotasInv;
      active, unreleased, issued := active + 1, unreleased[issued := l], issued + 1;
      actors, documents, tenants :=
        Increment(actors, l.actorKey), Increment(documents, l.documentKey), Increment(tenants, l.tenantId);
    }

    /** The closure that `Acquire` returned as `lease`. */
    method Release(lease: nat)
      requires Valid()
      modifies this
      ensures Valid()
      ensures Counters() == Released(old(Counters()), lease) && reconnects == old(reconnects)
    {
      ReleasedInv(limits, Counters(), lease);
      hide QuotasInv, Decrement;
      if lease !in unreleased {
        return;
      }
      var l := unreleased[lease];
      active, unreleased := Max(0, active - 1), unreleased - {lease};
      actors, documents, tenants :=
        Decrement(actors, l.actorKey), Decrement(documents, l.documentKey), Decrement(tenants, l.tenantId);
    }
  }
}
