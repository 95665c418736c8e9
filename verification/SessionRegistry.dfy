/** The registry of live sessions: which provider document serves which canonical
    document, and what every counter counts. */
module SessionRegistry {
  import opened Wrappers
  import opened Text
  import opened KeyParts
  import opened Tallies
  import opened ConnectionPolicy
  import ElementStore
  import Json

  datatype Phase = Active | Pending
  datatype Stage = Authentication | Load | Setup
  datatype Outcome = Release | Rollback(stage: Stage)

  datatype RegistryError =
    | DocumentScopeConflict
    | DuplicateSessionReservation
    | InvalidSessionReservation
    | ReservationNotFound
    | AdmissionDenied(cause: PolicyError)

  datatype Canonical = Canonical(documentId: Str, generation: int, tenantId: Str, writerFence: int)
  datatype ScopeReservation = ScopeReservation(canonicalKey: Str, references: nat, scope: Canonical)
  datatype Owner = Owner(providerDocumentName: Str, references: nat, writerFence: int)

  /** `lease` is the release closure of the admission; tokens are never reused. */
  datatype Session = Session(lease: nat, phase: Phase, scope: Scope, token: nat)

  datatype Totals = Totals(
    accepted: nat,
    denied: nat,
    released: nat,
    rollbackAuthentication: nat,
    rollbackLoad: nat,
    rollbackSetup: nat)

  datatype Closed = Closed(capability: Capability, phase: Phase)

  predicate ValidReservation(s: Scope)
  {
    ValidKeyPart(s.actorId, 256) && ValidKeyPart(s.authorityLease, 2_048) && ValidKeyPart(s.documentId, 256)
    && PositiveSafe(s.generation) && ValidKeyPart(s.origin, 2_048) && ValidKeyPart(s.providerDocumentName, 512)
    && ValidKeyPart(s.sessionId, 256) && ValidKeyPart(s.tenantId, 256) && PositiveSafe(s.writerFence)
  }

  function CanonicalKey(s: Scope): Str
  {
    Json.Stringify(Json.Arr([Json.Str(s.tenantId), Json.Str(s.documentId),
                             Json.Num(ElementStore.Decimal(if s.generation < 0 then 0 else s.generation))]))
  }

  /** The key of a document is the document. */
  lemma CanonicalKeyInjective(s: Scope, t: Scope)
    requires s.generation >= 0 && t.generation >= 0
    ensures CanonicalKey(s) == CanonicalKey(t) <==>
            s.tenantId == t.tenantId && s.documentId == t.documentId && s.generation == t.generation
  {
    if CanonicalKey(s) == CanonicalKey(t) {
      var x := [Json.Str(s.tenantId), Json.Str(s.documentId), Json.Num(ElementStore.Decimal(s.generation))];
      var y := [Json.Str(t.tenantId), Json.Str(t.documentId), Json.Num(ElementStore.Decimal(t.generation))];
      Json.StringifyInjective(Json.Arr(x), Json.Arr(y));
      assert x[0] == y[0] && x[1] == y[1] && x[2] == y[2];
      ElementStore.DecimalInjective(s.generation, t.generation);
    }
  }

  function CanonicalOf(s: Scope): Canonical
  {
    Canonical(s.documentId, s.generation, s.tenantId, s.writerFence)
  }

  type Reservations = map<Str, ScopeReservation>
  type Owners = map<Str, Owner>

  function AddReservation(m: Reservations, s: Scope): Reservations
  {
    var name := s.providerDocumentName;
    m[name := if name in m then m[name].(references := m[name].references + 1)
              else ScopeReservation(CanonicalKey(s), 1, CanonicalOf(s))]
  }

  function AddOwner(m: Owners, s: Scope): Owners
  {
    var key := CanonicalKey(s);
    m[key := if key in m then m[key].(references := m[key].references + 1)
             else Owner(s.providerDocumentName, 1, s.writerFence)]
  }

  function DropReservation(m: Reservations, s: Scope): Reservations
  {
    var name := s.providerDocumentName;
    if name !in m then m
    else if m[name].references <= 1 then m - {name}
    else m[name := m[name].(references := m[name].references - 1)]
  }

  function DropOwner(m: Owners, s: Scope): Owners
  {
    var key := CanonicalKey(s);
    if key !in m then m
    else if m[key].references <= 1 then m - {key}
    else m[key := m[key].(references := m[key].references - 1)]
  }

  datatype Registry = Registry(
    sessions: map<Str, Session>,
    providerScopes: Reservations,
    canonicalOwners: Owners,
    totals: Totals,
    issued: nat,
    quotas: Quotas)

  predicate ProviderConflict(m: Reservations, s: Scope)
  {
    var name := s.providerDocumentName;
    name in m && (m[name].canonicalKey != CanonicalKey(s) || m[name].scope != CanonicalOf(s))
  }

  predicate OwnerConflict(m: Owners, s: Scope)
  {
    var key := CanonicalKey(s);
    key in m && (m[key].providerDocumentName != s.providerDocumentName || m[key].writerFence != s.writerFence)
  }

  /** Why a reservation is refused; `throttled` is what the clock and the reconnect
      throttle say if they are asked. */
  function ReserveDenial(limits: Limits, r: Registry, key: Str, s: Scope, throttled: Option<PolicyError>)
    : Option<RegistryError>
  {
    if !ValidKeyPart(key, 1_024) || !ValidReservation(s) then Some(InvalidSessionReservation)
    else if key in r.sessions then Some(DuplicateSessionReservation)
    else if ProviderConflict(r.providerScopes, s) || OwnerConflict(r.canonicalOwners, s) then
      Some(DocumentScopeConflict)
    else if throttled.Some? then Some(AdmissionDenied(throttled.value))
    else if QuotaDenial(limits, r.quotas, s).Some? then Some(AdmissionDenied(QuotaDenial(limits, r.quotas, s).value))
    else None
  }

  /** A session enters the registry with its admission. */
  function Installed(r: Registry, key: Str, s: Scope, lease: nat): Registry
  {
    r.(sessions := r.sessions[key := Session(lease, Pending, s, r.issued)],
       providerScopes := AddReservation(r.providerScopes, s),
       canonicalOwners := AddOwner(r.canonicalOwners, s),
       totals := r.totals.(accepted := r.totals.accepted + 1),
       issued := r.issued + 1)
  }

  function Reserved(r: Registry, key: Str, s: Scope): Registry
  {
    Installed(r.(quotas := Admitted(r.quotas, LeaseOf(s))), key, s, r.quotas.issued)
  }

  predicate IsCurrent(r: Registry, key: Str, token: nat)
  {
    key in r.sessions && r.sessions[key].token == token
  }

  function CountedIn(t: Totals, outcome: Outcome): Totals
  {
    match outcome
    case Release => t.(released := t.released + 1)
    case Rollback(Authentication) => t.(rollbackAuthentication := t.rollbackAuthentication + 1)
    case Rollback(Load) => t.(rollbackLoad := t.rollbackLoad + 1)
    case Rollback(Setup) => t.(rollbackSetup := t.rollbackSetup + 1)
  }

  /** A handle closes the session it was issued for, if that is still there. */
  function Close(r: Registry, key: Str, token: nat, outcome: Outcome): Registry
  {
    if !IsCurrent(r, key, token) then r
    else
      var s := r.sessions[key];
      r.(sessions := r.sessions - {key},
         providerScopes := DropReservation(r.providerScopes, s.scope),
         canonicalOwners := DropOwner(r.canonicalOwners, s.scope),
         totals := CountedIn(r.totals, outcome),
         quotas := Released(r.quotas, s.lease))
  }

  function Commit(r: Registry, key: Str): Registry
    requires key in r.sessions
  {
    r.(sessions := r.sessions[key := r.sessions[key].(phase := Active)])
  }

  // ----- every reachable state -----

  function SessionProvider(s: Session): Str { s.scope.providerDocumentName }
  function SessionCanonical(s: Session): Str { CanonicalKey(s.scope) }
  function SessionActor(s: Session): Str { ActorKey(s.scope) }
  function SessionDocument(s: Session): Str { DocumentKey(s.scope) }
  function SessionTenant(s: Session): Str { s.scope.tenantId }

  function ReservationRefs(m: Reservations): Counts
  {
    map name | name in m :: m[name].references
  }

  function OwnerRefs(m: Owners): Counts
  {
    map key | key in m :: m[key].references
  }

  /** Both directions of the document index count the live sessions. */
  ghost predicate IndexInv(r: Registry)
  {
    Tally(ReservationRefs(r.providerScopes), r.sessions, SessionProvider)
    && Tally(OwnerRefs(r.canonicalOwners), r.sessions, SessionCanonical)
  }

  /** The index says of every live session what its scope says. */
  ghost predicate Agrees(r: Registry, s: Session)
  {
    && s.scope.providerDocumentName in r.providerScopes
    && r.providerScopes[s.scope.providerDocumentName].canonicalKey == CanonicalKey(s.scope)
    && r.providerScopes[s.scope.providerDocumentName].scope == CanonicalOf(s.scope)
    && CanonicalKey(s.scope) in r.canonicalOwners
    && r.canonicalOwners[CanonicalKey(s.scope)].providerDocumentName == s.scope.providerDocumentName
    && r.canonicalOwners[CanonicalKey(s.scope)].writerFence == s.scope.writerFence
  }

  ghost predicate CountersInv(r: Registry)
  {
    && r.quotas.active == |r.sessions|
    && Tally(r.quotas.actors, r.sessions, SessionActor)
    && Tally(r.quotas.documents, r.sessions, SessionDocument)
    && Tally(r.quotas.tenants, r.sessions, SessionTenant)
  }

  ghost predicate LeasesInv(r: Registry)
  {
    && (forall k :: k in r.sessions ==>
          r.sessions[k].lease in r.quotas.unreleased
          && r.quotas.unreleased[r.sessions[k].lease] == LeaseOf(r.sessions[k].scope)
          && r.sessions[k].token < r.issued && ValidReservation(r.sessions[k].scope))
    && (forall a, b :: a in r.sessions && b in r.sessions && a != b ==>
          r.sessions[a].lease != r.sessions[b].lease && r.sessions[a].token != r.sessions[b].token)
  }

  predicate TotalsInv(r: Registry)
  {
    r.totals.accepted == r.totals.released + r.totals.rollbackAuthentication + r.totals.rollbackLoad
                         + r.totals.rollbackSetup + |r.sessions|
  }

  ghost predicate Inv(limits: Limits, r: Registry)
  {
    && QuotasInv(limits, r.quotas) && IndexInv(r) && CountersInv(r) && LeasesInv(r) && TotalsInv(r)
    && forall k :: k in r.sessions ==> Agrees(r, r.sessions[k])
  }

  function Empty(): Registry
  {
    Registry(map[], map[], map[], Totals(0, 0, 0, 0, 0, 0), 0, Quotas(0, map[], map[], map[], map[], 0))
  }

  lemma EmptyInv(limits: Limits)
    ensures Inv(limits, Empty())
  {
    NoQuotasInv(limits);
    TallyEmpty<Str, Session>(map[], SessionProvider);
    TallyEmpty<Str, Session>(map[], SessionCanonical);
    TallyEmpty<Str, Session>(map[], SessionActor);
    TallyEmpty<Str, Session>(map[], SessionDocument);
    TallyEmpty<Str, Session>(map[], SessionTenant);
    assert ReservationRefs(map[]) == map[] && OwnerRefs(map[]) == map[];
  }

  // ----- reserving -----

  lemma AddedRefs(m: Reservations, n: Owners, s: Scope)
    ensures ReservationRefs(AddReservation(m, s)) == Increment(ReservationRefs(m), s.providerDocumentName)
    ensures OwnerRefs(AddOwner(n, s)) == Increment(OwnerRefs(n), CanonicalKey(s))
  {
    hide CanonicalKey;
  }

  lemma ReservedIndex(limits: Limits, r: Registry, key: Str, s: Scope)
    requires IndexInv(r) && key !in r.sessions
    ensures IndexInv(Reserved(r, key, s))
  {
    hide Tally, CanonicalKey, AddReservation, AddOwner, ReservationRefs, OwnerRefs;
    var live := Reserved(r, key, s).sessions[key];
    TallyAdd(ReservationRefs(r.providerScopes), r.sessions, SessionProvider, key, live);
    TallyAdd(OwnerRefs(r.canonicalOwners), r.sessions, SessionCanonical, key, live);
    AddedRefs(r.providerScopes, r.canonicalOwners, s);
  }

  lemma ReservedAgrees(r: Registry, key: Str, s: Scope, k: Str)
    requires forall x :: x in r.sessions ==> Agrees(r, r.sessions[x])
    requires !ProviderConflict(r.providerScopes, s) && !OwnerConflict(r.canonicalOwners, s)
    requires key !in r.sessions && k in Reserved(r, key, s).sessions
    ensures Agrees(Reserved(r, key, s), Reserved(r, key, s).sessions[k])
  {
    hide CanonicalKey;
    assert k != key ==> Agrees(r, r.sessions[k]);
  }

  lemma ReservedCounters(limits: Limits, r: Registry, key: Str, s: Scope)
    requires CountersInv(r) && key !in r.sessions
    ensures CountersInv(Reserved(r, key, s))
  {
    hide Tally;
    var live := Reserved(r, key, s).sessions[key];
    TallyAdd(r.quotas.actors, r.sessions, SessionActor, key, live);
    TallyAdd(r.quotas.documents, r.sessions, SessionDocument, key, live);
    TallyAdd(r.quotas.tenants, r.sessions, SessionTenant, key, live);
  }

  lemma ReservedLeases(limits: Limits, r: Registry, key: Str, s: Scope)
    requires QuotasInv(limits, r.quotas) && LeasesInv(r) && key !in r.sessions && ValidReservation(s)
    ensures LeasesInv(Reserved(r, key, s))
  {
    hide Tally, ValidReservation, LeaseOf;
  }

  lemma ReservedInv(limits: Limits, r: Registry, key: Str, s: Scope)
    requires Inv(limits, r) && ReserveDenial(limits, r, key, s, None).None?
    ensures Inv(limits, Reserved(r, key, s))
  {
    hide QuotasInv, IndexInv, CountersInv, LeasesInv, Agrees, QuotaDenial, ProviderConflict, OwnerConflict,
         ValidReservation, ValidKeyPart;
    AdmittedInv(limits, r.quotas, s);
    ReservedIndex(limits, r, key, s);
    ReservedCounters(limits, r, key, s);
    ReservedLeases(limits, r, key, s);
    forall k | k in Reserved(r, key, s).sessions
      ensures Agrees(Reserved(r, key, s), Reserved(r, key, s).sessions[k])
    {
      ReservedAgrees(r, key, s, k);
    }
  }

  // ----- closing -----

  /** Whoever else keeps the same provider name or document alive is counted too. */
  lemma DroppedIndex(r: Registry, key: Str)
    requires IndexInv(r) && key in r.sessions
    ensures var s := r.sessions[key].scope;
            IndexInv(r.(sessions := r.sessions - {key},
                        providerScopes := DropReservation(r.providerScopes, s),
                        canonicalOwners := DropOwner(r.canonicalOwners, s)))
  {
    hide Tally;
    var s := r.sessions[key].scope;
    TallyRemove(ReservationRefs(r.providerScopes), r.sessions, SessionProvider, key);
    TallyRemove(OwnerRefs(r.canonicalOwners), r.sessions, SessionCanonical, key);
    assert ReservationRefs(DropReservation(r.providerScopes, s)) ==
           Decrement(ReservationRefs(r.providerScopes), s.providerDocumentName);
    assert OwnerRefs(DropOwner(r.canonicalOwners, s)) == Decrement(OwnerRefs(r.canonicalOwners), CanonicalKey(s));
  }

  lemma DroppedAgrees(r: Registry, t: Registry, key: Str, k: Str)
    requires key in r.sessions && IndexInv(t) && t.sessions == r.sessions - {key}
    requires t.providerScopes == DropReservation(r.providerScopes, r.sessions[key].scope)
    requires t.canonicalOwners == DropOwner(r.canonicalOwners, r.sessions[key].scope)
    requires k in t.sessions && Agrees(r, r.sessions[k])
    ensures Agrees(t, t.sessions[k])
  {
    hide CanonicalKey, Tally;
    Tallies.Counted(ReservationRefs(t.providerScopes), t.sessions, SessionProvider, k);
    Tallies.Counted(OwnerRefs(t.canonicalOwners), t.sessions, SessionCanonical, k);
  }

  lemma ClosedCounters(limits: Limits, r: Registry, key: Str, token: nat, outcome: Outcome)
    requires QuotasInv(limits, r.quotas) && CountersInv(r) && LeasesInv(r) && IsCurrent(r, key, token)
    ensures CountersInv(Close(r, key, token, outcome))
  {
    hide Tally, ValidReservation, DropReservation, DropOwner, QuotasInv;
    ReleasedInv(limits, r.quotas, r.sessions[key].lease);
    TallyRemove(r.quotas.actors, r.sessions, SessionActor, key);
    TallyRemove(r.quotas.documents, r.sessions, SessionDocument, key);
    TallyRemove(r.quotas.tenants, r.sessions, SessionTenant, key);
    assert r.sessions == (r.sessions - {key})[key := r.sessions[key]];
  }

  lemma ClosedLeases(r: Registry, key: Str, token: nat, outcome: Outcome)
    requires LeasesInv(r) && IsCurrent(r, key, token)
    ensures LeasesInv(Close(r, key, token, outcome))
  {
    hide ValidReservation, LeaseOf, DropReservation, DropOwner;
  }

  lemma ClosedTotals(r: Registry, key: Str, token: nat, outcome: Outcome)
    requires TotalsInv(r) && IsCurrent(r, key, token)
    ensures TotalsInv(Close(r, key, token, outcome))
  {
    hide DropReservation, DropOwner, Released;
    assert r.sessions == (r.sessions - {key})[key := r.sessions[key]];
  }

  lemma ClosedInv(limits: Limits, r: Registry, key: Str, token: nat, outcome: Outcome)
    requires Inv(limits, r)
    ensures Inv(limits, Close(r, key, token, outcome))
  {
    hide QuotasInv, IndexInv, CountersInv, LeasesInv, TotalsInv, Agrees, DropReservation, DropOwner, Released;
    if IsCurrent(r, key, token) {
      var t := Close(r, key, token, outcome);
      ReleasedInv(limits, r.quotas, r.sessions[key].lease);
      DroppedIndex(r, key);
      IndexOnly(r.(sessions := t.sessions, providerScopes := t.providerScopes, canonicalOwners := t.canonicalOwners), t);
      ClosedCounters(limits, r, key, token, outcome);
      ClosedLeases(r, key, token, outcome);
      ClosedTotals(r, key, token, outcome);
      forall k | k in t.sessions ensures Agrees(t, t.sessions[k]) {
        DroppedAgrees(r, t, key, k);
      }
    }
  }

  lemma IndexOnly(r: Registry, t: Registry)
    requires IndexInv(r) && r.sessions == t.sessions
    requires r.providerScopes == t.providerScopes && r.canonicalOwners == t.canonicalOwners
    ensures IndexInv(t)
  {
  }

  lemma CommittedTallies(r: Registry, key: Str)
    requires key in r.sessions && IndexInv(r) && CountersInv(r)
    ensures IndexInv(Commit(r, key)) && CountersInv(Commit(r, key))
  {
    var live := r.sessions[key].(phase := Active);
    hide Tally;
    TallyReplace(ReservationRefs(r.providerScopes), r.sessions, SessionProvider, key, live);
    TallyReplace(OwnerRefs(r.canonicalOwners), r.sessions, SessionCanonical, key, live);
    TallyReplace(r.quotas.actors, r.sessions, SessionActor, key, live);
    TallyReplace(r.quotas.documents, r.sessions, SessionDocument, key, live);
    TallyReplace(r.quotas.tenants, r.sessions, SessionTenant, key, live);
    assert r.sessions[key := live].Keys == r.sessions.Keys;
  }

  lemma CommittedLeases(r: Registry, key: Str)
    requires key in r.sessions && LeasesInv(r) && TotalsInv(r)
    ensures LeasesInv(Commit(r, key)) && TotalsInv(Commit(r, key))
  {
    CommittedTotals(r, key);
    hide ValidReservation, LeaseOf, TotalsInv;
    var t := Commit(r, key);
    SamePhaseApart(r.sessions, key);
    hide Commit;
    assert forall k :: k in t.sessions ==> k in r.sessions && t.sessions[k].lease == r.sessions[k].lease;
  }

  lemma SamePhaseApart(m: map<Str, Session>, key: Str)
    requires key in m
    ensures var n := m[key := m[key].(phase := Active)];
            n.Keys == m.Keys
            && forall k :: k in m ==> n[k].lease == m[k].lease && n[k].scope == m[k].scope && n[k].token == m[k].token
  {
    assert m[key := m[key].(phase := Active)].Keys == m.Keys;
  }

  lemma CommittedTotals(r: Registry, key: Str)
    requires key in r.sessions && TotalsInv(r)
    ensures TotalsInv(Commit(r, key))
  {
    assert r.sessions[key := r.sessions[key].(phase := Active)].Keys == r.sessions.Keys;
  }

  lemma CommittedAgrees(r: Registry, key: Str, k: Str)
    requires key in r.sessions && k in r.sessions && Agrees(r, r.sessions[k])
    ensures Agrees(Commit(r, key), Commit(r, key).sessions[k])
  {
    hide CanonicalKey;
  }

  lemma CommittedInv(limits: Limits, r: Registry, key: Str)
    requires Inv(limits, r) && key in r.sessions
    ensures Inv(limits, Commit(r, key))
  {
    hide QuotasInv, IndexInv, CountersInv, LeasesInv, TotalsInv, Agrees;
    CommittedTallies(r, key);
    CommittedLeases(r, key);
    forall k | k in r.sessions ensures Agrees(Commit(r, key), Commit(r, key).sessions[k]) {
      CommittedAgrees(r, key, k);
    }
  }

  // ----- runs -----

  datatype Step =
    | ReserveStep(key: Str, scope: Scope, throttled: Option<PolicyError>)
    | CommitKey(key: Str)
    | CommitHandle(key: Str, token: nat)
    | CloseKey(key: Str, outcome: Outcome)
    | CloseHandle(key: Str, token: nat, outcome: Outcome)

  function Denied(r: Registry): Registry
  {
    r.(totals := r.totals.(denied := r.totals.denied + 1))
  }

  function Next(limits: Limits, r: Registry, step: Step): Registry
  {
    match step
    case ReserveStep(key, scope, throttled) =>
      if ReserveDenial(limits, r, key, scope, throttled).Some? then Denied(r) else Reserved(r, key, scope)
    case CommitKey(key) => if key in r.sessions then Commit(r, key) else r
    case CommitHandle(key, token) => if IsCurrent(r, key, token) then Commit(r, key) else r
    case CloseKey(key, outcome) => if key in r.sessions then Close(r, key, r.sessions[key].token, outcome) else r
    case CloseHandle(key, token, outcome) => Close(r, key, token, outcome)
  }

  function Run(limits: Limits, start: Registry, steps: seq<Step>): Registry
    decreases |steps|
  {
    if steps == [] then start else Next(limits, Run(limits, start, steps[..|steps| - 1]), steps[|steps| - 1])
  }

  lemma DeniedInv(limits: Limits, r: Registry)
    requires Inv(limits, r)
    ensures Inv(limits, Denied(r))
  {
    hide QuotasInv, Tally;
  }

  lemma NextInv(limits: Limits, r: Registry, step: Step)
    requires Inv(limits, r)
    ensures Inv(limits, Next(limits, r, step))
  {
    hide Inv, Close, Reserved, Commit, ValidReservation, ValidKeyPart, ProviderConflict, OwnerConflict, QuotaDenial;
    match step
    case ReserveStep(key, scope, throttled) =>
      if ReserveDenial(limits, r, key, scope, throttled).Some? {
        DeniedInv(limits, r);
      } else {
        ReservedInv(limits, r, key, scope);
      }
    case CommitKey(key) =>
      if key in r.sessions { CommittedInv(limits, r, key); }
    case CommitHandle(key, token) =>
      if IsCurrent(r, key, token) { CommittedInv(limits, r, key); }
    case CloseKey(key, outcome) =>
      if key in r.sessions { ClosedInv(limits, r, key, r.sessions[key].token, outcome); }
    case CloseHandle(key, token, outcome) => ClosedInv(limits, r, key, token, outcome);
  }

  lemma {:induction false} RunInv(limits: Limits, start: Registry, steps: seq<Step>)
    requires Inv(limits, start)
    ensures Inv(limits, Run(limits, start, steps))
    decreases |steps|
  {
    if steps == [] {
    } else {
      RunInv(limits, start, steps[..|steps| - 1]);
      NextInv(limits, Run(limits, start, steps[..|steps| - 1]), steps[|steps| - 1]);
    }
  }

  // ----- what it means -----

  /** Live sessions share a provider document name exactly when they share the
      document, and then they share its writer fence. */
  lemma OneToOne(limits: Limits, steps: seq<Step>, a: Str, b: Str)
    requires var r := Run(limits, Empty(), steps); a in r.sessions && b in r.sessions
    ensures var r := Run(limits, Empty(), steps);
            var s, t := r.sessions[a].scope, r.sessions[b].scope;
            (s.providerDocumentName == t.providerDocumentName <==>
             s.tenantId == t.tenantId && s.documentId == t.documentId && s.generation == t.generation)
            && (s.providerDocumentName == t.providerDocumentName ==> s.writerFence == t.writerFence)
  {
    EmptyInv(limits);
    RunInv(limits, Empty(), steps);
    var r := Run(limits, Empty(), steps);
    hide IndexInv, CountersInv, QuotasInv, TotalsInv, CanonicalKey, Run;
    assert Agrees(r, r.sessions[a]) && Agrees(r, r.sessions[b]);
    CanonicalKeyInjective(r.sessions[a].scope, r.sessions[b].scope);
  }

  /** The index holds exactly the provider names of the live sessions, each with the
      number of sessions that keep it. */
  lemma IndexIsLive(limits: Limits, steps: seq<Step>, name: Str)
    ensures var r := Run(limits, Empty(), steps);
            var holders := set k | k in r.sessions && r.sessions[k].scope.providerDocumentName == name;
            (name in r.providerScopes <==> holders != {})
            && (name in r.providerScopes ==> r.providerScopes[name].references == |holders|)
  {
    EmptyInv(limits);
    RunInv(limits, Empty(), steps);
    hide QuotasInv, Run, CountersInv, LeasesInv, Agrees, TotalsInv, CanonicalKey;
    HoldersCounted(Run(limits, Empty(), steps), name);
  }

  lemma HoldersCounted(r: Registry, name: Str)
    requires IndexInv(r)
    ensures var holders := set k | k in r.sessions && r.sessions[k].scope.providerDocumentName == name;
            (name in r.providerScopes <==> holders != {})
            && (name in r.providerScopes ==> r.providerScopes[name].references == |holders|)
  {
    hide CanonicalKey;
    var holders := set k | k in r.sessions && r.sessions[k].scope.providerDocumentName == name;
    assert holders == Members(r.sessions, SessionProvider, name);
    assert Of(ReservationRefs(r.providerScopes), name) == |Members(r.sessions, SessionProvider, name)|;
  }

  lemma MembersBounded(c: Counts, m: map<Str, Session>, f: Session -> Str, limit: nat, key: Str)
    requires Tally(c, m, f) && Bounded(c, limit)
    ensures |Members(m, f, key)| <= limit
  {
    assert Of(c, key) == |Members(m, f, key)|;
  }

  function OfActor(r: Registry, s: Scope): set<Str>
  {
    set k | k in r.sessions && ActorKey(r.sessions[k].scope) == ActorKey(s)
  }

  function OfDocument(r: Registry, s: Scope): set<Str>
  {
    set k | k in r.sessions && DocumentKey(r.sessions[k].scope) == DocumentKey(s)
  }

  function OfTenant(r: Registry, s: Scope): set<Str>
  {
    set k | k in r.sessions && r.sessions[k].scope.tenantId == s.tenantId
  }

  /** No quota is ever exceeded by the live sessions themselves. */
  lemma WithinQuotas(limits: Limits, steps: seq<Step>, s: Scope)
    ensures var r := Run(limits, Empty(), steps);
            && |OfActor(r, s)| <= limits.maxConnectionsPerActor
            && |OfDocument(r, s)| <= limits.maxConnectionsPerDocument
            && |OfTenant(r, s)| <= limits.maxConnectionsPerTenant
            && |r.sessions| <= limits.maxConnections
  {
    EmptyInv(limits);
    RunInv(limits, Empty(), steps);
    var r := Run(limits, Empty(), steps);
    hide Run, IndexInv, Agrees, LeasesInv, TotalsInv, ActorKey, DocumentKey, Tally, Bounded;
    MembersBounded(r.quotas.actors, r.sessions, SessionActor, limits.maxConnectionsPerActor, ActorKey(s));
    MembersBounded(r.quotas.documents, r.sessions, SessionDocument, limits.maxConnectionsPerDocument, DocumentKey(s));
    MembersBounded(r.quotas.tenants, r.sessions, SessionTenant, limits.maxConnectionsPerTenant, s.tenantId);
    SessionMembers(r, s);
  }

  /** In every run the quotas admit one more session exactly when the live ones leave
      room for it: also within the tenant limit that its own scope carries. */
  lemma RoomForOneMore(limits: Limits, steps: seq<Step>, s: Scope)
    ensures var r := Run(limits, Empty(), steps);
            QuotaDenial(limits, r.quotas, s).None? <==>
              && |OfActor(r, s)| < limits.maxConnectionsPerActor
              && |OfDocument(r, s)| < limits.maxConnectionsPerDocument
              && |OfTenant(r, s)| < limits.maxConnectionsPerTenant && |OfTenant(r, s)| < s.maxConnectionsPerTenant
              && |r.sessions| < limits.maxConnections
  {
    EmptyInv(limits);
    RunInv(limits, Empty(), steps);
    hide Run, IndexInv, Agrees, LeasesInv, TotalsInv, QuotasInv, CountersInv, QuotaDenial, OfActor, OfDocument, OfTenant;
    RoomInState(limits, Run(limits, Empty(), steps), s);
  }

  lemma RoomInState(limits: Limits, r: Registry, s: Scope)
    requires CountersInv(r)
    ensures QuotaDenial(limits, r.quotas, s).None? <==>
              && |OfActor(r, s)| < limits.maxConnectionsPerActor
              && |OfDocument(r, s)| < limits.maxConnectionsPerDocument
              && |OfTenant(r, s)| < limits.maxConnectionsPerTenant && |OfTenant(r, s)| < s.maxConnectionsPerTenant
              && |r.sessions| < limits.maxConnections
  {
    hide ActorKey, DocumentKey, Tally, Of;
    LiveCount(r.quotas.actors, r.sessions, SessionActor, ActorKey(s));
    LiveCount(r.quotas.documents, r.sessions, SessionDocument, DocumentKey(s));
    LiveCount(r.quotas.tenants, r.sessions, SessionTenant, s.tenantId);
    SessionMembers(r, s);
    hide Members, OfActor, OfDocument, OfTenant;
  }

  lemma LiveCount(c: Counts, m: map<Str, Session>, f: Session -> Str, key: Str)
    requires Tally(c, m, f)
    ensures Of(c, key) == |Members(m, f, key)|
  {
  }

  /** Whenever a session is admitted, the live sessions of its tenant, itself included,
      are within both tenant limits. */
  lemma AdmittedWithinTenant(limits: Limits, steps: seq<Step>, key: Str, s: Scope, throttled: Option<PolicyError>)
    requires ReserveDenial(limits, Run(limits, Empty(), steps), key, s, throttled).None?
    ensures var r := Run(limits, Empty(), steps + [ReserveStep(key, s, throttled)]);
            |OfTenant(r, s)| <= limits.maxConnectionsPerTenant && |OfTenant(r, s)| <= s.maxConnectionsPerTenant
  {
    var q, all := Run(limits, Empty(), steps), steps + [ReserveStep(key, s, throttled)];
    assert all[..|all| - 1] == steps && all[|all| - 1] == ReserveStep(key, s, throttled);
    assert Run(limits, Empty(), all) == Next(limits, q, ReserveStep(key, s, throttled));
    hide Run;
    RoomForOneMore(limits, steps, s);
    hide QuotaDenial, ProviderConflict, OwnerConflict, ValidReservation, AddReservation, AddOwner, Admitted, OfActor, OfDocument;
    ReservedTenant(q, key, s);
  }

  lemma ReservedTenant(r: Registry, key: Str, s: Scope)
    ensures OfTenant(Reserved(r, key, s), s) == OfTenant(r, s) + {key}
  {
    hide AddReservation, AddOwner, Admitted;
  }

  lemma SessionMembers(r: Registry, s: Scope)
    ensures OfActor(r, s) == Members(r.sessions, SessionActor, ActorKey(s))
    ensures OfDocument(r, s) == Members(r.sessions, SessionDocument, DocumentKey(s))
    ensures OfTenant(r, s) == Members(r.sessions, SessionTenant, s.tenantId)
  {
    hide ActorKey, DocumentKey;
  }

  /** Accepted reservations are the released, the rolled back and the live ones. */
  lemma NothingLost(limits: Limits, steps: seq<Step>)
    ensures var r := Run(limits, Empty(), steps);
            r.totals.accepted == r.totals.released + r.totals.rollbackAuthentication + r.totals.rollbackLoad
                                 + r.totals.rollbackSetup + |r.sessions|
  {
    EmptyInv(limits);
    RunInv(limits, Empty(), steps);
  }

  /** A token was issued, and its session is gone. */
  predicate Gone(r: Registry, key: Str, token: nat)
  {
    token < r.issued && !IsCurrent(r, key, token)
  }

  lemma {:induction false} StaysGone(limits: Limits, r: Registry, steps: seq<Step>, key: Str, token: nat)
    requires Gone(r, key, token)
    ensures Gone(Run(limits, r, steps), key, token)
    decreases |steps|
  {
    if steps == [] {
    } else {
      StaysGone(limits, r, steps[..|steps| - 1], key, token);
      hide DropReservation, DropOwner, AddReservation, AddOwner, Released, ReserveDenial, Admitted;
    }
  }

  /** Whatever happened since a session was closed, also a new session under the
      same key: its old handle can neither close nor commit anything. */
  lemma StaleHandle(limits: Limits, r: Registry, steps: seq<Step>, key: Str, token: nat, outcome: Outcome)
    requires Gone(r, key, token)
    ensures var now := Run(limits, r, steps);
            Next(limits, now, CloseHandle(key, token, outcome)) == now && Next(limits, now, CommitHandle(key, token)) == now
  {
    StaysGone(limits, r, steps, key, token);
  }

  /** Closing a session makes its handle stale. */
  lemma ClosedIsGone(limits: Limits, r: Registry, key: Str, token: nat, outcome: Outcome)
    requires Inv(limits, r) && IsCurrent(r, key, token)
    ensures Gone(Close(r, key, token, outcome), key, token)
  {
    hide QuotasInv, IndexInv, CountersInv, Agrees;
  }

  // ----- the object -----

  function Throttle(policy: RuntimeConnectionPolicy, s: Scope, now: int): Option<PolicyError>
    reads policy
  {
    if !ValidClock(now) then Some(PolicyClockInvalid)
    else ReconnectDenial(policy.limits, policy.reconnects, ActorKey(s), now)
  }

  class RuntimeSessionRegistry {
    const admission: RuntimeConnectionPolicy
    var canonicalOwners: Owners
    var providerScopes: Reservations
    var sessions: map<Str, Session>
    var totals: Totals
    var tokens: nat

    function State(): Registry
      reads this, admission
    {
      Registry(sessions, providerScopes, canonicalOwners, totals, tokens, admission.Counters())
    }

    ghost predicate Valid()
      reads this, admission
    {
      Inv(admission.limits, State())
    }

    constructor (admission: RuntimeConnectionPolicy)
      requires admission.Counters() == Empty().quotas
      ensures Valid() && this.admission == admission && State() == Empty()
    {
      this.admission := admission;
      canonicalOwners, providerScopes, sessions, totals, tokens := map[], map[], map[], Totals(0, 0, 0, 0, 0, 0), 0;
      new;
      EmptyInv(admission.limits);
    }

    method Deny(error: RegistryError) returns (r: Result<nat, RegistryError>)
      requires Valid()
      modifies this`totals
      ensures Valid() && State() == Denied(old(State())) && r == Err(error)
    {
      DeniedInv(admission.limits, State());
      totals := totals.(denied := totals.denied + 1);
      r := Err(error);
    }

    /** Checks both directions of the index, then asks for admission. */
    method Reserve(sessionKey: Str, candidate: Scope, now: int) returns (r: Result<nat, RegistryError>)
      requires Valid()
      modifies this, admission
      ensures Valid()
      ensures var denial := old(ReserveDenial(admission.limits, State(), sessionKey, candidate,
                                              Throttle(admission, candidate, now)));
              if denial.Some? then r == Err(denial.value) && State() == Denied(old(State()))
              else r == Ok(old(tokens)) && State() == Reserved(old(State()), sessionKey, candidate)
    {
      hide Inv, ValidKeyPart, ProviderConflict, OwnerConflict, ReconnectDenial, QuotaDenial, AddReservation, AddOwner;
      if !ValidKeyPart(sessionKey, 1_024) || !ValidReservation(candidate) {
        r := Deny(InvalidSessionReservation);
        return;
      }
      if sessionKey in sessions {
        r := Deny(DuplicateSessionReservation);
        return;
      }
      if ProviderConflict(providerScopes, candidate) || OwnerConflict(canonicalOwners, candidate) {
        r := Deny(DocumentScopeConflict);
        return;
      }
      r := Admit(sessionKey, candidate, now);
    }

    method Admit(sessionKey: Str, scope: Scope, now: int) returns (r: Result<nat, RegistryError>)
      requires Valid() && ValidReservation(scope) && sessionKey !in sessions && ValidKeyPart(sessionKey, 1_024)
      requires !ProviderConflict(providerScopes, scope) && !OwnerConflict(canonicalOwners, scope)
      modifies this, admission
      ensures Valid()
      ensures var denial := old(ReserveDenial(admission.limits, State(), sessionKey, scope, Throttle(admission, scope, now)));
              if denial.Some? then r == Err(denial.value) && State() == Denied(old(State()))
              else r == Ok(old(tokens)) && State() == Reserved(old(State()), sessionKey, scope)
    {
      ghost var before := State();
      ReservedIfAllowed(admission.limits, before, sessionKey, scope);
      ActorOf(scope);
      hide Inv, QuotasInv, ProviderConflict, OwnerConflict, ReconnectDenial, QuotaDenial, ActorKey, ValidReservation,
           ValidScope, LeaseOf, Admitted, Installed;
      var lease := admission.Acquire(scope, now);
      if lease.Err? {
        r := Deny(AdmissionDenied(lease.error));
        return;
      }
      r := Ok(tokens);
      Install(sessionKey, scope, lease.value);
    }

    method Install(sessionKey: Str, scope: Scope, lease: nat)
      requires Inv(admission.limits, Installed(State(), sessionKey, scope, lease))
      modifies this
      ensures Valid() && State() == Installed(old(State()), sessionKey, scope, lease)
    {
      hide Inv, AddReservation, AddOwner;
      providerScopes, canonicalOwners := AddReservation(providerScopes, scope), AddOwner(canonicalOwners, scope);
      sessions := sessions[sessionKey := Session(lease, Pending, scope, tokens)];
      totals, tokens := totals.(accepted := totals.accepted + 1), tokens + 1;
    }

    /** Marks a session active; repeating it is safe. */
    method CommitSession(sessionKey: Str) returns (error: Option<RegistryError>)
      requires Valid()
      modifies this
      ensures Valid()
      ensures error == if !ValidKeyPart(sessionKey, 1_024) then Some(InvalidSessionReservation)
                       else if sessionKey !in old(sessions) then Some(ReservationNotFound) else None
      ensures State() == if error.None? then Commit(old(State()), sessionKey) else old(State())
    {
      if !ValidKeyPart(sessionKey, 1_024) {
        return Some(InvalidSessionReservation);
      }
      if sessionKey !in sessions {
        return Some(ReservationNotFound);
      }
      CommittedInv(admission.limits, State(), sessionKey);
      hide Inv;
      sessions := sessions[sessionKey := sessions[sessionKey].(phase := Active)];
      return None;
    }

    /** What a reservation handle does when it commits. */
    method CommitExact(sessionKey: Str, token: nat) returns (error: Option<RegistryError>)
      requires Valid()
      modifies this
      ensures Valid()
      ensures error == if IsCurrent(old(State()), sessionKey, token) then None else Some(ReservationNotFound)
      ensures State() == Next(admission.limits, old(State()), CommitHandle(sessionKey, token))
    {
      if sessionKey !in sessions || sessions[sessionKey].token != token {
        return Some(ReservationNotFound);
      }
      CommittedInv(admission.limits, State(), sessionKey);
      hide Inv;
      sessions := sessions[sessionKey := sessions[sessionKey].(phase := Active)];
      return None;
    }

    /** What a reservation handle does when it releases or rolls back. */
    method CloseExact(sessionKey: Str, token: nat, outcome: Outcome) returns (closed: Option<Closed>)
      requires Valid()
      modifies this, admission
      ensures Valid()
      ensures State() == Close(old(State()), sessionKey, token, outcome)
      ensures closed == if IsCurrent(old(State()), sessionKey, token) then
                          Some(Closed(old(sessions)[sessionKey].scope.capability, old(sessions)[sessionKey].phase))
                        else None
    {
      ClosedInv(admission.limits, State(), sessionKey, token, outcome);
      hide Inv, QuotasInv, Close;
      if sessionKey !in sessions || sessions[sessionKey].token != token {
        return None;
      }
      var record := sessions[sessionKey];
      Remove(sessionKey, outcome);
      return Some(Closed(record.scope.capability, record.phase));
    }

    method Remove(sessionKey: Str, outcome: Outcome)
      requires admission.Valid() && sessionKey in sessions
      requires Inv(admission.limits, Close(State(), sessionKey, sessions[sessionKey].token, outcome))
      modifies this, admission
      ensures Valid()
      ensures State() == Close(old(State()), sessionKey, old(sessions)[sessionKey].token, outcome)
    {
      hide Inv, QuotasInv, DropReservation, DropOwner, Released;
      var record := sessions[sessionKey];
      sessions := sessions - {sessionKey};
      providerScopes := DropReservation(providerScopes, record.scope);
      canonicalOwners := DropOwner(canonicalOwners, record.scope);
      admission.Release(record.lease);
      totals := CountedIn(totals, outcome);
    }

    /** The fallback that has only the session key. */
    method CloseSession(sessionKey: Str, outcome: Outcome) returns (r: Result<Option<Closed>, RegistryError>)
      requires Valid()
      modifies this, admission
      ensures Valid()
      ensures r.Err? <==> !ValidKeyPart(sessionKey, 1_024)
      ensures r.Err? ==> r.error == InvalidSessionReservation
      ensures r.Ok? ==> (r.value.Some? <==> sessionKey in old(sessions))
      ensures State() == if r.Ok? then Next(admission.limits, old(State()), CloseKey(sessionKey, outcome)) else old(State())
    {
      hide Inv, ValidKeyPart;
      if !ValidKeyPart(sessionKey, 1_024) {
        return Err(InvalidSessionReservation);
      }
      if sessionKey !in sessions {
        return Ok(None);
      }
      var closed := CloseExact(sessionKey, sessions[sessionKey].token, outcome);
      return Ok(closed);
    }
  }

  lemma ActorOf(s: Scope)
    requires ValidReservation(s)
    ensures ValidScope(s)
  {
  }

  lemma ReservedIfAllowed(limits: Limits, r: Registry, key: Str, s: Scope)
    requires Inv(limits, r)
    ensures QuotasInv(limits, r.quotas)
    ensures ReserveDenial(limits, r, key, s, None).None? ==> Inv(limits, Reserved(r, key, s))
  {
    if ReserveDenial(limits, r, key, s, None).None? {
      ReservedInv(limits, r, key, s);
    }
  }
}
