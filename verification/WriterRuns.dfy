/** Any number of nodes over one coordinator: grants, flushes, swaps, crashes. */
module WriterRuns {
  import opened Wrappers
  import opened WriterFencing

  /** The documents, what each node remembers of its leases, the clock, and whether
      the persistence dependency is up. */
  datatype System = System(docs: Documents, leases: map<(NodeId, Scope), nat>, now: int, persistence: bool)

  /** A drain is the flushes of its leases followed by a release; a crash is a
      release alone. A flush may be tried with any fence at all. */
  datatype Step =
    | Tick(ms: nat)
    | SetPersistence(available: bool)
    | Touch(scope: Scope)
    | Acquire(node: NodeId, scope: Scope)
    | Takeover(node: NodeId, scope: Scope)
    | Mutate(scope: Scope)
    | Flush(node: NodeId, scope: Scope, fence: nat)
    | Swap(scope: Scope)
    | ReleaseAll(node: NodeId)

  function Put(s: System, scope: Scope, d: Document): System
  {
    s.(docs := s.docs[scope.Doc() := d])
  }

  /** Whether `node` gets (or keeps) the writer lease in this step. */
  predicate Grants(s: System, step: Step, leaseMs: nat)
  {
    (step.Acquire? || step.Takeover?) && s.persistence
    && Get(s.docs, step.scope).generation == step.scope.generation
    && Ensured(Get(s.docs, step.scope), step.node, s.now, leaseMs).writerNodeId == Some(step.node)
  }

  predicate Flushes(s: System, step: Step)
  {
    step.Flush? && s.persistence && Current(Get(s.docs, step.scope), step.scope, step.node, step.fence)
  }

  function Next(s: System, step: Step, leaseMs: nat): System
  {
    match step
    case Tick(ms) => s.(now := s.now + ms)
    case SetPersistence(available) => s.(persistence := available)
    case Touch(scope) => Put(s, scope, Get(s.docs, scope))
    case Acquire(node, scope) => Granting(s, step, leaseMs)
    case Takeover(node, scope) => Granting(s, step, leaseMs)
    case Mutate(scope) =>
      var d := Get(s.docs, scope);
      Put(s, scope, if d.generation == scope.generation then d.(watermark := d.watermark + 1) else d)
    case Flush(node, scope, fence) =>
      if !s.persistence then s
      else Put(s, scope, if Flushes(s, step) then Flushed(Get(s.docs, scope), s.now, leaseMs) else Get(s.docs, scope))
    case Swap(scope) =>
      var d := Get(s.docs, scope);
      Put(s, scope, if d.generation == scope.generation then Swapped(d) else d)
    case ReleaseAll(node) => s.(docs := Released(s.docs, node))
  }

  /** A granted lease is remembered by the node under the fence of the document. */
  function Granting(s: System, step: Step, leaseMs: nat): System
    requires step.Acquire? || step.Takeover?
  {
    if Grants(s, step, leaseMs) then
      var d := Ensured(Get(s.docs, step.scope), step.node, s.now, leaseMs);
      Put(s, step.scope, d).(leases := s.leases[(step.node, step.scope) := d.fenceEpoch])
    else if s.persistence then Put(s, step.scope, Get(s.docs, step.scope))
    else s
  }

  function At(steps: seq<Step>, n: nat, leaseMs: nat): System
    requires n <= |steps|
  {
    if n == 0 then System(map[], map[], 0, true) else Next(At(steps, n - 1, leaseMs), steps[n - 1], leaseMs)
  }

  // ----- one step -----

  lemma OneDocument(docs: Documents, scope: Scope, d: Document)
    requires Later(Get(docs, scope), d)
    ensures Evolve(docs, docs[scope.Doc() := d])
  {
  }

  lemma EnsuredLater(d: Document, node: NodeId, now: int, leaseMs: nat)
    ensures Later(d, Ensured(d, node, now, leaseMs))
  {
  }

  lemma StepEvolves(s: System, step: Step, leaseMs: nat)
    ensures Evolve(s.docs, Next(s, step, leaseMs).docs)
  {
    if step.Acquire? || step.Takeover? {
      EnsuredLater(Get(s.docs, step.scope), step.node, s.now, leaseMs);
    }
    var t := Next(s, step, leaseMs);
    if !step.ReleaseAll? && t.docs != s.docs {
      OneDocument(s.docs, step.scope, t.docs[step.scope.Doc()]);
    }
  }

  /** The writer of a document is the node that holds its current fence. */
  ghost predicate WritersRemember(s: System)
  {
    forall id :: id in s.docs && s.docs[id].writerNodeId.Some? ==>
      var key := (s.docs[id].writerNodeId.value, Scope(id.tenantId, id.documentId, s.docs[id].generation));
      key in s.leases && s.leases[key] == s.docs[id].fenceEpoch
  }

  ghost predicate PersistedBehind(s: System)
  {
    forall id :: id in s.docs ==> s.docs[id].persistedWatermark <= s.docs[id].watermark
  }

  /** A step that only replaces the document of a scope. */
  lemma PutInv(s: System, scope: Scope, d: Document)
    requires WritersRemember(s) && PersistedBehind(s)
    requires d.persistedWatermark <= d.watermark
    requires d.writerNodeId.Some? ==>
               scope.Doc() in s.docs && d.writerNodeId == s.docs[scope.Doc()].writerNodeId
               && d.generation == s.docs[scope.Doc()].generation && d.fenceEpoch == s.docs[scope.Doc()].fenceEpoch
    ensures WritersRemember(Put(s, scope, d)) && PersistedBehind(Put(s, scope, d))
  {
  }

  lemma GrantingInv(s: System, step: Step, leaseMs: nat)
    requires WritersRemember(s) && PersistedBehind(s) && (step.Acquire? || step.Takeover?)
    ensures WritersRemember(Granting(s, step, leaseMs)) && PersistedBehind(Granting(s, step, leaseMs))
  {
  }

  lemma StepInv(s: System, step: Step, leaseMs: nat)
    requires WritersRemember(s) && PersistedBehind(s)
    ensures WritersRemember(Next(s, step, leaseMs)) && PersistedBehind(Next(s, step, leaseMs))
  {
    match step
    case Tick(_) =>
    case SetPersistence(_) =>
    case Acquire(_, _) => GrantingInv(s, step, leaseMs);
    case Takeover(_, _) => GrantingInv(s, step, leaseMs);
    case ReleaseAll(_) =>
    case Touch(scope) => PutInv(s, scope, Get(s.docs, scope));
    case Mutate(scope) => PutInv(s, scope, Next(s, step, leaseMs).docs[scope.Doc()]);
    case Flush(_, scope, _) =>
      if s.persistence { PutInv(s, scope, Next(s, step, leaseMs).docs[scope.Doc()]); }
    case Swap(scope) => PutInv(s, scope, Next(s, step, leaseMs).docs[scope.Doc()]);
  }

  // ----- whole runs -----

  lemma {:induction false} RunEvolves(steps: seq<Step>, i: nat, j: nat, leaseMs: nat)
    requires i <= j <= |steps|
    ensures Evolve(At(steps, i, leaseMs).docs, At(steps, j, leaseMs).docs)
  {
    if i < j {
      RunEvolves(steps, i, j - 1, leaseMs);
      StepEvolves(At(steps, j - 1, leaseMs), steps[j - 1], leaseMs);
      hide Later, Next;
      EvolveTransitive(At(steps, i, leaseMs).docs, At(steps, j - 1, leaseMs).docs, At(steps, j, leaseMs).docs);
    }
  }

  /** In every reachable state nothing is persisted ahead of the document, and every
      writer remembers its lease, so that its drain will flush the document. */
  lemma {:induction false} RunInv(steps: seq<Step>, n: nat, leaseMs: nat)
    requires n <= |steps|
    ensures WritersRemember(At(steps, n, leaseMs)) && PersistedBehind(At(steps, n, leaseMs))
  {
    if n > 0 {
      RunInv(steps, n - 1, leaseMs);
      StepInv(At(steps, n - 1, leaseMs), steps[n - 1], leaseMs);
    }
  }

  /** Inside one generation neither watermark ever falls, and the fence epoch of a
      document never falls at all. */
  lemma NothingFalls(steps: seq<Step>, i: nat, j: nat, id: DocId, leaseMs: nat)
    requires i <= j <= |steps| && id in At(steps, i, leaseMs).docs
    ensures id in At(steps, j, leaseMs).docs
    ensures var d, e := At(steps, i, leaseMs).docs[id], At(steps, j, leaseMs).docs[id];
            && d.fenceEpoch <= e.fenceEpoch && d.generation <= e.generation
            && (d.generation == e.generation ==>
                  d.watermark <= e.watermark && d.persistedWatermark <= e.persistedWatermark)
            && e.persistedWatermark <= e.watermark
  {
    RunEvolves(steps, i, j, leaseMs);
    RunInv(steps, i, leaseMs);
    RunInv(steps, j, leaseMs);
    assert Later(At(steps, i, leaseMs).docs[id], At(steps, j, leaseMs).docs[id]);
  }

  /** Step `i` grants `fence` on document `id` to `node`. */
  predicate GrantedAt(steps: seq<Step>, i: nat, node: NodeId, id: DocId, fence: nat, leaseMs: nat)
  {
    i < |steps| && Grants(At(steps, i, leaseMs), steps[i], leaseMs)
    && steps[i].node == node && steps[i].scope.Doc() == id
    && Ensured(Get(At(steps, i, leaseMs).docs, steps[i].scope), node, At(steps, i, leaseMs).now, leaseMs).fenceEpoch == fence
  }

  lemma GrantedState(steps: seq<Step>, i: nat, node: NodeId, id: DocId, fence: nat, leaseMs: nat)
    requires GrantedAt(steps, i, node, id, fence, leaseMs)
    ensures id in At(steps, i + 1, leaseMs).docs
    ensures At(steps, i + 1, leaseMs).docs[id].writerNodeId == Some(node)
    ensures At(steps, i + 1, leaseMs).docs[id].fenceEpoch == fence
  {
    var s := At(steps, i, leaseMs);
    assert At(steps, i + 1, leaseMs) == Next(s, steps[i], leaseMs);
  }

  lemma GrantedOnceOrdered(steps: seq<Step>, i: nat, j: nat, n: NodeId, m: NodeId, id: DocId, fence: nat, leaseMs: nat)
    requires i <= j
    requires GrantedAt(steps, i, n, id, fence, leaseMs) && GrantedAt(steps, j, m, id, fence, leaseMs)
    ensures n == m
  {
    GrantedState(steps, i, n, id, fence, leaseMs);
    GrantedState(steps, j, m, id, fence, leaseMs);
    RunEvolves(steps, i + 1, j + 1, leaseMs);
    assert Later(At(steps, i + 1, leaseMs).docs[id], At(steps, j + 1, leaseMs).docs[id]);
  }

  /** Each fence of a document is granted to at most one node, ever. */
  lemma GrantedOnce(steps: seq<Step>, i: nat, j: nat, n: NodeId, m: NodeId, id: DocId, fence: nat, leaseMs: nat)
    requires GrantedAt(steps, i, n, id, fence, leaseMs) && GrantedAt(steps, j, m, id, fence, leaseMs)
    ensures n == m
  {
    if i <= j {
      GrantedOnceOrdered(steps, i, j, n, m, id, fence, leaseMs);
    } else {
      GrantedOnceOrdered(steps, j, i, m, n, id, fence, leaseMs);
    }
  }

  /** Once another node has been granted a fence, the older one never flushes again. */
  lemma SupersededForever(steps: seq<Step>, i: nat, j: nat, k: nat, n: NodeId, m: NodeId, id: DocId,
                          fence: nat, fence': nat, leaseMs: nat)
    requires i < j < k < |steps| && n != m
    requires GrantedAt(steps, i, n, id, fence, leaseMs) && GrantedAt(steps, j, m, id, fence', leaseMs)
    requires steps[k].Flush? && steps[k].scope.Doc() == id && steps[k].fence == fence
    ensures fence < fence' && !Flushes(At(steps, k, leaseMs), steps[k])
  {
    GrantedState(steps, i, n, id, fence, leaseMs);
    GrantedState(steps, j, m, id, fence', leaseMs);
    RunEvolves(steps, i + 1, j + 1, leaseMs);
    RunEvolves(steps, j + 1, k, leaseMs);
    assert Later(At(steps, i + 1, leaseMs).docs[id], At(steps, j + 1, leaseMs).docs[id]);
    assert Later(At(steps, j + 1, leaseMs).docs[id], At(steps, k, leaseMs).docs[id]);
  }

  /** A generation swap fences every writer of the generations before it. */
  lemma SwapFences(steps: seq<Step>, i: nat, j: nat, scope: Scope, leaseMs: nat)
    requires i < j < |steps| && steps[i] == Swap(scope)
    requires Get(At(steps, i, leaseMs).docs, scope).generation == scope.generation
    requires steps[j].Flush? && steps[j].scope.Doc() == scope.Doc()
    requires steps[j].scope.generation <= scope.generation || steps[j].fence <= Get(At(steps, i, leaseMs).docs, scope).fenceEpoch
    ensures !Flushes(At(steps, j, leaseMs), steps[j])
  {
    assert At(steps, i + 1, leaseMs) == Next(At(steps, i, leaseMs), steps[i], leaseMs);
    RunEvolves(steps, i + 1, j, leaseMs);
    assert Later(At(steps, i + 1, leaseMs).docs[scope.Doc()], At(steps, j, leaseMs).docs[scope.Doc()]);
  }

  /** Whoever flushes holds a fence that was granted to it. */
  lemma {:induction false} WriterWasGranted(steps: seq<Step>, n: nat, id: DocId, leaseMs: nat) returns (i: nat)
    requires n <= |steps| && id in At(steps, n, leaseMs).docs && At(steps, n, leaseMs).docs[id].writerNodeId.Some?
    ensures i < n && GrantedAt(steps, i, At(steps, n, leaseMs).docs[id].writerNodeId.value, id,
                               At(steps, n, leaseMs).docs[id].fenceEpoch, leaseMs)
  {
    var s, step := At(steps, n - 1, leaseMs), steps[n - 1];
    var d := At(steps, n, leaseMs).docs[id];
    if id in s.docs && s.docs[id].writerNodeId == d.writerNodeId && s.docs[id].fenceEpoch == d.fenceEpoch {
      i := WriterWasGranted(steps, n - 1, id, leaseMs);
    } else {
      i := n - 1;
    }
  }

  // ----- drains -----

  /** The leases that a node remembers. */
  function Remembered(s: System, node: NodeId): Leases
  {
    map scope | scope in (set key | key in s.leases && key.0 == node :: key.1) :: s.leases[(node, scope)]
  }

  /** When a drain of the node completes. */
  predicate Drains(s: System, node: NodeId)
  {
    Remembered(s, node) == map[] || (s.persistence && AllCurrent(s.docs, Remembered(s, node), node))
  }

  /** What a completed drain leaves of the documents. */
  function Drained(s: System, node: NodeId, leaseMs: nat): Documents
  {
    Released(AllFlushed(s.docs, Remembered(s, node).Keys, s.now, leaseMs), node)
  }

  /** In every run a drain that completes has flushed every document that the node
      wrote, and it writes none any more. */
  lemma DrainFlushesAll(steps: seq<Step>, n: nat, leaseMs: nat, node: NodeId, id: DocId)
    requires n <= |steps| && Drains(At(steps, n, leaseMs), node) && id in At(steps, n, leaseMs).docs
    ensures var d, e := At(steps, n, leaseMs).docs[id], Drained(At(steps, n, leaseMs), node, leaseMs)[id];
            && e.writerNodeId != Some(node)
            && (d.writerNodeId == Some(node) ==> e.persistedWatermark == e.watermark == d.watermark)
  {
    RunInv(steps, n, leaseMs);
    var s := At(steps, n, leaseMs);
    var scope := Scope(id.tenantId, id.documentId, s.docs[id].generation);
    assert scope.Doc() == id;
    if s.docs[id].writerNodeId == Some(node) {
      assert (node, scope) in s.leases;
      assert scope in Remembered(s, node).Keys;
    }
  }

  // ----- drains that never complete -----

  /** Whatever happens after `s`. */
  function After(s: System, more: seq<Step>, leaseMs: nat): System
    decreases |more|
  {
    if more == [] then s else Next(After(s, more[..|more| - 1], leaseMs), more[|more| - 1], leaseMs)
  }

  /** Some later drain of the node completes. */
  ghost predicate MayDrain(s: System, node: NodeId, leaseMs: nat)
  {
    exists more: seq<Step> :: Drains(After(s, more, leaseMs), node)
  }

  /** No lease that the node remembers is of a generation that was swapped away. */
  ghost predicate NoneSwapped(s: System, node: NodeId)
  {
    forall scope :: scope in Remembered(s, node) ==> Get(s.docs, scope).generation == scope.generation
  }

  /** Leases are never ahead of their documents. */
  ghost predicate LeasesBehind(s: System)
  {
    forall key :: key in s.leases ==> key.1.Doc() in s.docs && key.1.generation <= s.docs[key.1.Doc()].generation
  }

  /** Leases are never forgotten, and a document that has moved on stays ahead. */
  lemma StepKeepsLeases(s: System, step: Step, leaseMs: nat)
    requires LeasesBehind(s)
    ensures LeasesBehind(Next(s, step, leaseMs)) && s.leases.Keys <= Next(s, step, leaseMs).leases.Keys
  {
    StepEvolves(s, step, leaseMs);
    var t := Next(s, step, leaseMs);
    forall key | key in t.leases ensures key.1.Doc() in t.docs && key.1.generation <= t.docs[key.1.Doc()].generation {
      if key in s.leases {
        assert Later(s.docs[key.1.Doc()], t.docs[key.1.Doc()]);
      }
    }
  }

  lemma {:induction false} RunKeepsLeases(steps: seq<Step>, n: nat, leaseMs: nat)
    requires n <= |steps|
    ensures LeasesBehind(At(steps, n, leaseMs))
  {
    if n > 0 {
      RunKeepsLeases(steps, n - 1, leaseMs);
      hide Next, LeasesBehind;
      StepKeepsLeases(At(steps, n - 1, leaseMs), steps[n - 1], leaseMs);
    }
  }

  lemma {:induction false} AfterKeeps(s: System, more: seq<Step>, leaseMs: nat)
    requires LeasesBehind(s)
    ensures LeasesBehind(After(s, more, leaseMs)) && s.leases.Keys <= After(s, more, leaseMs).leases.Keys
    ensures Evolve(s.docs, After(s, more, leaseMs).docs)
    decreases |more|
  {
    if more != [] {
      var init := After(s, more[..|more| - 1], leaseMs);
      AfterKeeps(s, more[..|more| - 1], leaseMs);
      hide Next, LeasesBehind, Later;
      StepKeepsLeases(init, more[|more| - 1], leaseMs);
      StepEvolves(init, more[|more| - 1], leaseMs);
      EvolveTransitive(s.docs, init.docs, After(s, more, leaseMs).docs);
    }
  }

  /** After a generation swap no drain of a node that remembers a lease of the swapped
      generation ever completes again. */
  lemma SwappedNeverDrains(s: System, more: seq<Step>, node: NodeId, leaseMs: nat)
    requires LeasesBehind(s) && !NoneSwapped(s, node)
    ensures !Drains(After(s, more, leaseMs), node)
  {
    AfterKeeps(s, more, leaseMs);
    var t := After(s, more, leaseMs);
    hide After, Next;
    var scope :| scope in Remembered(s, node) && Get(s.docs, scope).generation != scope.generation;
    assert (node, scope) in t.leases && Later(s.docs[scope.Doc()], t.docs[scope.Doc()]);
    assert scope in Remembered(t, node);
    assert !Current(Get(t.docs, scope), scope, node, Remembered(t, node)[scope]);
  }

  lemma AfterOne(s: System, step: Step, more: seq<Step>, leaseMs: nat)
    ensures After(s, [step] + more, leaseMs) == After(Next(s, step, leaseMs), more, leaseMs)
    decreases |more|
  {
    hide Next;
    if more == [] {
      assert [step] + more == [step];
      assert After(s, [], leaseMs) == s;
      assert [step][..0] == [];
    } else {
      var n := |more| - 1;
      AfterOne(s, step, more[..n], leaseMs);
      assert ([step] + more)[..n + 1] == [step] + more[..n];
    }
  }

  function Wait(d: Document, now: int): nat
  {
    if d.writerLeaseExpiresAt.Some? && d.writerLeaseExpiresAt.value > now then d.writerLeaseExpiresAt.value - now
    else if now < 0 then 0 - now else 0
  }

  /** The node waits until the lease of a document is over and takes it again. */
  function Regained(s: System, node: NodeId, scope: Scope, leaseMs: nat): System
  {
    Next(Next(s, Tick(Wait(Get(s.docs, scope), s.now)), leaseMs), Takeover(node, scope), leaseMs)
  }

  lemma RegainedOne(s: System, node: NodeId, scope: Scope, leaseMs: nat)
    requires s.persistence && LeasesBehind(s) && NoneSwapped(s, node) && scope in Remembered(s, node)
    ensures var t := Regained(s, node, scope, leaseMs);
            && t.persistence && NoneSwapped(t, node) && Remembered(t, node).Keys == Remembered(s, node).Keys
            && Current(Get(t.docs, scope), scope, node, Remembered(t, node)[scope])
            && (forall other :: other in Remembered(s, node) && other != scope ==>
                  (Current(Get(s.docs, other), other, node, Remembered(s, node)[other]) ==>
                   Current(Get(t.docs, other), other, node, Remembered(t, node)[other])))
  {
    var d := Get(s.docs, scope);
    var u := Next(s, Tick(Wait(d, s.now)), leaseMs);
    var t := Regained(s, node, scope, leaseMs);
    assert LeaseOver(d, u.now) && Get(u.docs, scope) == d;
    var e := Ensured(d, node, u.now, leaseMs);
    assert e.writerNodeId == Some(node) && e.generation == scope.generation;
    assert Grants(u, Takeover(node, scope), leaseMs);
    assert t == Put(u, scope, e).(leases := s.leases[(node, scope) := e.fenceEpoch]);
    hide Next, Ensured, Grants, Granting, Wait, LeaseOver;
    assert (node, scope) in s.leases;
    assert t.leases.Keys == s.leases.Keys;
    assert Remembered(t, node).Keys == Remembered(s, node).Keys;
    forall other | other in Remembered(s, node) && other != scope
      ensures other.Doc() != scope.Doc() && Remembered(t, node)[other] == Remembered(s, node)[other]
      ensures Get(t.docs, other) == Get(s.docs, other)
    {
      assert (node, other) in s.leases && Get(s.docs, other).generation == other.generation;
      assert other.Doc() == scope.Doc() ==> other == scope;
    }
  }

  lemma {:induction false} RegainAll(s: System, node: NodeId, todo: set<Scope>, leaseMs: nat) returns (more: seq<Step>)
    requires s.persistence && LeasesBehind(s) && NoneSwapped(s, node) && todo <= Remembered(s, node).Keys
    requires forall scope :: scope in Remembered(s, node) && scope !in todo ==>
               Current(Get(s.docs, scope), scope, node, Remembered(s, node)[scope])
    ensures Drains(After(s, more, leaseMs), node)
    decreases |todo|
  {
    if todo == {} {
      more := [];
    } else {
      var scope :| scope in todo;
      var t := Regained(s, node, scope, leaseMs);
      RegainedOne(s, node, scope, leaseMs);
      StepKeepsLeases(s, Tick(Wait(Get(s.docs, scope), s.now)), leaseMs);
      StepKeepsLeases(Next(s, Tick(Wait(Get(s.docs, scope), s.now)), leaseMs), Takeover(node, scope), leaseMs);
      hide LeasesBehind, NoneSwapped, Current, Get, Drains, After, Next, Remembered;
      assert |todo - {scope}| < |todo|;
      var rest := RegainAll(t, node, todo - {scope}, leaseMs);
      var wait, take := Tick(Wait(Get(s.docs, scope), s.now)), Takeover(node, scope);
      more := [wait] + ([take] + rest);
      AfterOne(s, wait, [take] + rest, leaseMs);
      AfterOne(Next(s, wait, leaseMs), take, rest, leaseMs);
    }
  }

  /** In every run some later drain of a node can complete exactly if none of the leases
      that it remembers is of a generation that was swapped away. */
  lemma MayDrainIff(steps: seq<Step>, n: nat, node: NodeId, leaseMs: nat)
    requires n <= |steps|
    ensures MayDrain(At(steps, n, leaseMs), node, leaseMs) <==> NoneSwapped(At(steps, n, leaseMs), node)
  {
    RunKeepsLeases(steps, n, leaseMs);
    hide At, LeasesBehind, NoneSwapped, MayDrain;
    MayDrainInState(At(steps, n, leaseMs), node, leaseMs);
  }

  lemma MayDrainInState(s: System, node: NodeId, leaseMs: nat)
    requires LeasesBehind(s)
    ensures MayDrain(s, node, leaseMs) <==> NoneSwapped(s, node)
  {
    hide LeasesBehind, Drains, After, NoneSwapped;
    if NoneSwapped(s, node) {
      var more := RegainFromDown(s, node, leaseMs);
    } else {
      forall more: seq<Step> ensures !Drains(After(s, more, leaseMs), node) {
        SwappedNeverDrains(s, more, node, leaseMs);
      }
    }
  }

  /** Once persistence is up again, the node can regain everything. */
  lemma RegainFromDown(s: System, node: NodeId, leaseMs: nat) returns (more: seq<Step>)
    requires LeasesBehind(s) && NoneSwapped(s, node)
    ensures Drains(After(s, more, leaseMs), node)
  {
    var t := Next(s, SetPersistence(true), leaseMs);
    assert t == s.(persistence := true) && Remembered(t, node) == Remembered(s, node);
    assert NoneSwapped(t, node) && LeasesBehind(t);
    hide LeasesBehind, Next, NoneSwapped, Drains, After, Remembered, Current, Get;
    var rest := RegainAll(t, node, Remembered(t, node).Keys, leaseMs);
    AfterOne(s, SetPersistence(true), rest, leaseMs);
    more := [SetPersistence(true)] + rest;
  }
}
