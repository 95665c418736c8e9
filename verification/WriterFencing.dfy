/** Writer leases and fences: the shared coordinator, its nodes, and what their
    steps do to a document. */
module WriterFencing {
  import opened Wrappers
  import opened Text

  type NodeId = nat

  datatype DocId = DocId(tenantId: Str, documentId: Str)

  datatype Scope = Scope(tenantId: Str, documentId: Str, generation: int) {
    function Doc(): DocId { DocId(tenantId, documentId) }
  }

  datatype OperationsError =
    | DependencyUnavailable
    | StaleGeneration
    | StaleWriterFence
    | WriterLeaseActive

  datatype Document = Document(
    fenceEpoch: nat,
    generation: int,
    persistedWatermark: nat,
    watermark: nat,
    writerLeaseExpiresAt: Option<int>,
    writerNodeId: Option<NodeId>)

  type Documents = map<DocId, Document>

  // ----- one document -----

  function Fresh(scope: Scope): Document
  {
    Document(0, scope.generation, 0, 0, None, None)
  }

  /** The document of a scope; the first scope to name it fixes its generation. */
  function Get(docs: Documents, scope: Scope): Document
  {
    if scope.Doc() in docs then docs[scope.Doc()] else Fresh(scope)
  }

  function Touched(docs: Documents, scope: Scope): Documents
  {
    docs[scope.Doc() := Get(docs, scope)]
  }

  predicate LeaseOver(d: Document, now: int)
  {
    (if d.writerLeaseExpiresAt.Some? then d.writerLeaseExpiresAt.value else 0) <= now
  }

  /** `node` becomes the writer under the next epoch. */
  function Granted(d: Document, node: NodeId): Document
  {
    d.(writerNodeId := Some(node), fenceEpoch := d.fenceEpoch + 1)
  }

  function Renewed(d: Document, now: int, leaseMs: nat): Document
  {
    d.(writerLeaseExpiresAt := Some(now + leaseMs))
  }

  /** A writer keeps its lease, and takes one that is free or over. */
  function Ensured(d: Document, node: NodeId, now: int, leaseMs: nat): Document
  {
    if d.writerNodeId == Some(node) then Renewed(d, now, leaseMs)
    else if d.writerNodeId.None? || LeaseOver(d, now) then Renewed(Granted(d, node), now, leaseMs)
    else d
  }

  predicate Current(d: Document, scope: Scope, node: NodeId, fence: nat)
  {
    d.generation == scope.generation && d.writerNodeId == Some(node) && d.fenceEpoch == fence
  }

  function Flushed(d: Document, now: int, leaseMs: nat): Document
  {
    Renewed(d.(persistedWatermark := d.watermark), now, leaseMs)
  }

  function Swapped(d: Document): Document
  {
    Document(d.fenceEpoch + 1, d.generation + 1, 0, 0, None, None)
  }

  function Unwritten(d: Document, node: NodeId): Document
  {
    if d.writerNodeId == Some(node) then d.(writerNodeId := None, writerLeaseExpiresAt := None) else d
  }

  function Released(docs: Documents, node: NodeId): Documents
  {
    map id | id in docs :: Unwritten(docs[id], node)
  }

  class SharedRuntimeCoordinator {
    const writerLeaseMs: nat
    var documents: Documents
    var persistence: bool

    constructor (writerLeaseMs: nat)
      requires writerLeaseMs >= 1
      ensures documents == map[] && persistence && this.writerLeaseMs == writerLeaseMs
    {
      this.writerLeaseMs, documents, persistence := writerLeaseMs, map[], true;
    }

    method SetPersistence(available: bool)
      modifies this`persistence
      ensures persistence == available
    {
      persistence := available;
    }

    method GetDocument(scope: Scope) returns (document: Document)
      modifies this`documents
      ensures document == old(Get(documents, scope)) && documents == Touched(old(documents), scope)
    {
      if scope.Doc() in documents {
        return documents[scope.Doc()];
      }
      document := Document(0, scope.generation, 0, 0, None, None);
      documents := documents[scope.Doc() := document];
    }

    method EnsureWriterLease(nodeId: NodeId, scope: Scope, now: int) returns (r: Result<Option<nat>, OperationsError>)
      modifies this`documents
      ensures !persistence ==> r == Err(DependencyUnavailable) && documents == old(documents)
      ensures persistence ==>
              var before := old(Get(documents, scope));
              var after := if before.generation == scope.generation then Ensured(before, nodeId, now, writerLeaseMs) else before;
              documents == old(documents)[scope.Doc() := after]
              && r == if before.generation != scope.generation then Err(StaleGeneration)
                      else Ok(if after.writerNodeId == Some(nodeId) then Some(after.fenceEpoch) else None)
    {
      if !persistence {
        return Err(DependencyUnavailable);
      }
      var document := GetDocument(scope);
      if document.generation != scope.generation {
        return Err(StaleGeneration);
      }
      if document.writerNodeId.None? || (document.writerNodeId != Some(nodeId) && LeaseOver(document, now)) {
        document := document.(writerNodeId := Some(nodeId), fenceEpoch := document.fenceEpoch + 1);
        documents := documents[scope.Doc() := document];
      }
      if document.writerNodeId != Some(nodeId) {
        return Ok(None);
      }
      document := document.(writerLeaseExpiresAt := Some(now + writerLeaseMs));
      documents := documents[scope.Doc() := document];
      return Ok(Some(document.fenceEpoch));
    }

    method ForceWriterTakeover(nodeId: NodeId, scope: Scope, now: int) returns (r: Result<nat, OperationsError>)
      modifies this`documents
      ensures !persistence ==> r == Err(DependencyUnavailable) && documents == old(documents)
      ensures persistence ==>
              var before := old(Get(documents, scope));
              var refused := before.writerNodeId.Some? && before.writerNodeId != Some(nodeId) && !LeaseOver(before, now);
              var after := if before.generation == scope.generation && !refused then Ensured(before, nodeId, now, writerLeaseMs)
                           else before;
              documents == old(documents)[scope.Doc() := after]
              && r == if before.generation != scope.generation then Err(StaleGeneration)
                      else if refused then Err(WriterLeaseActive)
                      else Ok(after.fenceEpoch)
    {
      if !persistence {
        return Err(DependencyUnavailable);
      }
      var document := GetDocument(scope);
      if document.generation != scope.generation {
        return Err(StaleGeneration);
      }
      if document.writerNodeId.Some? && document.writerNodeId != Some(nodeId) && !LeaseOver(document, now) {
        return Err(WriterLeaseActive);
      }
      if document.writerNodeId != Some(nodeId) {
        document := document.(writerNodeId := Some(nodeId), fenceEpoch := document.fenceEpoch + 1);
      }
      document := document.(writerLeaseExpiresAt := Some(now + writerLeaseMs));
      documents := documents[scope.Doc() := document];
      return Ok(document.fenceEpoch);
    }

    /** A mutation that the connection checks let through. */
    method Mutate(scope: Scope) returns (r: Result<nat, OperationsError>)
      modifies this`documents
      ensures var before := old(Get(documents, scope));
              var after := if before.generation == scope.generation then before.(watermark := before.watermark + 1) else before;
              documents == old(documents)[scope.Doc() := after]
              && r == if before.generation == scope.generation then Ok(after.watermark) else Err(StaleGeneration)
    {
      var document := GetDocument(scope);
      if document.generation != scope.generation {
        return Err(StaleGeneration);
      }
      document := document.(watermark := document.watermark + 1);
      documents := documents[scope.Doc() := document];
      return Ok(document.watermark);
    }

    method Flush(nodeId: NodeId, scope: Scope, fenceEpoch: nat, now: int) returns (r: Result<nat, OperationsError>)
      modifies this`documents
      ensures !persistence ==> r == Err(DependencyUnavailable) && documents == old(documents)
      ensures persistence ==>
              var before := old(Get(documents, scope));
              var current := Current(before, scope, nodeId, fenceEpoch);
              documents == old(documents)[scope.Doc() := if current then Flushed(before, now, writerLeaseMs) else before]
              && r == if current then Ok(before.watermark) else Err(StaleWriterFence)
    {
      if !persistence {
        return Err(DependencyUnavailable);
      }
      var document := GetDocument(scope);
      if document.generation != scope.generation || document.writerNodeId != Some(nodeId)
         || document.fenceEpoch != fenceEpoch
      {
        return Err(StaleWriterFence);
      }
      document := document.(persistedWatermark := document.watermark, writerLeaseExpiresAt := Some(now + writerLeaseMs));
      documents := documents[scope.Doc() := document];
      return Ok(document.persistedWatermark);
    }

    method ReleaseWriterLeases(nodeId: NodeId)
      modifies this`documents
      ensures documents == Released(old(documents), nodeId)
    {
      ghost var before := documents;
      var todo := documents.Keys;
      while todo != {}
        invariant todo <= before.Keys == documents.Keys
        invariant forall id :: id in before ==>
          documents[id] == if id in todo then before[id] else Unwritten(before[id], nodeId)
        decreases |todo|
      {
        var id :| id in todo;
        todo := todo - {id};
        if documents[id].writerNodeId == Some(nodeId) {
          documents := documents[id := documents[id].(writerNodeId := None, writerLeaseExpiresAt := None)];
        }
      }
    }

    method SwapGeneration(scope: Scope) returns (r: Result<Scope, OperationsError>)
      modifies this`documents
      ensures var before := old(Get(documents, scope));
              var same := before.generation == scope.generation;
              documents == old(documents)[scope.Doc() := if same then Swapped(before) else before]
              && r == if same then Ok(scope.(generation := before.generation + 1)) else Err(StaleGeneration)
    {
      var document := GetDocument(scope);
      if document.generation != scope.generation {
        return Err(StaleGeneration);
      }
      document := document.(generation := document.generation + 1, fenceEpoch := document.fenceEpoch + 1,
                            persistedWatermark := 0, watermark := 0,
                            writerLeaseExpiresAt := None, writerNodeId := None);
      documents := documents[scope.Doc() := document];
      return Ok(scope.(generation := document.generation));
    }
  }

  // ----- the order in which documents change -----

  /** What every step respects: the generation and, inside it, both watermarks never
      fall; the fence epoch never falls, and rises with the generation; and under one
      epoch nobody but its first writer ever becomes the writer. */
  predicate Later(d: Document, e: Document)
  {
    && d.generation <= e.generation && d.fenceEpoch <= e.fenceEpoch
    && (d.generation < e.generation ==> d.fenceEpoch < e.fenceEpoch)
    && (d.fenceEpoch == e.fenceEpoch ==> e.writerNodeId == d.writerNodeId || e.writerNodeId.None?)
    && (d.generation == e.generation ==> d.watermark <= e.watermark)
    && (d.persistedWatermark <= d.watermark ==>
          e.persistedWatermark <= e.watermark
          && (d.generation == e.generation ==> d.persistedWatermark <= e.persistedWatermark))
  }

  ghost predicate Evolve(docs: Documents, docs': Documents)
  {
    forall id :: id in docs ==> id in docs' && Later(docs[id], docs'[id])
  }

  lemma EvolveTransitive(a: Documents, b: Documents, c: Documents)
    requires Evolve(a, b) && Evolve(b, c)
    ensures Evolve(a, c)
  {
  }

  function AllFlushed(docs: Documents, scopes: set<Scope>, now: int, leaseMs: nat): Documents
  {
    map id | id in docs ::
      if exists scope :: scope in scopes && scope.Doc() == id then Flushed(docs[id], now, leaseMs) else docs[id]
  }

  lemma FlushedEvolve(docs: Documents, scopes: set<Scope>, now: int, leaseMs: nat)
    ensures Evolve(docs, AllFlushed(docs, scopes, now, leaseMs))
    ensures AllFlushed(docs, scopes, now, leaseMs).Keys == docs.Keys
  {
  }

  lemma NoneFlushed(docs: Documents, now: int, leaseMs: nat)
    ensures AllFlushed(docs, {}, now, leaseMs) == docs
  {
  }

  lemma TouchedEvolves(docs: Documents, docs': Documents, scope: Scope)
    requires Evolve(docs, docs')
    ensures Evolve(docs, Touched(docs', scope))
  {
  }

  /** Flushing some documents changes nobody's currency. */
  lemma SameCurrency(docs: Documents, scopes: set<Scope>, scope: Scope, node: NodeId, fence: nat, now: int, leaseMs: nat)
    ensures Current(Get(AllFlushed(docs, scopes, now, leaseMs), scope), scope, node, fence) <==>
            Current(Get(docs, scope), scope, node, fence)
  {
  }

  lemma OneMoreFlushed(docs: Documents, scopes: set<Scope>, scope: Scope, now: int, leaseMs: nat)
    requires scope.Doc() in docs
    ensures var flushed := AllFlushed(docs, scopes, now, leaseMs);
            AllFlushed(docs, scopes + {scope}, now, leaseMs) ==
            flushed[scope.Doc() := Flushed(Get(flushed, scope), now, leaseMs)]
  {
    forall id | id in docs
      ensures (exists s :: s in scopes + {scope} && s.Doc() == id) <==>
              (exists s :: s in scopes && s.Doc() == id) || id == scope.Doc()
    {
      assert scope in scopes + {scope};
      if s :| s in scopes && s.Doc() == id {
        assert s in scopes + {scope};
      }
    }
  }

  // ----- a node -----

  datatype NodeState = Degraded | IsDraining | Ready | Starting | Stopped

  type Leases = map<Scope, nat>

  /** Every lease that the node remembers is still the writer's. */
  predicate AllCurrent(docs: Documents, leases: Leases, node: NodeId)
  {
    forall scope :: scope in leases ==> Current(Get(docs, scope), scope, node, leases[scope])
  }

  class ExcalidrawRuntimeNode {
    const nodeId: NodeId
    const coordinator: SharedRuntimeCoordinator
    var leases: Leases
    var state: NodeState

    constructor (nodeId: NodeId, coordinator: SharedRuntimeCoordinator)
      ensures this.nodeId == nodeId && this.coordinator == coordinator && leases == map[] && state == Starting
    {
      this.nodeId, this.coordinator, leases, state := nodeId, coordinator, map[], Starting;
    }

    /** What opening an admitted connection does about the writer lease. */
    method JoinAsWriter(scope: Scope, now: int) returns (r: Result<Option<nat>, OperationsError>)
      modifies this`leases, coordinator`documents
      ensures leases == if r.Ok? && r.value.Some? then old(leases)[scope := r.value.value] else old(leases)
      ensures r.Ok? && r.value.Some? ==> Current(Get(coordinator.documents, scope), scope, nodeId, r.value.value)
    {
      r := coordinator.EnsureWriterLease(nodeId, scope, now);
      if r.Ok? && r.value.Some? {
        leases := leases[scope := r.value.value];
      }
    }

    method TakeWriterLease(scope: Scope, now: int) returns (r: Result<nat, OperationsError>)
      modifies this`leases, coordinator`documents
      ensures leases == if r.Ok? then old(leases)[scope := r.value] else old(leases)
      ensures r.Ok? ==> Current(Get(coordinator.documents, scope), scope, nodeId, r.value)
    {
      r := coordinator.ForceWriterTakeover(nodeId, scope, now);
      if r.Ok? {
        leases := leases[scope := r.value];
      }
    }

    method FlushOne(scope: Scope, ghost before: Documents, ghost done: set<Scope>, now: int)
      returns (error: Option<OperationsError>)
      requires scope in leases
      requires coordinator.documents == AllFlushed(before, done, now, coordinator.writerLeaseMs)
      modifies coordinator`documents
      ensures error.None? <==>
              coordinator.persistence && Current(Get(before, scope), scope, nodeId, leases[scope])
      ensures error.None? ==>
              scope.Doc() in before
              && coordinator.documents == AllFlushed(before, done + {scope}, now, coordinator.writerLeaseMs)
      ensures Evolve(before, coordinator.documents)
    {
      ghost var was := coordinator.documents;
      FlushedEvolve(before, done, now, coordinator.writerLeaseMs);
      TouchedEvolves(before, was, scope);
      SameCurrency(before, done, scope, nodeId, leases[scope], now, coordinator.writerLeaseMs);
      hide AllFlushed, Evolve;
      var r := coordinator.Flush(nodeId, scope, leases[scope], now);
      if r.Err? {
        return Some(r.error);
      }
      OneMoreFlushed(before, done, scope, now, coordinator.writerLeaseMs);
      FlushedEvolve(before, done + {scope}, now, coordinator.writerLeaseMs);
      return None;
    }

    /** Flushes lease by lease, in any order, up to the first refusal. */
    method FlushLeases(now: int) returns (error: Option<OperationsError>)
      modifies coordinator`documents
      ensures error.None? <==>
              leases == map[] || (coordinator.persistence && old(AllCurrent(coordinator.documents, leases, nodeId)))
      ensures error.None? ==>
              coordinator.documents == AllFlushed(old(coordinator.documents), leases.Keys, now, coordinator.writerLeaseMs)
              && forall scope :: scope in leases ==> scope.Doc() in coordinator.documents
      ensures Evolve(old(coordinator.documents), coordinator.documents)
    {
      ghost var before := coordinator.documents;
      var done: set<Scope> := {};
      hide AllFlushed, Evolve, Current, Get;
      FlushedEvolve(before, {}, now, coordinator.writerLeaseMs);
      NoneFlushed(before, now, coordinator.writerLeaseMs);
      while leases.Keys - done != {}
        invariant done <= leases.Keys && (coordinator.persistence || done == {})
        invariant forall scope :: scope in done ==>
          scope.Doc() in before && Current(Get(before, scope), scope, nodeId, leases[scope])
        invariant coordinator.documents == AllFlushed(before, done, now, coordinator.writerLeaseMs)
        invariant Evolve(before, coordinator.documents)
        decreases |leases.Keys - done|
      {
        var scope :| scope in leases.Keys - done;
        error := FlushOne(scope, before, done, now);
        if error.Some? {
          return;
        }
        assert leases.Keys - (done + {scope}) == (leases.Keys - done) - {scope};
        done := done + {scope};
      }
      FlushedEvolve(before, done, now, coordinator.writerLeaseMs);
      assert done == leases.Keys;
      return None;
    }

    /** A drain that is not a repetition completes exactly when every remembered
        lease can be flushed; either way the node writes nothing any more. */
    method Drain(now: int) returns (error: Option<OperationsError>)
      modifies this`state, coordinator`documents
      ensures old(state) == Stopped ==> error.None? && coordinator.documents == old(coordinator.documents)
      ensures old(state) != Stopped ==>
              (error.None? <==> leases == map[] || (coordinator.persistence && old(AllCurrent(coordinator.documents, leases, nodeId))))
      ensures error.None? ==> state == Stopped
      ensures error.Some? ==> state == Degraded
      ensures old(state) != Stopped && error.None? ==>
              forall scope :: scope in leases ==>
                scope.Doc() in coordinator.documents
                && coordinator.documents[scope.Doc()].persistedWatermark == coordinator.documents[scope.Doc()].watermark
                   == old(coordinator.documents)[scope.Doc()].watermark
      ensures old(state) != Stopped ==>
              forall id :: id in coordinator.documents ==> coordinator.documents[id].writerNodeId != Some(nodeId)
      ensures Evolve(old(coordinator.documents), coordinator.documents)
    {
      if state == Stopped {
        return None;
      }
      state := IsDraining;
      error := FlushLeases(now);
      coordinator.ReleaseWriterLeases(nodeId);
      state := if error.None? then Stopped else Degraded;
    }

    method Crash()
      modifies this`state, coordinator`documents
      ensures coordinator.documents == Released(old(coordinator.documents), nodeId) && state == Stopped
    {
      coordinator.ReleaseWriterLeases(nodeId);
      state := Stopped;
    }
  }
}
