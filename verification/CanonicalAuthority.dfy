/** The authority object that reads and changes the shared roots in place. */
module CanonicalAuthority {
  import opened Wrappers
  import opened Text
  import opened Json
  import opened ElementStore
  import opened CanonicalScene
  import opened SceneLaws
  import KeyParts

  class Authority {
    const scope: Scope
    const actorId: Str
    const collation: Collation

    var metadata: Option<Scope>
    var page: Option<Page>
    var elements: Elements
    var elementOrder: seq<Str>
    var files: map<Str, CanonicalJson>

    ghost predicate Valid()
      reads this
    {
      TotalOrder(collation) && KeyedByOwner(elements)
    }

    /** The roots as one value. */
    ghost function Roots(): Store
      reads this
    {
      Store(metadata, page, elements, elementOrder, files)
    }

    constructor (document: Store, scope: Scope, actorId: Str, collation: Collation)
      requires TotalOrder(collation) && KeyedByOwner(document.elements)
      ensures Valid() && Roots() == document
      ensures this.scope == scope && this.actorId == actorId && this.collation == collation
    {
      this.scope, this.actorId, this.collation := scope, actorId, collation;
      metadata, page, elements := document.metadata, document.page, document.elements;
      elementOrder, files := document.order, document.files;
    }

    /** Opening a document: the checks of the scope, and an object that starts with the
        roots of the document. */
    static method Open(document: Store, scope: Scope, actorId: Str, collation: Collation)
      returns (r: Result<Authority, SceneError>)
      requires TotalOrder(collation) && KeyedByOwner(document.elements)
      ensures if OpenError(document, scope, actorId).Some? then r == Err(OpenError(document, scope, actorId).value)
              else r.Ok? && fresh(r.value) && r.value.Valid() && r.value.Roots() == document
                   && r.value.scope == scope && r.value.actorId == actorId && r.value.collation == collation
    {
      if !IsIdentifier(scope.tenantId) || !IsIdentifier(scope.documentId)
         || scope.generation < 1 || scope.generation > KeyParts.MAX_SAFE_INTEGER
      {
        return Err(AuthorityScopeInvalid);
      }
      if !IsIdentifier(actorId) {
        return Err(AuthorityScopeInvalid);
      }
      if document.metadata.Some? && document.metadata != Some(scope) {
        return Err(AuthorityScopeMismatch);
      }
      var authority := new Authority(document, scope, actorId, collation);
      return Ok(authority);
    }

    /** `resolveElementMap`: whatever order the envelopes are met in, the result
        is the resolved map. */
    method ResolveElementMap() returns (resolved: map<Str, CanonicalJson>)
      requires Valid()
      ensures resolved == Resolved(collation, elements)
    {
      var winners: map<Str, Envelope> := map[];
      var pending := elements.Keys;
      while pending != {}
        invariant pending <= elements.Keys
        invariant BestSoFar(collation, elements, elements.Keys - pending, winners)
        decreases |pending|
      {
        var key :| key in pending;
        ConsiderKeepsBest(collation, elements, elements.Keys - pending, winners, key);
        assert elements.Keys - (pending - {key}) == elements.Keys - pending + {key};
        var envelope := elements[key];
        if envelope.elementId !in winners || Beats(collation, envelope, winners[envelope.elementId]) {
          winners := winners[envelope.elementId := envelope];
        }
        pending := pending - {key};
      }
      assert elements.Keys - pending == elements.Keys;
      BestIsResolved(collation, elements, winners);
      resolved := map id | id in winners && winners[id].value.Some? :: winners[id].value.value;
    }
  
    /** The revision computed by `writeElementEnvelope`. */
    method ComputeRevision(elementId: Str) returns (revision: nat)
      ensures revision == NextRevision(elements, elementId)
    {
      revision := 1;
      var pending := elements.Keys;
      while pending != {}
        invariant pending <= elements.Keys && revision >= 1
        invariant forall k :: k in elements && k !in pending && elements[k].elementId == elementId ==>
                    elements[k].revision < revision
        invariant revision == 1
                  || exists k :: k in elements && elements[k].elementId == elementId && elements[k].revision + 1 == revision
        decreases |pending|
      {
        var key :| key in pending;
        pending := pending - {key};
        if elements[key].elementId == elementId && elements[key].revision >= revision {
          revision := elements[key].revision + 1;
        }
      }
    }

    /** `writeElementEnvelope`. */
    method WriteElementEnvelope(elementId: Str, value: Option<CanonicalJson>)
      requires Valid()
      modifies this`elements
      ensures Valid() && elements == Write(old(elements), actorId, elementId, value)
    {
      WriteWins(collation, elements, actorId, elementId, value, elementId);
      var revision := ComputeRevision(elementId);
      elements := elements[EnvelopeKey(actorId, elementId) := Envelope(actorId, elementId, revision, value)];
    }

    /** The element order of `readScene`. */
    method ReadElementIds(live: set<Str>) returns (ids: seq<Str>)
      ensures ids == ReadIds(elementOrder, live)
    {
      ids := [];
      var orderSet: set<Str> := {};
      var i := 0;
      assert elementOrder[0..] == elementOrder && live - orderSet == live;
      while i < |elementOrder|
        invariant 0 <= i <= |elementOrder|
        invariant ids + ReadIds(elementOrder[i..], live - orderSet) == ReadIds(elementOrder, live)
      {
        var id := elementOrder[i];
        assert elementOrder[i..][1..] == elementOrder[i + 1..];
        if id !in orderSet && id in live {
          assert live - orderSet - {id} == live - (orderSet + {id});
          ids := ids + [id];
          orderSet := orderSet + {id};
        }
        i := i + 1;
      }
      ids := ids + SortedSet(live - orderSet);
    }

    predicate IsInitialized()
      reads this
    {
      metadata.Some?
    }

    /** The error of `assertInitializedScope`, if any. */
    function ScopeError(): Option<SceneError>
      reads this
    {
      if !IsInitialized() then Some(AuthorityNotInitialized)
      else if metadata != Some(scope) then Some(AuthorityScopeMismatch)
      else None
    }

    method GetScene() returns (result: Result<Scene, SceneError>)
      requires Valid()
      ensures result == CanonicalScene.GetScene(collation, Roots(), scope)
    {
      if ScopeError().Some? {
        return Err(ScopeError().value);
      }
      if page.None? {
        return Err(SceneStorageCorrupt);
      }
      var resolved := ResolveElementMap();
      var ids := ReadElementIds(resolved.Keys);
      ReadIdsExactlyOnce(elementOrder, resolved.Keys);
      var scene := Scene(Select(ids, resolved), files, page.value);
      result := if Accepted(scene) then Ok(scene) else Err(ValidationError(scene).value);
    }

    /** The element part of `initializeRoots`. */
    method BootstrapEnvelopes(scene: seq<Element>) returns (envelopes: Elements)
      ensures envelopes == Bootstrap(scene)
    {
      envelopes := map[];
      var i := 0;
      while i < |scene|
        invariant 0 <= i <= |scene|
        invariant envelopes == Bootstrap(scene[..i])
      {
        BootstrapOneMore(scene, i);
        var element := scene[i];
        envelopes := envelopes[EnvelopeKey(BOOTSTRAP_ACTOR, element.id) :=
                               Envelope(BOOTSTRAP_ACTOR, element.id, 0, Some(element.body))];
        i := i + 1;
      }
      assert scene[..i] == scene;
    }

    method Initialize(scene: Scene) returns (error: Option<SceneError>)
      requires Valid()
      modifies this
      ensures Valid()
      ensures error == if old(IsInitialized()) then Some(AuthorityAlreadyInitialized) else ValidationError(scene)
      ensures Roots() == if error.None? then InitialStore(scope, scene) else old(Roots())
      ensures error.None? ==> CanonicalScene.GetScene(collation, Roots(), scope) == Ok(scene)
    {
      if IsInitialized() {
        return Some(AuthorityAlreadyInitialized);
      }
      error := ValidationError(scene);
      if error.None? {
        InitializeThenRead(collation, scope, scene);
        var envelopes := BootstrapEnvelopes(scene.elements);
        metadata, page, elements := Some(scope), Some(scene.page), envelopes;
        elementOrder, files := ElementIds(scene.elements), scene.files;
      }
    }

    /** Writes one more pending value of a run that began at `start`. */
    method WritePending(w: Pending, ghost start: Elements, ghost done: seq<Pending>)
      requires Valid() && elements == WriteAll(start, actorId, done)
      modifies this`elements
      ensures Valid() && elements == WriteAll(start, actorId, done + [w])
    {
      WriteElementEnvelope(w.id, w.value);
      WriteOneMore(start, actorId, done, w);
    }

    /** Writes the new and changed elements of a scene, in their order. */
    method WriteChanged(before: map<Str, CanonicalJson>, candidates: seq<Element>)
      requires Valid()
      modifies this`elements
      ensures Valid() && elements == WriteAll(old(elements), actorId, Changed(before, candidates))
    {
      ghost var start, done: seq<Pending> := elements, [];
      var i := 0;
      while i < |candidates|
        invariant 0 <= i <= |candidates| && Valid()
        invariant done == Changed(before, candidates[..i])
        invariant elements == WriteAll(start, actorId, done)
      {
        ChangedOneMore(before, candidates, i);
        if Differs(before, candidates[i]) {
          var w := Pending(candidates[i].id, Some(candidates[i].body));
          WritePending(w, start, done);
          done := done + [w];
        }
        i := i + 1;
      }
      assert candidates[..i] == candidates;
    }

    /** Buries the baseline elements that the next scene dropped. */
    method WriteDropped(baseline: seq<Element>, kept: set<Str>, ghost start: Elements, ghost before: seq<Pending>)
      requires Valid() && elements == WriteAll(start, actorId, before)
      modifies this`elements
      ensures Valid() && elements == WriteAll(start, actorId, before + Dropped(baseline, kept))
    {
      ghost var done := before + [];
      assert done == before;
      var i := 0;
      while i < |baseline|
        invariant 0 <= i <= |baseline| && Valid()
        invariant done == before + Dropped(baseline[..i], kept)
        invariant elements == WriteAll(start, actorId, done)
      {
        DroppedOneMore(before, baseline, kept, i);
        if baseline[i].id !in kept {
          var w := Pending(baseline[i].id, None);
          WritePending(w, start, done);
          done := done + [w];
        }
        i := i + 1;
      }
      assert baseline[..i] == baseline;
    }

    /** Buries one more element of a run of tombstones. */
    method BuryOne(id: Str, ghost start: Elements, ghost before: seq<Pending>, ghost dead: seq<Str>, ghost buried: set<Str>)
      requires Valid() && Enumerates(dead, buried) && id !in buried
      requires elements == WriteAll(start, actorId, before + Tombstones(dead))
      modifies this`elements
      ensures Valid() && Enumerates(dead + [id], buried + {id})
      ensures elements == WriteAll(start, actorId, before + Tombstones(dead + [id]))
    {
      OneMoreBuried(start, actorId, before, dead, buried, id);
      WritePending(Pending(id, None), start, before + Tombstones(dead));
    }

    /** Buries the current elements that the desired scene lacks. */
    method Bury(current: set<Str>, desired: set<Str>, ghost start: Elements, ghost before: seq<Pending>)
      returns (ghost dead: seq<Str>)
      requires Valid() && elements == WriteAll(start, actorId, before)
      modifies this`elements
      ensures Valid() && Enumerates(dead, current - desired)
      ensures elements == WriteAll(start, actorId, before + Tombstones(dead))
    {
      dead := [];
      var pending := current;
      ghost var buried: set<Str> := {};
      assert before + Tombstones(dead) == before;
      while pending != {}
        invariant pending <= current && Valid()
        invariant Enumerates(dead, buried)
        invariant forall x :: x in buried <==> x in current && x !in pending && x !in desired
        invariant elements == WriteAll(start, actorId, before + Tombstones(dead))
        decreases |pending|
      {
        var id :| id in pending;
        pending := pending - {id};
        if id !in desired {
          BuryOne(id, start, before, dead, buried);
          dead, buried := dead + [id], buried + {id};
        }
      }
      assert buried == current - desired;
    }

    /** The element part of `replaceSceneForActor`. */
    method ReplaceElementRoots(scene: Scene) returns (ghost dead: seq<Str>)
      requires Valid() && DistinctElements(scene.elements)
      modifies this`elements
      ensures Valid() && Enumerates(dead, Buried(collation, old(Roots()), scene))
      ensures elements == WriteAll(old(elements), actorId,
                                   Changed(Resolved(collation, old(elements)), scene.elements) + Tombstones(dead))
    {
      var current := ResolveElementMap();
      WriteChanged(current, scene.elements);
      dead := Bury(current.Keys, IdSet(scene.elements), old(elements), Changed(current, scene.elements));
    }

    /** Rewrites the order array unless it already lists the desired ids. */
    method WriteOrder(desired: seq<Str>)
      modifies this`elementOrder
      ensures elementOrder == Reorder(old(elementOrder), desired)
    {
      if StableStringify(IdsJson(elementOrder)) != StableStringify(IdsJson(desired)) {
        elementOrder := desired;
      }
    }

    /** `replaceSceneForActor`. */
    method ReplaceRoots(scene: Scene) returns (ghost dead: seq<Str>)
      requires Valid() && DistinctElements(scene.elements)
      modifies this
      ensures Valid() && Enumerates(dead, Buried(collation, old(Roots()), scene))
      ensures Roots() == ReplaceStore(collation, old(Roots()), actorId, scene, dead)
    {
      ghost var before := Roots();
      dead := ReplaceElementRoots(scene);
      WriteOrder(ElementIds(scene.elements));
      page, files := Some(scene.page), scene.files;
      assert Roots() == ReplaceStore(collation, before, actorId, scene, dead);
    }

    method ReplaceScene(scene: Scene) returns (error: Option<SceneError>)
      requires Valid()
      modifies this
      ensures Valid()
      ensures error == if !Accepted(scene) then ValidationError(scene) else old(ScopeError())
      ensures error.Some? ==> Roots() == old(Roots())
      ensures error.None? ==>
                exists dead :: Enumerates(dead, Buried(collation, old(Roots()), scene))
                               && Roots() == ReplaceStore(collation, old(Roots()), actorId, scene, dead)
      ensures error.None? ==> CanonicalScene.GetScene(collation, Roots(), scope) == Ok(scene)
    {
      error := ValidationError(scene);
      if error.None? {
        error := ScopeError();
      }
      if error.None? {
        AcceptedIsDistinct(scene);
        ghost var before := Roots();
        ghost var dead := ReplaceRoots(scene);
        ReplaceThenRead(collation, before, actorId, scene, dead, scope);
      }
    }

    /** Sets the files that the delta added or changed. */
    method SetChangedFiles(baseline: map<Str, CanonicalJson>, next: map<Str, CanonicalJson>)
      modifies this`files
      ensures FilesPartlyMerged(files, old(files), baseline, next, next.Keys, {})
    {
      ghost var before, written: set<Str> := files, {};
      var pending := next.Keys;
      while pending != {}
        invariant pending <= next.Keys && written == next.Keys - pending
        invariant FilesPartlyMerged(files, before, baseline, next, written, {})
        decreases |pending|
      {
        var id :| id in pending;
        pending := pending - {id};
        SetFileStep(files, before, baseline, next, written, id);
        if id !in baseline || StableStringify(baseline[id]) != StableStringify(next[id]) {
          files := files[id := next[id]];
        }
        written := written + {id};
      }
      assert written == next.Keys;
    }

    /** Deletes the files that the delta dropped. */
    method DeleteDroppedFiles(baseline: map<Str, CanonicalJson>, next: map<Str, CanonicalJson>,
                              ghost before: map<Str, CanonicalJson>)
      requires FilesPartlyMerged(files, before, baseline, next, next.Keys, {})
      modifies this`files
      ensures files == MergeFiles(before, baseline, next)
    {
      ghost var removed: set<Str> := {};
      var pending := baseline.Keys;
      while pending != {}
        invariant pending <= baseline.Keys && removed == baseline.Keys - pending
        invariant FilesPartlyMerged(files, before, baseline, next, next.Keys, removed)
        decreases |pending|
      {
        var id :| id in pending;
        pending := pending - {id};
        DeleteFileStep(files, before, baseline, next, removed, id);
        if id !in next {
          files := files - {id};
        }
        removed := removed + {id};
      }
      assert removed == baseline.Keys;
      FilesMerged(files, before, baseline, next);
    }

    /** The element part of `applySceneDelta`. */
    method MergeElementRoots(baseline: Scene, next: Scene)
      requires Valid()
      modifies this`elements
      ensures Valid() && elements == WriteAll(old(elements), actorId, DeltaWrites(baseline, next))
    {
      WriteChanged(Lookup(baseline.elements), next.elements);
      WriteDropped(baseline.elements, Lookup(next.elements).Keys, old(elements),
                   Changed(Lookup(baseline.elements), next.elements));
    }

    /** The order and page part of `applySceneDelta`. */
    method MergeOrderAndPage(baseline: Scene, next: Scene, current: seq<Str>)
      requires page.Some?
      modifies this`elementOrder, this`page
      ensures elementOrder == MergeOrder(old(elementOrder), current, baseline, next)
      ensures page == Some(MergePage(old(page).value, baseline.page, next.page))
    {
      if StableStringify(IdsJson(ElementIds(baseline.elements))) != StableStringify(IdsJson(ElementIds(next.elements))) {
        elementOrder := ElementIds(next.elements) + RemoteOnly(current, baseline, next);
      }
      if StableStringify(PageJson(baseline.page)) != StableStringify(PageJson(next.page)) {
        page := Some(next.page);
      }
    }

    /** The transaction of `applySceneDelta`. */
    method MergeRoots(baseline: Scene, next: Scene, current: seq<Str>)
      requires Valid() && page.Some? && current == CurrentIds(collation, Roots())
      modifies this
      ensures Valid() && Roots() == DeltaStore(collation, old(Roots()), actorId, baseline, next)
    {
      hide KeyedByOwner, TotalOrder, MergeOrder, MergePage, MergeFiles, WriteAll, DeltaWrites, CurrentIds;
      MergeElementRoots(baseline, next);
      MergeOrderAndPage(baseline, next, current);
      SetChangedFiles(baseline.files, next.files);
      DeleteDroppedFiles(baseline.files, next.files, old(files));
    }

    method ApplySceneDelta(baseline: Scene, next: Scene) returns (error: Option<SceneError>)
      requires Valid()
      modifies this
      ensures Valid()
      ensures error == old(DeltaError(collation, Roots(), scope, baseline, next))
      ensures error.Some? ==> Roots() == old(Roots())
      ensures error.None? ==>
                old(Roots()).page.Some? && Roots() == DeltaStore(collation, old(Roots()), actorId, baseline, next)
    {
      error := ScopeError();
      if error.Some? { return; }
      error := ValidationError(baseline);
      if error.Some? { return; }
      error := ValidationError(next);
      if error.Some? { return; }
      if baseline.page.id != next.page.id {
        return Some(SceneInvalid);
      }
      var current := GetScene();
      if current.Err? {
        return Some(current.error);
      }
      CurrentIdsOf(collation, Roots(), scope);
      MergeRoots(baseline, next, ElementIds(current.value.elements));
    }

    /** The checks of `putElement`. */
    method CheckPut(element: Element) returns (error: Option<SceneError>, known: bool)
      requires Valid()
      ensures error == PutError(collation, Roots(), scope, element)
      ensures error.None? ==> (known <==> element.id in Resolved(collation, elements))
    {
      known := false;
      var current := GetScene();
      if current.Err? {
        return Some(current.error), false;
      }
      KnownIffLive(collation, Roots(), scope, element.id);
      known := element.id in Lookup(current.value.elements);
      error := if ElementError(element).Some? then ElementError(element)
               else ValidationError(current.value.(elements := PutInto(current.value.elements, element)));
    }

    method PutElement(element: Element) returns (error: Option<SceneError>)
      requires Valid()
      modifies this
      ensures Valid()
      ensures error == old(PutError(collation, Roots(), scope, element))
      ensures Roots() == if error.Some? then old(Roots()) else PutStore(collation, old(Roots()), actorId, element)
    {
      var known;
      error, known := CheckPut(element);
      if error.None? {
        WriteElementEnvelope(element.id, Some(element.body));
        if !known {
          elementOrder := elementOrder + [element.id];
        }
      }
    }

    method DeleteElement(elementId: Str) returns (error: Option<SceneError>)
      requires Valid()
      modifies this`elements
      ensures Valid()
      ensures error == if ScopeError().Some? then ScopeError() else if !IsIdentifier(elementId) then Some(SceneInvalid) else None
      ensures elements == if error.None? then Write(old(elements), actorId, elementId, None) else old(elements)
    {
      error := ScopeError();
      if error.None? {
        if IsIdentifier(elementId) {
          WriteElementEnvelope(elementId, None);
        } else {
          error := Some(SceneInvalid);
        }
      }
    }
  }
}
