/** What the operations of the canonical authority make of the shared roots, and
    the laws that a reader of the scene can rely on. */
module SceneLaws {
  import opened Wrappers
  import opened Text
  import opened Json
  import opened ElementStore
  import opened CanonicalScene

  /** `new Map(elements.map((element) => [element.id, element]))`. */
  function Lookup(elements: seq<Element>): map<Str, CanonicalJson>
  {
    if elements == [] then map[]
    else
      var n := |elements| - 1;
      Lookup(elements[..n])[elements[n].id := elements[n].body]
  }

  lemma {:induction false} LookupOf(elements: seq<Element>)
    ensures forall id :: id in Lookup(elements) <==> exists i :: 0 <= i < |elements| && elements[i].id == id
    ensures DistinctElements(elements) ==>
              forall i :: 0 <= i < |elements| ==>
                elements[i].id in Lookup(elements) && Lookup(elements)[elements[i].id] == elements[i].body
  {
    if elements != [] {
      var n := |elements| - 1;
      LookupOf(elements[..n]);
      forall id | id in Lookup(elements[..n]) ensures exists i :: 0 <= i < |elements| && elements[i].id == id {
        var i :| 0 <= i < n && elements[..n][i].id == id;
        assert elements[i].id == id;
      }
      forall i | 0 <= i < |elements| ensures elements[i].id in Lookup(elements) {
        if i < n { assert elements[..n][i].id == elements[i].id; }
      }
      if DistinctElements(elements) {
        forall i | 0 <= i < |elements| ensures Lookup(elements)[elements[i].id] == elements[i].body {
          if i < n { assert elements[..n][i].id == elements[i].id; }
        }
      }
    }
  }

  predicate Differs(before: map<Str, CanonicalJson>, e: Element)
  {
    e.id !in before || StableStringify(before[e.id]) != StableStringify(e.body)
  }

  lemma DiffersMeans(before: map<Str, CanonicalJson>, e: Element)
    ensures Differs(before, e) <==> !(e.id in before && before[e.id] == e.body)
  {
    if e.id in before {
      StableInjectiveOnCanonical(before[e.id], e.body);
    }
  }

  /** The writes for the elements that are new or changed. */
  function Changed(before: map<Str, CanonicalJson>, elements: seq<Element>): seq<Pending>
  {
    if elements == [] then []
    else
      var n := |elements| - 1;
      Changed(before, elements[..n])
      + if Differs(before, elements[n]) then [Pending(elements[n].id, Some(elements[n].body))] else []
  }

  lemma ChangedOneMore(before: map<Str, CanonicalJson>, elements: seq<Element>, i: nat)
    requires i < |elements|
    ensures Differs(before, elements[i]) ==>
              Changed(before, elements[..i + 1])
              == Changed(before, elements[..i]) + [Pending(elements[i].id, Some(elements[i].body))]
    ensures !Differs(before, elements[i]) ==> Changed(before, elements[..i + 1]) == Changed(before, elements[..i])
  {
    assert elements[..i + 1][..i] == elements[..i];
  }

  /** The tombstones for the elements that `kept` lacks. */
  function Dropped(elements: seq<Element>, kept: set<Str>): seq<Pending>
  {
    if elements == [] then []
    else
      var n := |elements| - 1;
      Dropped(elements[..n], kept) + if elements[n].id !in kept then [Pending(elements[n].id, None)] else []
  }

  lemma DroppedOneMore(done: seq<Pending>, elements: seq<Element>, kept: set<Str>, i: nat)
    requires i < |elements|
    ensures elements[i].id !in kept ==>
              done + Dropped(elements[..i + 1], kept) == done + Dropped(elements[..i], kept) + [Pending(elements[i].id, None)]
    ensures elements[i].id in kept ==>
              done + Dropped(elements[..i + 1], kept) == done + Dropped(elements[..i], kept)
  {
    assert elements[..i + 1][..i] == elements[..i];
  }

  function Tombstones(ids: seq<Str>): (r: seq<Pending>)
    ensures |r| == |ids| && forall i :: 0 <= i < |r| ==> r[i] == Pending(ids[i], None)
  {
    seq(|ids|, i requires 0 <= i < |ids| => Pending(ids[i], None))
  }

  lemma {:induction false} ChangedWrites(before: map<Str, CanonicalJson>, elements: seq<Element>)
    requires DistinctElements(elements)
    ensures DistinctIds(Changed(before, elements))
    ensures forall w :: w in Changed(before, elements) <==>
              exists i :: 0 <= i < |elements| && Differs(before, elements[i])
                          && w == Pending(elements[i].id, Some(elements[i].body))
  {
    if elements != [] {
      var n := |elements| - 1;
      var init, ws := elements[..n], Changed(before, elements);
      ChangedWrites(before, init);
      forall w | w in ws
        ensures exists i :: 0 <= i < |elements| && Differs(before, elements[i])
                            && w == Pending(elements[i].id, Some(elements[i].body))
      {
        if w in Changed(before, init) {
          var i :| 0 <= i < |init| && Differs(before, init[i]) && w == Pending(init[i].id, Some(init[i].body));
          assert init[i] == elements[i];
        }
      }
      forall i | 0 <= i < |elements| && Differs(before, elements[i])
        ensures Pending(elements[i].id, Some(elements[i].body)) in ws
      {
        if i < n { assert init[i] == elements[i]; }
      }
      forall i, j | 0 <= i < j < |ws| ensures ws[i].id != ws[j].id {
        if j == |Changed(before, init)| {
          assert ws[i] in Changed(before, init);
        }
      }
    }
  }

  lemma {:induction false} DroppedWrites(elements: seq<Element>, kept: set<Str>)
    requires DistinctElements(elements)
    ensures DistinctIds(Dropped(elements, kept))
    ensures forall w :: w in Dropped(elements, kept) <==>
              exists i :: 0 <= i < |elements| && elements[i].id !in kept && w == Pending(elements[i].id, None)
  {
    if elements != [] {
      var n := |elements| - 1;
      var init, ws := elements[..n], Dropped(elements, kept);
      DroppedWrites(init, kept);
      forall w | w in ws
        ensures exists i :: 0 <= i < |elements| && elements[i].id !in kept && w == Pending(elements[i].id, None)
      {
        if w in Dropped(init, kept) {
          var i :| 0 <= i < |init| && init[i].id !in kept && w == Pending(init[i].id, None);
          assert init[i] == elements[i];
        }
      }
      forall i | 0 <= i < |elements| && elements[i].id !in kept
        ensures Pending(elements[i].id, None) in ws
      {
        if i < n { assert init[i] == elements[i]; }
      }
      forall i, j | 0 <= i < j < |ws| ensures ws[i].id != ws[j].id {
        if j == |Dropped(init, kept)| {
          assert ws[i] in Dropped(init, kept);
        }
      }
    }
  }

  function Get<T>(m: map<Str, T>, k: Str): Option<T>
  {
    if k in m then Some(m[k]) else None
  }

  /** Three-way merge of one value: the local change if there is one, otherwise
      whatever the shared state holds. */
  function Merge3<T(==)>(current: Option<T>, baseline: Option<T>, next: Option<T>): Option<T>
  {
    if next == baseline then current else next
  }

  // ----- replaceScene -----

  ghost predicate Enumerates(ids: seq<Str>, s: set<Str>)
  {
    DistinctIdList(ids) && forall x :: x in ids <==> x in s
  }

  function IdSet(elements: seq<Element>): set<Str>
  {
    set id | id in ElementIds(elements)
  }

  /** The elements that `replaceSceneForActor` has to bury. */
  ghost function Buried(rank: Collation, store: Store, scene: Scene): set<Str>
  {
    Resolved(rank, store.elements).Keys - IdSet(scene.elements)
  }

  function Reorder(order: seq<Str>, desired: seq<Str>): seq<Str>
  {
    if StableStringify(IdsJson(order)) != StableStringify(IdsJson(desired)) then desired else order
  }

  /** `replaceSceneForActor`; `dead` is the order in which the loop over the
      resolved map meets the elements to bury. */
  ghost function ReplaceStore(rank: Collation, store: Store, actorId: Str, scene: Scene, dead: seq<Str>): Store
  {
    var writes := Changed(Resolved(rank, store.elements), scene.elements) + Tombstones(dead);
    store.(elements := WriteAll(store.elements, actorId, writes),
           order := Reorder(store.order, ElementIds(scene.elements)),
           page := Some(scene.page),
           files := scene.files)
  }

  /** Burying one more element extends the run of writes by its tombstone. */
  lemma OneMoreBuried(start: Elements, actorId: Str, done: seq<Pending>, dead: seq<Str>, buried: set<Str>, id: Str)
    requires Enumerates(dead, buried) && id !in buried
    ensures Enumerates(dead + [id], buried + {id})
    ensures WriteAll(start, actorId, done + Tombstones(dead) + [Pending(id, None)])
            == WriteAll(start, actorId, done + Tombstones(dead + [id]))
  {
    assert done + Tombstones(dead) + [Pending(id, None)] == done + Tombstones(dead + [id]);
  }

  lemma InIdSet(elements: seq<Element>, id: Str)
    ensures id in IdSet(elements) <==> exists i :: 0 <= i < |elements| && elements[i].id == id
    ensures id in IdSet(elements) <==> id in Lookup(elements)
  {
    LookupOf(elements);
    if id in ElementIds(elements) {
      var i :| 0 <= i < |elements| && ElementIds(elements)[i] == id;
      assert elements[i].id == id;
    }
    if i :| 0 <= i < |elements| && elements[i].id == id {
      assert ElementIds(elements)[i] == id;
    }
  }

  lemma WriteLookup(rank: Collation, es: Elements, actorId: Str, ws: seq<Pending>, id: Str)
    requires TotalOrder(rank) && KeyedByOwner(es) && DistinctIds(ws)
    ensures KeyedByOwner(WriteAll(es, actorId, ws))
    ensures forall v :: Pending(id, v) in ws ==> Live(rank, WriteAll(es, actorId, ws), id) == v
    ensures (forall w :: w in ws ==> w.id != id) ==> Live(rank, WriteAll(es, actorId, ws), id) == Live(rank, es, id)
  {
    WriteAllLaw(rank, es, actorId, ws, id);
  }

  /** `Changed` writes an element exactly when its lookup differs. */
  lemma ChangedAt(before: map<Str, CanonicalJson>, elements: seq<Element>, id: Str)
    requires DistinctElements(elements)
    ensures DistinctIds(Changed(before, elements))
    ensures if id in Lookup(elements) && Get(before, id) != Get(Lookup(elements), id)
            then Pending(id, Some(Lookup(elements)[id])) in Changed(before, elements)
            else forall w :: w in Changed(before, elements) ==> w.id != id
  {
    ChangedWrites(before, elements);
    LookupOf(elements);
    if id in Lookup(elements) {
      var i :| 0 <= i < |elements| && elements[i].id == id;
      DiffersMeans(before, elements[i]);
    }
  }

  /** `Dropped` buries an element exactly when it is listed and not kept. */
  lemma DroppedAt(elements: seq<Element>, kept: set<Str>, id: Str)
    requires DistinctElements(elements)
    ensures DistinctIds(Dropped(elements, kept))
    ensures if id in Lookup(elements) && id !in kept
            then Pending(id, None) in Dropped(elements, kept)
            else forall w :: w in Dropped(elements, kept) ==> w.id != id
  {
    DroppedWrites(elements, kept);
    LookupOf(elements);
  }

  lemma TombstonesAt(dead: seq<Str>, id: Str)
    requires DistinctIdList(dead)
    ensures DistinctIds(Tombstones(dead))
    ensures if id in dead then Pending(id, None) in Tombstones(dead)
            else forall w :: w in Tombstones(dead) ==> w.id != id
  {
    if id in dead {
      var j :| 0 <= j < |dead| && dead[j] == id;
      assert Tombstones(dead)[j] == Pending(id, None);
    }
  }

  /** Two runs of writes to different elements. */
  lemma DistinctConcat(xs: seq<Pending>, ys: seq<Pending>, left: set<Str>)
    requires DistinctIds(xs) && DistinctIds(ys)
    requires forall w :: w in xs ==> w.id in left
    requires forall w :: w in ys ==> w.id !in left
    ensures DistinctIds(xs + ys)
  {
    assert forall i, j :: 0 <= i < |xs| && 0 <= j < |ys| ==> xs[i] in xs && ys[j] in ys;
  }

  lemma ReplaceWritesDistinct(rank: Collation, store: Store, scene: Scene, dead: seq<Str>)
    requires DistinctElements(scene.elements) && Enumerates(dead, Buried(rank, store, scene))
    ensures DistinctIds(Changed(Resolved(rank, store.elements), scene.elements) + Tombstones(dead))
  {
    var cs := Changed(Resolved(rank, store.elements), scene.elements);
    ChangedAt(Resolved(rank, store.elements), scene.elements, []);
    TombstonesAt(dead, []);
    forall w | w in cs ensures w.id in Lookup(scene.elements) {
      ChangedAt(Resolved(rank, store.elements), scene.elements, w.id);
    }
    forall w | w in Tombstones(dead) ensures w.id !in Lookup(scene.elements) {
      TombstonesAt(dead, w.id);
      InIdSet(scene.elements, w.id);
    }
    DistinctConcat(cs, Tombstones(dead), Lookup(scene.elements).Keys);
  }

  lemma ReplaceElements(rank: Collation, store: Store, actorId: Str, scene: Scene, dead: seq<Str>, id: Str)
    requires TotalOrder(rank) && KeyedByOwner(store.elements) && DistinctElements(scene.elements)
    requires Enumerates(dead, Buried(rank, store, scene))
    ensures var after := ReplaceStore(rank, store, actorId, scene, dead).elements;
            KeyedByOwner(after) && Live(rank, after, id) == Get(Lookup(scene.elements), id)
  {
    var before := Resolved(rank, store.elements);
    ReplaceWritesDistinct(rank, store, scene, dead);
    WriteLookup(rank, store.elements, actorId, Changed(before, scene.elements) + Tombstones(dead), id);
    ChangedAt(before, scene.elements, id);
    TombstonesAt(dead, id);
    LiveCases(rank, store.elements, id);
    InIdSet(scene.elements, id);
  }

  function Restrict(ids: seq<Str>, live: set<Str>): seq<Str>
  {
    if ids == [] then [] else (if ids[0] in live then [ids[0]] else []) + Restrict(ids[1..], live)
  }

  lemma {:induction false} RestrictConcat(a: seq<Str>, b: seq<Str>, live: set<Str>)
    ensures Restrict(a + b, live) == Restrict(a, live) + Restrict(b, live)
  {
    if a == [] {
      assert a + b == b;
    } else {
      assert (a + b)[1..] == a[1..] + b;
      RestrictConcat(a[1..], b, live);
    }
  }

  lemma {:induction false} RestrictToAll(ids: seq<Str>, live: set<Str>)
    requires forall x :: x in ids ==> x in live
    ensures Restrict(ids, live) == ids
  {
    if ids != [] {
      RestrictToAll(ids[1..], live);
    }
  }

  lemma {:induction false} RestrictAgrees(ids: seq<Str>, live: set<Str>, alive: set<Str>)
    requires forall x :: x in ids ==> (x in live <==> x in alive)
    ensures Restrict(ids, live) == Restrict(ids, alive)
  {
    if ids != [] {
      RestrictAgrees(ids[1..], live, alive);
    }
  }

  lemma LeastFirst(s: set<Str>, m: Str)
    requires IsLeast(s, m)
    ensures SortedSet(s) == [m] + SortedSet(s - {m})
  {
    LeastUnique(s);
  }

  lemma {:induction false} SortedRestrict(big: set<Str>, small: set<Str>)
    requires small <= big
    ensures Restrict(SortedSet(big), small) == SortedSet(small)
    decreases |big|
  {
    if big != {} {
      LeastExists(big);
      var m :| IsLeast(big, m);
      LeastFirst(big, m);
      assert |big - {m}| < |big|;
      var rest := SortedSet(big - {m});
      assert ([m] + rest)[1..] == rest;
      if m in small {
        assert IsLeast(small, m);
        LeastFirst(small, m);
        SortedRestrict(big - {m}, small - {m});
        RestrictAgrees(rest, small, small - {m});
      } else {
        SortedRestrict(big - {m}, small);
      }
    }
  }

  /** Ids that stay live keep their relative reading order, whatever else is live. */
  lemma {:induction false} ReadIdsRestrict(order: seq<Str>, big: set<Str>, small: set<Str>)
    requires small <= big
    ensures Restrict(ReadIds(order, big), small) == ReadIds(order, small)
    decreases |order|
  {
    if order == [] {
      SortedRestrict(big, small);
    } else if order[0] !in big {
      ReadIdsRestrict(order[1..], big, small);
    } else {
      var h, rest := order[0], ReadIds(order[1..], big - {order[0]});
      assert ([h] + rest)[1..] == rest;
      if h in small {
        ReadIdsRestrict(order[1..], big - {h}, small - {h});
        ReadIdsExactlyOnce(order[1..], big - {h});
        RestrictAgrees(rest, small, small - {h});
      } else {
        ReadIdsRestrict(order[1..], big - {h}, small);
      }
    }
  }

  /** Reading a list without duplicates that covers the live ids keeps its order. */
  lemma {:induction false} ReadIdsOfCover(ids: seq<Str>, live: set<Str>)
    requires DistinctIdList(ids)
    requires forall x :: x in live ==> x in ids
    ensures ReadIds(ids, live) == Restrict(ids, live)
    decreases |ids|
  {
    if ids == [] {
      assert live == {};
    } else if ids[0] in live {
      forall x | x in live - {ids[0]} ensures x in ids[1..] {
        assert x in ids;
      }
      ReadIdsOfCover(ids[1..], live - {ids[0]});
      RestrictAgrees(ids[1..], live, live - {ids[0]});
    } else {
      ReadIdsOfCover(ids[1..], live);
    }
  }

  /** A scene reads back exactly when its elements resolve to it and the order
      array lists its ids. */
  lemma ReadsAs(rank: Collation, store: Store, scene: Scene)
    requires store.page == Some(scene.page) && store.files == scene.files
    requires Resolved(rank, store.elements) == Lookup(scene.elements)
    requires DistinctElements(scene.elements)
    requires ReadIds(store.order, Lookup(scene.elements).Keys) == ElementIds(scene.elements)
    ensures RawScene(rank, store) == scene
  {
    LookupOf(scene.elements);
    ReadIdsExactlyOnce(store.order, Lookup(scene.elements).Keys);
    assert RawScene(rank, store).elements == scene.elements;
  }

  lemma OwnOrder(elements: seq<Element>)
    requires DistinctElements(elements)
    ensures DistinctIdList(ElementIds(elements))
    ensures forall x :: x in ElementIds(elements) <==> x in Lookup(elements)
    ensures ReadIds(ElementIds(elements), Lookup(elements).Keys) == ElementIds(elements)
  {
    var ids, live := ElementIds(elements), Lookup(elements).Keys;
    forall x ensures x in ids <==> x in live {
      InIdSet(elements, x);
    }
    ReadIdsOfCover(ids, live);
    RestrictToAll(ids, live);
  }

  lemma ReorderTo(order: seq<Str>, desired: seq<Str>, page: Page)
    ensures Reorder(order, desired) == desired
  {
    SameStableText(order, desired, page, page);
  }

  lemma ReplaceReadsRaw(rank: Collation, store: Store, actorId: Str, scene: Scene, dead: seq<Str>)
    requires TotalOrder(rank) && KeyedByOwner(store.elements) && DistinctElements(scene.elements)
    requires Enumerates(dead, Buried(rank, store, scene))
    ensures RawScene(rank, ReplaceStore(rank, store, actorId, scene, dead)) == scene
  {
    ResolvesToReplacement(rank, store, actorId, scene, dead);
    OwnOrder(scene.elements);
    ReorderTo(store.order, ElementIds(scene.elements), scene.page);
    ReadsAs(rank, ReplaceStore(rank, store, actorId, scene, dead), scene);
  }

  /** Write then read: whatever well-formed roots it starts from, a replaced
      scene is read back unchanged: elements, order, files and page. */
  lemma ReplaceThenRead(rank: Collation, store: Store, actorId: Str, scene: Scene, dead: seq<Str>, scope: Scope)
    requires TotalOrder(rank) && KeyedByOwner(store.elements)
    requires Accepted(scene) && store.metadata == Some(scope)
    requires Enumerates(dead, Buried(rank, store, scene))
    ensures GetScene(rank, ReplaceStore(rank, store, actorId, scene, dead), scope) == Ok(scene)
  {
    AcceptedIsDistinct(scene);
    ReplaceReadsRaw(rank, store, actorId, scene, dead);
  }

  lemma ResolvesToReplacement(rank: Collation, store: Store, actorId: Str, scene: Scene, dead: seq<Str>)
    requires TotalOrder(rank) && KeyedByOwner(store.elements) && DistinctElements(scene.elements)
    requires Enumerates(dead, Buried(rank, store, scene))
    ensures Resolved(rank, ReplaceStore(rank, store, actorId, scene, dead).elements) == Lookup(scene.elements)
  {
    var after := ReplaceStore(rank, store, actorId, scene, dead).elements;
    forall id
      ensures id in Resolved(rank, after) <==> id in Lookup(scene.elements)
      ensures id in Resolved(rank, after) ==> Resolved(rank, after)[id] == Lookup(scene.elements)[id]
    {
      ReplaceElements(rank, store, actorId, scene, dead, id);
      LiveCases(rank, after, id);
    }
  }

  // ----- applySceneDelta -----

  function DeltaWrites(baseline: Scene, next: Scene): seq<Pending>
  {
    Changed(Lookup(baseline.elements), next.elements) + Dropped(baseline.elements, Lookup(next.elements).Keys)
  }

  /** The current ids that neither the baseline nor the next scene knows. */
  function RemoteOnly(current: seq<Str>, baseline: Scene, next: Scene): seq<Str>
  {
    if current == [] then []
    else
      (if current[0] !in Lookup(baseline.elements) && current[0] !in Lookup(next.elements) then [current[0]] else [])
      + RemoteOnly(current[1..], baseline, next)
  }

  function MergeOrder(order: seq<Str>, current: seq<Str>, baseline: Scene, next: Scene): seq<Str>
  {
    if StableStringify(IdsJson(ElementIds(baseline.elements))) != StableStringify(IdsJson(ElementIds(next.elements)))
    then ElementIds(next.elements) + RemoteOnly(current, baseline, next)
    else order
  }

  function MergePage(page: Page, baseline: Page, next: Page): Page
  {
    if StableStringify(PageJson(baseline)) != StableStringify(PageJson(next)) then next else page
  }

  function MergeFiles(files: map<Str, CanonicalJson>, baseline: map<Str, CanonicalJson>, next: map<Str, CanonicalJson>):
    map<Str, CanonicalJson>
  {
    map id | id in files.Keys + next.Keys && Merge3(Get(files, id), Get(baseline, id), Get(next, id)).Some? ::
      Merge3(Get(files, id), Get(baseline, id), Get(next, id)).value
  }

  /** The ids of the scene as it is read now. */
  ghost function CurrentIds(rank: Collation, store: Store): seq<Str>
  {
    ReadIds(store.order, Resolved(rank, store.elements).Keys)
  }

  /** The ids of the elements that the local actor changed. */
  function LocallyChanged(baseline: Scene, next: Scene): set<Str>
  {
    set id | id in Lookup(next.elements) && Get(Lookup(baseline.elements), id) != Get(Lookup(next.elements), id)
  }

  /** The transaction of `applySceneDelta`. */
  ghost function DeltaStore(rank: Collation, store: Store, actorId: Str, baseline: Scene, next: Scene): Store
    requires store.page.Some?
  {
    store.(elements := WriteAll(store.elements, actorId, DeltaWrites(baseline, next)),
           order := MergeOrder(store.order, CurrentIds(rank, store), baseline, next),
           page := Some(MergePage(store.page.value, baseline.page, next.page)),
           files := MergeFiles(store.files, baseline.files, next.files))
  }

  /** The error that `applySceneDelta` throws before it writes anything. */
  ghost function DeltaError(rank: Collation, store: Store, scope: Scope, baseline: Scene, next: Scene): Option<SceneError>
  {
    if store.metadata == None then Some(AuthorityNotInitialized)
    else if store.metadata != Some(scope) then Some(AuthorityScopeMismatch)
    else if !Accepted(baseline) then ValidationError(baseline)
    else if !Accepted(next) then ValidationError(next)
    else if baseline.page.id != next.page.id then Some(SceneInvalid)
    else if GetScene(rank, store, scope).Err? then Some(GetScene(rank, store, scope).error)
    else None
  }

  lemma DeltaWritesDistinct(baseline: Scene, next: Scene)
    requires DistinctElements(baseline.elements) && DistinctElements(next.elements)
    ensures DistinctIds(DeltaWrites(baseline, next))
  {
    var before, kept := Lookup(baseline.elements), Lookup(next.elements).Keys;
    ChangedAt(before, next.elements, []);
    DroppedAt(baseline.elements, kept, []);
    forall w | w in Changed(before, next.elements) ensures w.id in kept {
      ChangedAt(before, next.elements, w.id);
    }
    forall w | w in Dropped(baseline.elements, kept) ensures w.id !in kept {
      DroppedAt(baseline.elements, kept, w.id);
    }
    DistinctConcat(Changed(before, next.elements), Dropped(baseline.elements, kept), kept);
  }

  /** The merge law: each element is merged three ways. */
  lemma DeltaMergesElements(rank: Collation, store: Store, actorId: Str, baseline: Scene, next: Scene, id: Str)
    requires TotalOrder(rank) && KeyedByOwner(store.elements) && store.page.Some?
    requires DistinctElements(baseline.elements) && DistinctElements(next.elements)
    ensures var after := DeltaStore(rank, store, actorId, baseline, next).elements;
            KeyedByOwner(after)
            && Live(rank, after, id) == Merge3(Live(rank, store.elements, id),
                                               Get(Lookup(baseline.elements), id), Get(Lookup(next.elements), id))
  {
    DeltaWritesDistinct(baseline, next);
    WriteLookup(rank, store.elements, actorId, DeltaWrites(baseline, next), id);
    ChangedAt(Lookup(baseline.elements), next.elements, id);
    DroppedAt(baseline.elements, Lookup(next.elements).Keys, id);
  }

  lemma {:induction false} ChangedNone(before: map<Str, CanonicalJson>, elements: seq<Element>)
    requires forall i :: 0 <= i < |elements| ==> !Differs(before, elements[i])
    ensures Changed(before, elements) == []
  {
    if elements != [] {
      ChangedNone(before, elements[..|elements| - 1]);
    }
  }

  lemma {:induction false} DroppedNone(elements: seq<Element>, kept: set<Str>)
    requires forall i :: 0 <= i < |elements| ==> elements[i].id in kept
    ensures Dropped(elements, kept) == []
  {
    if elements != [] {
      DroppedNone(elements[..|elements| - 1], kept);
    }
  }

  /** A delta from a scene to itself is no write at all. */
  lemma NoDeltaNoChange(rank: Collation, store: Store, actorId: Str, scene: Scene)
    requires store.page.Some? && DistinctElements(scene.elements)
    ensures DeltaStore(rank, store, actorId, scene, scene) == store
  {
    LookupOf(scene.elements);
    forall i | 0 <= i < |scene.elements| ensures !Differs(Lookup(scene.elements), scene.elements[i]) {
      DiffersMeans(Lookup(scene.elements), scene.elements[i]);
    }
    ChangedNone(Lookup(scene.elements), scene.elements);
    DroppedNone(scene.elements, Lookup(scene.elements).Keys);
    assert MergeFiles(store.files, scene.files, scene.files) == store.files;
  }

  lemma MergedIdsCovered(rank: Collation, store: Store, actorId: Str, baseline: Scene, next: Scene, id: Str)
    requires TotalOrder(rank) && KeyedByOwner(store.elements) && store.page.Some?
    requires DistinctElements(baseline.elements) && DistinctElements(next.elements)
    ensures var live := Resolved(rank, DeltaStore(rank, store, actorId, baseline, next).elements);
            var current := Resolved(rank, store.elements);
            (id in live ==> id in Lookup(next.elements) || (id in current && id !in Lookup(baseline.elements)))
            && (id in current && id !in Lookup(baseline.elements) && id !in Lookup(next.elements) ==> id in live)
  {
    DeltaMergesElements(rank, store, actorId, baseline, next, id);
    LiveCases(rank, store.elements, id);
    LiveCases(rank, DeltaStore(rank, store, actorId, baseline, next).elements, id);
  }

  lemma ReadIdsOfMerge(mine: seq<Str>, theirs: seq<Str>, live: set<Str>)
    requires DistinctIdList(mine) && DistinctIdList(theirs)
    requires forall x :: x in mine ==> x !in theirs
    requires forall x :: x in live ==> x in mine || x in theirs
    requires forall x :: x in theirs ==> x in live
    ensures ReadIds(mine + theirs, live) == Restrict(mine, live) + theirs
  {
    assert DistinctIdList(mine + theirs) by {
      assert forall i, j :: 0 <= i < |mine| && 0 <= j < |theirs| ==> mine[i] in mine && theirs[j] in theirs;
    }
    ReadIdsOfCover(mine + theirs, live);
    RestrictConcat(mine, theirs, live);
    RestrictToAll(theirs, live);
  }

  /** On a local reorder the scene is read in the local order restricted to live
      ids, followed by the ids that only other actors added. */
  lemma DeltaMergesOrder(rank: Collation, store: Store, actorId: Str, baseline: Scene, next: Scene)
    requires TotalOrder(rank) && KeyedByOwner(store.elements) && store.page.Some?
    requires DistinctElements(baseline.elements) && DistinctElements(next.elements)
    requires ElementIds(baseline.elements) != ElementIds(next.elements)
    ensures var after := DeltaStore(rank, store, actorId, baseline, next);
            CurrentIds(rank, after) == Restrict(ElementIds(next.elements), Resolved(rank, after.elements).Keys)
                                       + RemoteOnly(CurrentIds(rank, store), baseline, next)
  {
    var live := Resolved(rank, DeltaStore(rank, store, actorId, baseline, next).elements).Keys;
    var current := CurrentIds(rank, store);
    ReadIdsExactlyOnce(store.order, Resolved(rank, store.elements).Keys);
    RemoteOnlyMembers(current, baseline, next);
    OwnOrder(next.elements);
    SameStableText(ElementIds(baseline.elements), ElementIds(next.elements), next.page, next.page);
    forall id ensures id in live ==> id in ElementIds(next.elements) || id in RemoteOnly(current, baseline, next)
              ensures id in RemoteOnly(current, baseline, next) ==> id in live
    {
      MergedIdsCovered(rank, store, actorId, baseline, next, id);
    }
    ReadIdsOfMerge(ElementIds(next.elements), RemoteOnly(current, baseline, next), live);
  }

  lemma {:induction false} RemoteOnlyMembers(current: seq<Str>, baseline: Scene, next: Scene)
    requires DistinctIdList(current)
    ensures DistinctIdList(RemoteOnly(current, baseline, next))
    ensures forall x :: x in RemoteOnly(current, baseline, next) <==>
              x in current && x !in Lookup(baseline.elements) && x !in Lookup(next.elements)
  {
    if current != [] {
      RemoteOnlyMembers(current[1..], baseline, next);
      assert forall x :: x in current <==> x == current[0] || x in current[1..];
    }
  }

  /** Without a local reorder the order array stays. What was live is still read in the
      same order; changed elements that had been deleted meanwhile are read as well, at
      the place that the order array gives them, or sorted behind it. */
  lemma DeltaKeepsOrder(rank: Collation, store: Store, actorId: Str, baseline: Scene, next: Scene)
    requires TotalOrder(rank) && KeyedByOwner(store.elements) && store.page.Some?
    requires DistinctElements(baseline.elements) && DistinctElements(next.elements)
    requires ElementIds(baseline.elements) == ElementIds(next.elements)
    ensures var before, after := CurrentIds(rank, store), CurrentIds(rank, DeltaStore(rank, store, actorId, baseline, next));
            && after == ReadIds(store.order, Resolved(rank, store.elements).Keys + LocallyChanged(baseline, next))
            && Restrict(after, Resolved(rank, store.elements).Keys) == before
            && (LocallyChanged(baseline, next) <= Resolved(rank, store.elements).Keys ==> after == before)
  {
    var after := DeltaStore(rank, store, actorId, baseline, next);
    var live, changed := Resolved(rank, store.elements).Keys, LocallyChanged(baseline, next);
    SameStableText(ElementIds(baseline.elements), ElementIds(next.elements), next.page, next.page);
    forall id ensures id in Resolved(rank, after.elements) <==> id in live + changed {
      DeltaMergesElements(rank, store, actorId, baseline, next, id);
      LiveCases(rank, store.elements, id);
      LiveCases(rank, after.elements, id);
      InIdSet(baseline.elements, id);
      InIdSet(next.elements, id);
    }
    assert Resolved(rank, after.elements).Keys == live + changed;
    ReadIdsRestrict(store.order, live + changed, live);
    assert changed <= live ==> live + changed == live;
  }

  /** A delta from the scene as it is read reaches the next scene, just as
      replacing the scene would. */
  lemma DeltaFromCurrent(rank: Collation, store: Store, actorId: Str, next: Scene, scope: Scope)
    requires TotalOrder(rank) && KeyedByOwner(store.elements)
    requires GetScene(rank, store, scope).Ok? && Accepted(next)
    ensures GetScene(rank, DeltaStore(rank, store, actorId, GetScene(rank, store, scope).value, next), scope) == Ok(next)
  {
    var current := GetScene(rank, store, scope).value;
    AcceptedIsDistinct(next);
    AcceptedIsDistinct(current);
    DeltaFromCurrentRaw(rank, store, actorId, current, next);
  }

  lemma SelectLookup(ids: seq<Str>, live: map<Str, CanonicalJson>)
    requires DistinctIdList(ids) && forall x :: x in ids <==> x in live
    ensures ElementIds(Select(ids, live)) == ids
    ensures DistinctElements(Select(ids, live))
    ensures Lookup(Select(ids, live)) == live
  {
    var es := Select(ids, live);
    assert ElementIds(es) == ids;
    LookupOf(es);
    forall id ensures id in Lookup(es) <==> id in live
    {
      InIdSet(es, id);
      assert id in ElementIds(es) <==> id in live;
    }
    forall id | id in live ensures Lookup(es)[id] == live[id] {
      var i :| 0 <= i < |es| && es[i].id == id;
    }
  }

  /** The scene that is read is the resolved map in reading order. */
  lemma CurrentLookup(rank: Collation, store: Store)
    requires store.page.Some?
    ensures var current := RawScene(rank, store);
            ElementIds(current.elements) == CurrentIds(rank, store)
            && DistinctElements(current.elements)
            && Lookup(current.elements) == Resolved(rank, store.elements)
  {
    var live := Resolved(rank, store.elements);
    ReadIdsExactlyOnce(store.order, live.Keys);
    SelectLookup(ReadIds(store.order, live.Keys), live);
  }

  lemma DeltaResolvesToNext(rank: Collation, store: Store, actorId: Str, current: Scene, next: Scene)
    requires TotalOrder(rank) && KeyedByOwner(store.elements) && store.page.Some?
    requires DistinctElements(current.elements) && DistinctElements(next.elements)
    requires Lookup(current.elements) == Resolved(rank, store.elements)
    ensures Resolved(rank, DeltaStore(rank, store, actorId, current, next).elements) == Lookup(next.elements)
  {
    var after := DeltaStore(rank, store, actorId, current, next).elements;
    forall id
      ensures id in Resolved(rank, after) <==> id in Lookup(next.elements)
      ensures id in Resolved(rank, after) ==> Resolved(rank, after)[id] == Lookup(next.elements)[id]
    {
      DeltaMergesElements(rank, store, actorId, current, next, id);
      LiveCases(rank, store.elements, id);
      LiveCases(rank, after, id);
    }
  }

  lemma DeltaReadsNextOrder(rank: Collation, store: Store, actorId: Str, current: Scene, next: Scene)
    requires TotalOrder(rank) && KeyedByOwner(store.elements) && store.page.Some?
    requires DistinctElements(current.elements) && DistinctElements(next.elements)
    requires Lookup(current.elements) == Resolved(rank, store.elements)
    requires ElementIds(current.elements) == CurrentIds(rank, store)
    ensures CurrentIds(rank, DeltaStore(rank, store, actorId, current, next)) == ElementIds(next.elements)
  {
    DeltaResolvesToNext(rank, store, actorId, current, next);
    OwnOrder(current.elements);
    OwnOrder(next.elements);
    if ElementIds(current.elements) != ElementIds(next.elements) {
      DeltaMergesOrder(rank, store, actorId, current, next);
      RestrictToAll(ElementIds(next.elements), Lookup(next.elements).Keys);
      RemoteOnlyNone(CurrentIds(rank, store), current, next);
    } else {
      SameIdsSameKeys(current.elements, next.elements);
      SameStableText(ElementIds(current.elements), ElementIds(next.elements), next.page, next.page);
    }
  }

  lemma MergeFromCurrent(current: Scene, next: Scene)
    ensures MergePage(current.page, current.page, next.page) == next.page
    ensures MergeFiles(current.files, current.files, next.files) == next.files
  {
    SameStableText([], [], current.page, next.page);
  }

  lemma DeltaFromCurrentRaw(rank: Collation, store: Store, actorId: Str, current: Scene, next: Scene)
    requires TotalOrder(rank) && KeyedByOwner(store.elements) && store.page.Some?
    requires current == RawScene(rank, store) && DistinctElements(next.elements)
    ensures RawScene(rank, DeltaStore(rank, store, actorId, current, next)) == next
  {
    CurrentLookup(rank, store);
    DeltaResolvesToNext(rank, store, actorId, current, next);
    DeltaReadsNextOrder(rank, store, actorId, current, next);
    MergeFromCurrent(current, next);
    ReadsAs(rank, DeltaStore(rank, store, actorId, current, next), next);
  }

  lemma SameIdsSameKeys(xs: seq<Element>, ys: seq<Element>)
    requires ElementIds(xs) == ElementIds(ys)
    ensures Lookup(xs).Keys == Lookup(ys).Keys
  {
    forall id ensures id in Lookup(xs) <==> id in Lookup(ys) {
      InIdSet(xs, id);
      InIdSet(ys, id);
    }
  }

  lemma {:induction false} RemoteOnlyNone(ids: seq<Str>, baseline: Scene, next: Scene)
    requires forall x :: x in ids ==> x in Lookup(baseline.elements)
    ensures RemoteOnly(ids, baseline, next) == []
  {
    if ids != [] {
      RemoteOnlyNone(ids[1..], baseline, next);
    }
  }

  // ----- initialize -----

  const BOOTSTRAP_ACTOR: Str := Ascii("bootstrap")

  function Bootstrap(elements: seq<Element>): Elements
  {
    if elements == [] then map[]
    else
      var n := |elements| - 1;
      Bootstrap(elements[..n])[EnvelopeKey(BOOTSTRAP_ACTOR, elements[n].id) :=
                               Envelope(BOOTSTRAP_ACTOR, elements[n].id, 0, Some(elements[n].body))]
  }

  lemma BootstrapOneMore(elements: seq<Element>, i: nat)
    requires i < |elements|
    ensures Bootstrap(elements[..i + 1])
            == Bootstrap(elements[..i])[EnvelopeKey(BOOTSTRAP_ACTOR, elements[i].id) :=
                                        Envelope(BOOTSTRAP_ACTOR, elements[i].id, 0, Some(elements[i].body))]
  {
    assert elements[..i + 1][..i] == elements[..i];
  }

  /** The roots that `initialize` leaves behind. */
  function InitialStore(scope: Scope, scene: Scene): Store
  {
    Store(Some(scope), Some(scene.page), Bootstrap(scene.elements), ElementIds(scene.elements), scene.files)
  }

  lemma {:induction false} BootstrapKeys(elements: seq<Element>)
    ensures KeyedByOwner(Bootstrap(elements))
    ensures forall k :: k in Bootstrap(elements) ==>
              Bootstrap(elements)[k].actorId == BOOTSTRAP_ACTOR && Bootstrap(elements)[k].elementId in Lookup(elements)
    ensures forall id :: id in Lookup(elements) ==> EnvelopeKey(BOOTSTRAP_ACTOR, id) in Bootstrap(elements)
  {
    if elements != [] {
      BootstrapKeys(elements[..|elements| - 1]);
    }
  }

  lemma {:induction false} BootstrapValues(elements: seq<Element>)
    requires DistinctElements(elements)
    ensures forall k :: k in Bootstrap(elements) ==>
              Get(Lookup(elements), Bootstrap(elements)[k].elementId) == Bootstrap(elements)[k].value
  {
    if elements != [] {
      var init := elements[..|elements| - 1];
      BootstrapValues(init);
      BootstrapKeys(init);
      LookupOf(init);
      assert elements[|elements| - 1].id !in Lookup(init);
    }
  }

  lemma BootstrapResolves(rank: Collation, elements: seq<Element>)
    requires TotalOrder(rank) && DistinctElements(elements)
    ensures KeyedByOwner(Bootstrap(elements))
    ensures Resolved(rank, Bootstrap(elements)) == Lookup(elements)
  {
    var es := Bootstrap(elements);
    BootstrapKeys(elements);
    BootstrapValues(elements);
    hide Bootstrap, Lookup;
    assert forall j, k :: j in es && k in es && es[j].elementId == es[k].elementId ==> j == k;
    assert forall k :: k in es ==> IsWinner(rank, es, k);
    hide IsWinner, EnvelopeKey;
    forall id
      ensures id in Resolved(rank, es) <==> id in Lookup(elements)
      ensures id in Resolved(rank, es) ==> Resolved(rank, es)[id] == Lookup(elements)[id]
    {
      LiveCases(rank, es, id);
      if id in Lookup(elements) {
        var k := EnvelopeKey(BOOTSTRAP_ACTOR, id);
        EnvelopeKeyInjective(es[k].actorId, es[k].elementId, BOOTSTRAP_ACTOR, id);
        WinnerIsLive(rank, es, k);
      } else {
        assert id !in Ids(es);
      }
    }
  }

  /** A freshly initialized document reads back its scene. */
  lemma InitializeThenRead(rank: Collation, scope: Scope, scene: Scene)
    requires TotalOrder(rank) && Accepted(scene)
    ensures KeyedByOwner(InitialStore(scope, scene).elements)
    ensures GetScene(rank, InitialStore(scope, scene), scope) == Ok(scene)
  {
    AcceptedIsDistinct(scene);
    BootstrapResolves(rank, scene.elements);
    OwnOrder(scene.elements);
    ReadsAs(rank, InitialStore(scope, scene), scene);
  }

  // ----- the file loops of applySceneDelta -----

  function PartlyMerged<T(==)>(current: Option<T>, baseline: Option<T>, next: Option<T>, written: bool, removed: bool):
    Option<T>
  {
    if removed && baseline.Some? && next.None? then None
    else if written && next.Some? && next != baseline then next
    else current
  }

  /** The changed files in `written` are set, the dropped files in `removed` deleted. */
  ghost predicate FilesPartlyMerged(
    files: map<Str, CanonicalJson>, before: map<Str, CanonicalJson>, baseline: map<Str, CanonicalJson>,
    next: map<Str, CanonicalJson>, written: set<Str>, removed: set<Str>)
  {
    forall id :: Get(files, id) ==
                 PartlyMerged(Get(before, id), Get(baseline, id), Get(next, id), id in written, id in removed)
  }

  function SetFile(files: map<Str, CanonicalJson>, baseline: map<Str, CanonicalJson>, next: map<Str, CanonicalJson>, id: Str):
    map<Str, CanonicalJson>
    requires id in next
  {
    if id !in baseline || StableStringify(baseline[id]) != StableStringify(next[id]) then files[id := next[id]] else files
  }

  lemma SetFileStep(
    files: map<Str, CanonicalJson>, before: map<Str, CanonicalJson>, baseline: map<Str, CanonicalJson>,
    next: map<Str, CanonicalJson>, written: set<Str>, id: Str)
    requires FilesPartlyMerged(files, before, baseline, next, written, {}) && id in next
    ensures FilesPartlyMerged(SetFile(files, baseline, next, id), before, baseline, next, written + {id}, {})
  {
    if id in baseline {
      StableInjectiveOnCanonical(baseline[id], next[id]);
    }
    var after := SetFile(files, baseline, next, id);
    assert forall k :: k != id ==> Get(after, k) == Get(files, k);
  }

  lemma DeleteFileStep(
    files: map<Str, CanonicalJson>, before: map<Str, CanonicalJson>, baseline: map<Str, CanonicalJson>,
    next: map<Str, CanonicalJson>, removed: set<Str>, id: Str)
    requires FilesPartlyMerged(files, before, baseline, next, next.Keys, removed) && id in baseline
    ensures FilesPartlyMerged(if id in next then files else files - {id}, before, baseline, next, next.Keys, removed + {id})
  {
    var after := if id in next then files else files - {id};
    assert forall k :: k != id ==> Get(after, k) == Get(files, k);
  }

  lemma FilesMerged(
    files: map<Str, CanonicalJson>, before: map<Str, CanonicalJson>, baseline: map<Str, CanonicalJson>,
    next: map<Str, CanonicalJson>)
    requires FilesPartlyMerged(files, before, baseline, next, next.Keys, baseline.Keys)
    ensures files == MergeFiles(before, baseline, next)
  {
    var merged := MergeFiles(before, baseline, next);
    forall k ensures Get(files, k) == Get(merged, k) {
      assert k in merged <==> Merge3(Get(before, k), Get(baseline, k), Get(next, k)).Some?;
    }
    SameLookups(files, merged);
  }

  lemma SameLookups<T>(m: map<Str, T>, n: map<Str, T>)
    requires forall k :: Get(m, k) == Get(n, k)
    ensures m == n
  {
    assert forall k :: k in m <==> Get(m, k).Some?;
    assert forall k :: k in n <==> Get(n, k).Some?;
  }

  // ----- putElement and deleteElement -----

  /** The candidate list of `putElement`: in place, or at the end. */
  function PutInto(elements: seq<Element>, e: Element): seq<Element>
  {
    if elements == [] then [e]
    else if elements[0].id == e.id then [e] + elements[1..]
    else [elements[0]] + PutInto(elements[1..], e)
  }

  ghost function PutError(rank: Collation, store: Store, scope: Scope, e: Element): Option<SceneError>
  {
    var current := GetScene(rank, store, scope);
    if current.Err? then Some(current.error)
    else if ElementError(e).Some? then ElementError(e)
    else ValidationError(current.value.(elements := PutInto(current.value.elements, e)))
  }

  lemma KnownIffLive(rank: Collation, store: Store, scope: Scope, id: Str)
    requires GetScene(rank, store, scope).Ok?
    ensures id in Lookup(GetScene(rank, store, scope).value.elements) <==> id in Resolved(rank, store.elements)
  {
    CurrentLookup(rank, store);
  }

  lemma CurrentIdsOf(rank: Collation, store: Store, scope: Scope)
    requires GetScene(rank, store, scope).Ok?
    ensures store.page.Some? && store.metadata == Some(scope)
    ensures ElementIds(GetScene(rank, store, scope).value.elements) == CurrentIds(rank, store)
  {
    CurrentLookup(rank, store);
  }

  ghost function PutStore(rank: Collation, store: Store, actorId: Str, e: Element): Store
  {
    store.(elements := Write(store.elements, actorId, e.id, Some(e.body)),
           order := if e.id in Resolved(rank, store.elements) then store.order else store.order + [e.id])
  }

  /** A write resolves its element to the written value and leaves the others. */
  lemma WriteResolves(rank: Collation, es: Elements, actorId: Str, id: Str, value: Option<CanonicalJson>)
    requires TotalOrder(rank) && KeyedByOwner(es)
    ensures var before, after := Resolved(rank, es), Resolved(rank, Write(es, actorId, id, value));
            after == if value.Some? then before[id := value.value] else before - {id}
  {
    var before, after := Resolved(rank, es), Resolved(rank, Write(es, actorId, id, value));
    forall k ensures Get(after, k) == if k == id then value else Get(before, k) {
      WriteWins(rank, es, actorId, id, value, k);
      LiveCases(rank, es, k);
      LiveCases(rank, Write(es, actorId, id, value), k);
    }
    SameLookups(after, if value.Some? then before[id := value.value] else before - {id});
  }

  lemma {:induction false} PutIntoKnown(elements: seq<Element>, e: Element)
    requires DistinctElements(elements) && exists i :: 0 <= i < |elements| && elements[i].id == e.id
    ensures |PutInto(elements, e)| == |elements|
    ensures forall i :: 0 <= i < |elements| ==> PutInto(elements, e)[i] == if elements[i].id == e.id then e else elements[i]
  {
    if elements[0].id != e.id {
      var i :| 0 <= i < |elements| && elements[i].id == e.id;
      assert elements[1..][i - 1].id == e.id;
      PutIntoKnown(elements[1..], e);
    }
  }

  lemma {:induction false} PutIntoNew(elements: seq<Element>, e: Element)
    requires forall i :: 0 <= i < |elements| ==> elements[i].id != e.id
    ensures PutInto(elements, e) == elements + [e]
  {
    if elements != [] {
      PutIntoNew(elements[1..], e);
    }
  }

  /** An id that the order array did not hold is read last, if the array holds all others. */
  lemma {:induction false} ReadAppended(order: seq<Str>, live: set<Str>, id: Str)
    requires id !in order && id !in live && forall x :: x in live ==> x in order
    ensures ReadIds(order + [id], live + {id}) == ReadIds(order, live) + [id]
    decreases |order|
  {
    if order == [] {
      assert live == {} && order + [id] == [id] && {id} - {id} == {};
      assert ReadIds([id], {id}) == [id] + ReadIds([], {});
    } else {
      assert (order + [id])[1..] == order[1..] + [id];
      var rest := if order[0] in live then live - {order[0]} else live;
      assert (live + {id}) - {order[0]} == (live - {order[0]}) + {id};
      ReadAppended(order[1..], rest, id);
    }
  }

  lemma SelectPut(ids: seq<Str>, live: map<Str, CanonicalJson>, e: Element)
    requires DistinctIdList(ids) && e.id in ids && forall x :: x in ids ==> x in live
    ensures Select(ids, live[e.id := e.body]) == PutInto(Select(ids, live), e)
  {
    var es := Select(ids, live);
    var i :| 0 <= i < |ids| && ids[i] == e.id;
    assert es[i].id == e.id;
    PutIntoKnown(es, e);
  }

  lemma SelectNew(ids: seq<Str>, live: map<Str, CanonicalJson>, e: Element)
    requires e.id !in live && forall x :: x in ids ==> x in live
    ensures Select(ids + [e.id], live[e.id := e.body]) == Select(ids, live) + [e] == PutInto(Select(ids, live), e)
  {
    PutIntoNew(Select(ids, live), e);
  }

  /** The scene is read from these ids and this map. */
  lemma RawSceneIs(rank: Collation, store: Store, live: map<Str, CanonicalJson>)
    requires store.page.Some? && live == Resolved(rank, store.elements)
    ensures forall x :: x in ReadIds(store.order, live.Keys) <==> x in live
    ensures DistinctIdList(ReadIds(store.order, live.Keys))
    ensures RawScene(rank, store) == Scene(Select(ReadIds(store.order, live.Keys), live), store.files, store.page.value)
  {
    ReadIdsExactlyOnce(store.order, live.Keys);
  }

  /** Writing an element that is read replaces it in its place, and nothing else. */
  lemma PutKnownThenRead(rank: Collation, store: Store, actorId: Str, e: Element)
    requires TotalOrder(rank) && KeyedByOwner(store.elements) && store.page.Some?
    requires e.id in Resolved(rank, store.elements)
    ensures var before := RawScene(rank, store);
            RawScene(rank, PutStore(rank, store, actorId, e)) == before.(elements := PutInto(before.elements, e))
  {
    var live := Resolved(rank, store.elements);
    WriteResolves(rank, store.elements, actorId, e.id, Some(e.body));
    hide Write, KeyedByOwner, TotalOrder, RawScene, Resolved, ReadIds, PutInto;
    RawSceneIs(rank, store, live);
    RawSceneIs(rank, PutStore(rank, store, actorId, e), live[e.id := e.body]);
    assert live[e.id := e.body].Keys == live.Keys;
    SelectPut(ReadIds(store.order, live.Keys), live, e);
  }

  /** A new element is read with its value, among the others in their order; it is read
      last if the order array holds their ids and not yet its own. */
  lemma PutNewThenRead(rank: Collation, store: Store, actorId: Str, e: Element)
    requires TotalOrder(rank) && KeyedByOwner(store.elements) && store.page.Some?
    requires e.id !in Resolved(rank, store.elements)
    ensures var before, after := RawScene(rank, store), RawScene(rank, PutStore(rank, store, actorId, e));
            && Lookup(after.elements) == Lookup(before.elements)[e.id := e.body]
            && Restrict(ElementIds(after.elements), Lookup(before.elements).Keys) == ElementIds(before.elements)
            && after.(elements := before.elements) == before
            && (e.id !in store.order && (forall x :: x in Lookup(before.elements) ==> x in store.order) ==>
                  after.elements == PutInto(before.elements, e))
  {
    var live, t := Resolved(rank, store.elements), PutStore(rank, store, actorId, e);
    WriteResolves(rank, store.elements, actorId, e.id, Some(e.body));
    CurrentLookup(rank, store);
    CurrentLookup(rank, t);
    hide Write, KeyedByOwner, TotalOrder, RawScene, Resolved, ReadIds, PutInto, Lookup, Restrict;
    RawSceneIs(rank, store, live);
    RawSceneIs(rank, t, live[e.id := e.body]);
    assert live[e.id := e.body].Keys == live.Keys + {e.id};
    ReadIdsRestrict(t.order, live.Keys + {e.id}, live.Keys);
    AppendDead(store.order, live.Keys, e.id);
    if e.id !in store.order && forall x :: x in live ==> x in store.order {
      ReadAppended(store.order, live.Keys, e.id);
      SelectNew(ReadIds(store.order, live.Keys), live, e);
    }
  }

  lemma {:induction false} AppendDead(order: seq<Str>, live: set<Str>, id: Str)
    requires id !in live
    ensures ReadIds(order + [id], live) == ReadIds(order, live)
    decreases |order|
  {
    if order == [] {
      assert [id][1..] == [];
    } else {
      assert (order + [id])[1..] == order[1..] + [id];
      AppendDead(order[1..], if order[0] in live then live - {order[0]} else live, id);
    }
  }

  /** After a delete the scene is read without the element, and is otherwise as before. */
  lemma DeleteThenRead(rank: Collation, store: Store, actorId: Str, id: Str)
    requires TotalOrder(rank) && KeyedByOwner(store.elements) && store.page.Some?
    ensures var before, after := RawScene(rank, store), RawScene(rank, store.(elements := Write(store.elements, actorId, id, None)));
            && Lookup(after.elements) == Lookup(before.elements) - {id}
            && ElementIds(after.elements) == Restrict(ElementIds(before.elements), Lookup(after.elements).Keys)
            && after.(elements := before.elements) == before
  {
    var live := Resolved(rank, store.elements).Keys;
    var t := store.(elements := Write(store.elements, actorId, id, None));
    WriteResolves(rank, store.elements, actorId, id, None);
    assert Resolved(rank, t.elements).Keys == live - {id};
    CurrentLookup(rank, store);
    CurrentLookup(rank, t);
    ReadIdsRestrict(store.order, live, live - {id});
  }

  /** A put without error reads back as the candidate scene that it validated, if the
      element was known. */
  lemma PutThenRead(rank: Collation, store: Store, actorId: Str, e: Element, scope: Scope)
    requires TotalOrder(rank) && KeyedByOwner(store.elements)
    requires PutError(rank, store, scope, e).None? && e.id in Resolved(rank, store.elements)
    ensures var current := GetScene(rank, store, scope).value;
            GetScene(rank, PutStore(rank, store, actorId, e), scope) == Ok(current.(elements := PutInto(current.elements, e)))
  {
    hide ValidationError, ElementError;
    PutKnownThenRead(rank, store, actorId, e);
    hide PutInto, RawScene, Resolved;
  }
}
