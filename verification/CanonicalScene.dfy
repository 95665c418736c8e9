/** Canonical scenes: their JSON form, their validation, and how a scene is read
    back from the shared roots. */
module CanonicalScene {
  import opened Wrappers
  import opened Text
  import opened Json
  import opened ElementStore
  import KeyParts

  const MAX_DEPTH: nat := 20
  const MAX_DOCUMENT_BYTES: nat := 16 * 1024 * 1024
  const MAX_STRING_LENGTH: nat := 12 * 1024 * 1024
  const MAX_ELEMENTS: nat := 2000
  const MAX_FILES: nat := 256
  const MAX_IDENTIFIER_LENGTH: nat := 128

  datatype SceneError =
    | AuthorityAlreadyInitialized
    | AuthorityNotInitialized
    | AuthorityScopeInvalid
    | AuthorityScopeMismatch
    | SceneDuplicateElement
    | SceneElementLimit
    | SceneElementUnsupported
    | SceneFileLimit
    | SceneInvalid
    | SceneStorageCorrupt
    | SceneTooDeep
    | SceneTooLarge

  datatype Page = Page(backgroundColor: Str, id: Str, name: Str)

  /** An element object under its `id`; `body` is the whole object, id included. */
  datatype Element = Element(id: Str, body: CanonicalJson)

  datatype Scene = Scene(elements: seq<Element>, files: map<Str, CanonicalJson>, page: Page)

  function Ascii(s: string): (r: Str)
    ensures |r| == |s|
    ensures forall i :: 0 <= i < |s| && s[i] as int < 128 ==> r[i] == s[i] as int
  {
    seq(|s|, i requires 0 <= i < |s| => if s[i] as int < 128 then s[i] as int else 63)
  }

  // ----- the JSON form of a scene -----

  function ElementIds(elements: seq<Element>): (r: seq<Str>)
    ensures |r| == |elements| && forall i :: 0 <= i < |r| ==> r[i] == elements[i].id
  {
    seq(|elements|, i requires 0 <= i < |elements| => elements[i].id)
  }

  function IdsJson(ids: seq<Str>): CanonicalJson
  {
    var items := seq(|ids|, i requires 0 <= i < |ids| => Json.Str(ids[i]));
    assert forall i :: 0 <= i < |items| ==> Canonical(items[i]);
    Arr(items)
  }

  function ElementsJson(elements: seq<Element>): CanonicalJson
  {
    Arr(seq(|elements|, i requires 0 <= i < |elements| => elements[i].body))
  }

  function PageJson(page: Page): CanonicalJson
  {
    var b, i, n := Ascii("backgroundColor"), Ascii("id"), Ascii("name");
    assert b[0] == 98 && i[0] == 105 && n[0] == 110;
    assert Canonical(Json.Str(page.backgroundColor)) && Canonical(Json.Str(page.id)) && Canonical(Json.Str(page.name));
    Obj([Entry(b, Json.Str(page.backgroundColor)), Entry(i, Json.Str(page.id)), Entry(n, Json.Str(page.name))])
  }

  function FilesJson(files: map<Str, CanonicalJson>): CanonicalJson
  {
    var ids := SortedSet(files.Keys);
    Obj(seq(|ids|, i requires 0 <= i < |ids| => assert ids[i] in files; Entry(ids[i], files[ids[i]])))
  }

  function SceneJson(scene: Scene): CanonicalJson
  {
    var e, f, p, v := Ascii("elements"), Ascii("files"), Ascii("page"), Ascii("schemaVersion");
    assert e[0] == 101 && f[0] == 102 && p[0] == 112 && v[0] == 115;
    assert Canonical(Num([49]));
    Obj([Entry(e, ElementsJson(scene.elements)), Entry(f, FilesJson(scene.files)), Entry(p, PageJson(scene.page)),
         Entry(v, Num([49]))])
  }

  /** The tests `stableStringify(x) !== stableStringify(y)` on pages, lists of
      ids and whole scenes are inequality tests. */
  lemma SameStableText(ids: seq<Str>, jds: seq<Str>, page: Page, qage: Page)
    ensures StableStringify(IdsJson(ids)) == StableStringify(IdsJson(jds)) <==> ids == jds
    ensures StableStringify(PageJson(page)) == StableStringify(PageJson(qage)) <==> page == qage
  {
    StableInjectiveOnCanonical(IdsJson(ids), IdsJson(jds));
    StableInjectiveOnCanonical(PageJson(page), PageJson(qage));
    if IdsJson(ids) == IdsJson(jds) {
      forall i | 0 <= i < |ids| ensures ids[i] == jds[i] {
        assert IdsJson(ids).items[i] == IdsJson(jds).items[i];
      }
      assert ids == jds;
    }
    if PageJson(page) == PageJson(qage) {
      assert forall i :: 0 <= i < 3 ==> PageJson(page).fields[i] == PageJson(qage).fields[i];
    }
  }

  // ----- validateCanonicalScene -----

  predicate IsIdentifierUnit(u: Unit)
  {
    IsDigit(u) || 65 <= u <= 90 || 97 <= u <= 122 || u == 46 || u == 95 || u == 58 || u == 45
  }

  predicate IsIdentifier(s: Str)
  {
    0 < |s| <= MAX_IDENTIFIER_LENGTH && forall i :: 0 <= i < |s| ==> IsIdentifierUnit(s[i])
  }

  function Utf8Length(s: Str): nat
  {
    if s == [] then 0
    else if StartsWithPair(s) then 4 + Utf8Length(s[2..])
    else (if s[0] < 0x80 then 1 else if s[0] < 0x800 then 2 else 3) + Utf8Length(s[1..])
  }

  function DocumentBytes(scene: Scene): nat
  {
    Utf8Length(StableStringify(SceneJson(scene)))
  }

  /** The first error that `validateJsonBounds` meets. */
  function BoundsError(v: Json, depth: nat): Option<SceneError>
    decreases v, 1
  {
    if depth > MAX_DEPTH then Some(SceneTooDeep)
    else
      match v
      case Str(s) => if |s| > MAX_STRING_LENGTH then Some(SceneTooLarge) else None
      case Arr(items) => ItemsBoundsError(items, depth + 1)
      case Obj(fields) => FieldsBoundsError(fields, depth + 1)
      case _ => None
  }

  function ItemsBoundsError(items: seq<Json>, depth: nat): Option<SceneError>
    decreases items, 0
  {
    if items == [] then None
    else
      var e := BoundsError(items[0], depth);
      if e.Some? then e else ItemsBoundsError(items[1..], depth)
  }

  function FieldsBoundsError(fields: seq<Entry<Json>>, depth: nat): Option<SceneError>
    decreases fields, 0
  {
    if fields == [] then None
    else
      var e := BoundsError(fields[0].value, depth);
      if e.Some? then e else FieldsBoundsError(fields[1..], depth)
  }

  function Field(fields: seq<Entry<Json>>, name: string): Option<Json>
  {
    if fields == [] then None
    else if fields[0].key == Ascii(name) then Some(fields[0].value)
    else Field(fields[1..], name)
  }

  predicate IsNumberField(fields: seq<Entry<Json>>, name: string)
  {
    Field(fields, name).Some? && Field(fields, name).value.Num?
  }

  predicate SupportedType(t: Str)
  {
    t == Ascii("arrow") || t == Ascii("diamond") || t == Ascii("ellipse") || t == Ascii("frame")
    || t == Ascii("freedraw") || t == Ascii("image") || t == Ascii("line") || t == Ascii("rectangle")
    || t == Ascii("text")
  }

  function ElementError(e: Element): Option<SceneError>
  {
    if !e.body.Obj? then Some(SceneInvalid)
    else
      var fields := e.body.fields;
      var kind := Field(fields, "type");
      if Field(fields, "id") != Some(Json.Str(e.id)) || !IsIdentifier(e.id) then Some(SceneInvalid)
      else if kind == None || !kind.value.Str? || !SupportedType(kind.value.s) then Some(SceneElementUnsupported)
      else if !(IsNumberField(fields, "x") && IsNumberField(fields, "y")
                && IsNumberField(fields, "width") && IsNumberField(fields, "height")) then Some(SceneInvalid)
      else
        var t := kind.value.s;
        var text, fileId, points := Field(fields, "text"), Field(fields, "fileId"), Field(fields, "points");
        if t == Ascii("text") && !(text.Some? && text.value.Str?) then Some(SceneInvalid)
        else if t == Ascii("image") && !(fileId.Some? && (fileId.value.Null? || fileId.value.Str?)) then Some(SceneInvalid)
        else if (t == Ascii("line") || t == Ascii("arrow")) && !(points.Some? && points.value.Arr?) then Some(SceneInvalid)
        else None
  }

  function ElementsError(elements: seq<Element>): Option<SceneError>
  {
    if elements == [] then None
    else if ElementError(elements[0]).Some? then ElementError(elements[0])
    else ElementsError(elements[1..])
  }

  predicate DistinctElements(elements: seq<Element>)
  {
    forall i, j :: 0 <= i < j < |elements| ==> elements[i].id != elements[j].id
  }

  /** The error that `validateCanonicalScene` throws, if any. */
  function ValidationError(scene: Scene): Option<SceneError>
  {
    if DocumentBytes(scene) > MAX_DOCUMENT_BYTES then Some(SceneTooLarge)
    else if BoundsError(SceneJson(scene), 0).Some? then BoundsError(SceneJson(scene), 0)
    else if |scene.elements| > MAX_ELEMENTS then Some(SceneElementLimit)
    else if ElementsError(scene.elements).Some? then ElementsError(scene.elements)
    else if !DistinctElements(scene.elements) then Some(SceneDuplicateElement)
    else if |scene.files| > MAX_FILES then Some(SceneFileLimit)
    else if exists id :: id in scene.files && !(IsIdentifier(id) && scene.files[id].Obj?) then Some(SceneInvalid)
    else if !IsIdentifier(scene.page.id)
            || !(0 < |scene.page.backgroundColor| <= 64)
            || !(0 < |scene.page.name| <= 256) then Some(SceneInvalid)
    else None
  }

  predicate Accepted(scene: Scene)
  {
    ValidationError(scene).None?
  }

  lemma AcceptedIsDistinct(scene: Scene)
    requires Accepted(scene)
    ensures DistinctElements(scene.elements)
  {
  }

  // ----- the shared roots -----

  datatype Scope = Scope(tenantId: Str, documentId: Str, generation: nat)

  predicate ValidScope(scope: Scope)
  {
    IsIdentifier(scope.tenantId) && IsIdentifier(scope.documentId) && KeyParts.PositiveSafe(scope.generation)
  }

  /** Why a document cannot be opened for this scope and actor. */
  function OpenError(store: Store, scope: Scope, actorId: Str): Option<SceneError>
  {
    if !ValidScope(scope) || !IsIdentifier(actorId) then Some(AuthorityScopeInvalid)
    else if store.metadata.Some? && store.metadata != Some(scope) then Some(AuthorityScopeMismatch)
    else None
  }

  /** The five Yjs roots. Stored texts are represented by what they parse to. */
  datatype Store = Store(
    metadata: Option<Scope>,
    page: Option<Page>,
    elements: Elements,
    order: seq<Str>,
    files: map<Str, CanonicalJson>)

  /** The element order of `readScene`: live ids in the stored order, each once,
      then the live ids that the order array lacks, sorted. */
  function ReadIds(order: seq<Str>, live: set<Str>): seq<Str>
    decreases |order|
  {
    if order == [] then SortedSet(live)
    else if order[0] in live then [order[0]] + ReadIds(order[1..], live - {order[0]})
    else ReadIds(order[1..], live)
  }

  function Select(ids: seq<Str>, live: map<Str, CanonicalJson>): (r: seq<Element>)
    requires forall x :: x in ids ==> x in live
    ensures |r| == |ids| && forall i :: 0 <= i < |r| ==> r[i] == Element(ids[i], live[ids[i]])
  {
    seq(|ids|, i requires 0 <= i < |ids| => Element(ids[i], live[ids[i]]))
  }

  predicate DistinctIdList(ids: seq<Str>)
  {
    forall i, j :: 0 <= i < j < |ids| ==> ids[i] != ids[j]
  }

  /** Reading lists every live element exactly once, whatever duplicates or dead
      ids the order array holds. */
  lemma {:induction false} ReadIdsExactlyOnce(order: seq<Str>, live: set<Str>)
    ensures forall x :: x in ReadIds(order, live) <==> x in live
    ensures DistinctIdList(ReadIds(order, live))
    decreases |order|
  {
    if order == [] {
      var r := SortedSet(live);
      forall i, j | 0 <= i < j < |r| ensures r[i] != r[j] {
        LessTotal(r[i], r[j]);
      }
    } else if order[0] in live {
      ReadIdsExactlyOnce(order[1..], live - {order[0]});
    } else {
      ReadIdsExactlyOnce(order[1..], live);
    }
  }

  /** The stored scene before `validateCanonicalScene` looks at it. */
  ghost function RawScene(rank: Collation, store: Store): Scene
    requires store.page.Some?
  {
    var live := Resolved(rank, store.elements);
    ReadIdsExactlyOnce(store.order, live.Keys);
    Scene(Select(ReadIds(store.order, live.Keys), live), store.files, store.page.value)
  }

  /** `getScene`. */
  ghost function GetScene(rank: Collation, store: Store, scope: Scope): Result<Scene, SceneError>
  {
    if store.metadata == None then Err(AuthorityNotInitialized)
    else if store.metadata != Some(scope) then Err(AuthorityScopeMismatch)
    else if store.page == None then Err(SceneStorageCorrupt)
    else
      var scene := RawScene(rank, store);
      if Accepted(scene) then Ok(scene) else Err(ValidationError(scene).value)
  }
}
