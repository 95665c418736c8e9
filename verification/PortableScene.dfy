/** The portable scene file: export, import, and what both take from outside. */
module PortableScene {
  import opened Wrappers
  import opened Text
  import opened Json
  import opened JsonValues
  import opened ElementStore
  import opened CanonicalScene
  import SemanticHash

  type Byte = SemanticHash.Byte

  /** The code that the pipeline calls and this model does not contain: the text and
      binary codecs, the hashes, the dates, the content rules, the reader of a scene
      object, and Yjs updates. */
  datatype Environment = Environment(
    utf8: Str -> seq<Byte>,
    text: seq<Byte> -> Option<Str>,
    parse: Str -> Option<Value>,
    order: Value -> Json,
    hex: int -> Str,
    isIso: Str -> bool,
    passive: Str -> bool,
    sceneOf: Value -> Option<Scene>,
    sha256: seq<Byte> -> Str,
    hmac: (Str, Str) -> Str,
    isHex64: Str -> bool,
    base64: seq<Byte> -> Str,
    unbase64: Str -> Option<seq<Byte>>,
    isKeyId: Str -> bool,
    applyUpdate: seq<Byte> -> Option<Store>,
    encode: Store -> seq<Byte>,
    stateVector: seq<Byte> -> seq<Byte>,
    rank: Collation)

  /** What is assumed of it: decoding undoes encoding on JSON texts, parsing a JSON
      text gives the value it was made from, an update restores the roots that it
      encodes, and hashes print as hexadecimal. Nothing is assumed injective. */
  ghost predicate Laws(env: Environment)
  {
    && (forall j: Json :: WellFormed(j) ==>
          env.text(env.utf8(Stringify(j))) == Some(Stringify(j)) && env.parse(Stringify(j)) == Some(Denote(j)))
    && (forall t: Str :: |env.utf8(t)| == Utf8Length(t))
    && (forall v: Value :: WellFormed(env.order(v)) && Denote(env.order(v)) == v)
    && (forall s: Scene :: Accepted(s) ==> env.sceneOf(Denote(SceneJson(s))) == Some(s))
    && (forall b: seq<Byte> :: env.isHex64(env.sha256(b)) && env.unbase64(env.base64(b)) == Some(b))
    && (forall t: Str, u: Str :: env.isHex64(env.hmac(t, u)))
    && (forall s: Store :: env.applyUpdate(env.encode(s)) == Some(s))
    && TotalOrder(env.rank)
  }

  // ----- an accepted scene is determined by its JSON value -----

  lemma {:induction false} EveryElementValid(elements: seq<Element>, i: nat)
    requires ElementsError(elements).None? && i < |elements|
    ensures ElementError(elements[i]).None?
  {
    if i > 0 {
      EveryElementValid(elements[1..], i - 1);
    }
  }

  lemma SameElements(a: seq<Element>, b: seq<Element>)
    requires ElementsError(a).None? && ElementsError(b).None? && ElementsJson(a) == ElementsJson(b)
    ensures a == b
  {
    assert |a| == |ElementsJson(a).items| == |b|;
    forall i | 0 <= i < |a| ensures a[i] == b[i] {
      assert ElementsJson(a).items[i] == a[i].body && ElementsJson(b).items[i] == b[i].body;
      EveryElementValid(a, i);
      EveryElementValid(b, i);
    }
  }

  lemma SameFiles(a: map<Str, CanonicalJson>, b: map<Str, CanonicalJson>)
    requires FilesJson(a) == FilesJson(b)
    ensures a == b
  {
    var x, y := SortedSet(a.Keys), SortedSet(b.Keys);
    var f, g := FilesJson(a).fields, FilesJson(b).fields;
    assert |x| == |f| == |y|;
    forall i | 0 <= i < |x| ensures x[i] == y[i] && a[x[i]] == b[y[i]] {
      assert f[i].key == x[i] && g[i].key == y[i];
    }
    forall k | k in a ensures k in b && a[k] == b[k] {
      var i :| 0 <= i < |x| && x[i] == k;
    }
    forall k | k in b ensures k in a {
      var i :| 0 <= i < |y| && y[i] == k;
    }
  }

  lemma SceneParts(s: Scene, t: Scene)
    requires SceneJson(s) == SceneJson(t)
    ensures ElementsJson(s.elements) == ElementsJson(t.elements) && FilesJson(s.files) == FilesJson(t.files)
    ensures PageJson(s.page) == PageJson(t.page)
  {
    hide ElementsJson, FilesJson, PageJson, Ascii;
    var f, g := SceneJson(s).fields, SceneJson(t).fields;
    assert f[0] == g[0] && f[1] == g[1] && f[2] == g[2];
  }

  /** So a reader of scene objects, as the laws demand it, exists. */
  lemma AcceptedSceneIsItsValue(s: Scene, t: Scene)
    requires Accepted(s) && Accepted(t) && Denote(SceneJson(s)) == Denote(SceneJson(t))
    ensures s == t
  {
    CanonicalIsWellFormed(SceneJson(s));
    CanonicalIsWellFormed(SceneJson(t));
    AcceptedElements(s);
    AcceptedElements(t);
    hide SceneJson, Denote, Accepted, ElementsError, StableStringify;
    StableTextIffSameValue(SceneJson(s), SceneJson(t));
    StableInjectiveOnCanonical(SceneJson(s), SceneJson(t));
    SceneParts(s, t);
    SameElements(s.elements, t.elements);
    SameFiles(s.files, t.files);
    SameStableText([], [], s.page, t.page);
  }

  lemma AcceptedElements(s: Scene)
    requires Accepted(s)
    ensures ElementsError(s.elements).None?
  {
  }

  const MAX_PORTABLE_BYTES: nat := 16 * 1024 * 1024
  const MAX_PORTABLE_DEPTH: nat := MAX_DEPTH + 4

  datatype PortableError =
    | ContentDenied
    | PortableCorrupt
    | FormatUnsupported
    | HashMismatch
    | PortableTooLarge
    | SceneRejected(cause: SceneError)

  // ----- reading objects -----

  function Prop(v: Value, name: string): Option<Value>
  {
    if v.VObj? && Ascii(name) in v.fields then Some(v.fields[Ascii(name)]) else None
  }

  predicate IsText(v: Option<Value>)
  {
    v.Some? && v.value.VStr?
  }

  function TextOf(s: string): Value
  {
    VStr(Ascii(s))
  }

  lemma PropOf(fields: seq<Entry<Json>>, i: nat, name: string)
    requires DistinctKeys(fields) && i < |fields| && fields[i].key == Ascii(name)
    ensures Prop(Denote(Obj(fields)), name) == Some(Denote(fields[i].value))
  {
    AsMapLookup(DenoteEntries(fields));
  }

  lemma {:induction false} CanonicalIsWellFormed(v: Json)
    requires Canonical(v)
    ensures WellFormed(v)
    decreases v
  {
    match v
    case Arr(items) =>
      forall i | 0 <= i < |items| ensures WellFormed(items[i]) {
        CanonicalIsWellFormed(items[i]);
      }
    case Obj(fields) =>
      SortedIsDistinct(fields);
      forall i | 0 <= i < |fields| ensures WellFormed(fields[i].value) {
        CanonicalIsWellFormed(fields[i].value);
      }
    case _ =>
  }

  // ----- content -----

  predicate ForbiddenKey(key: Str)
  {
    key == Ascii("__proto__") || key == Ascii("constructor") || key == Ascii("prototype")
  }

  /** No value nests deeper than the limit, and no property has a forbidden name. */
  predicate Shallow(v: Value, depth: nat, limit: nat)
    decreases v
  {
    depth <= limit
    && match v
       case VArr(items) => forall i :: 0 <= i < |items| ==> Shallow(items[i], depth + 1, limit)
       case VObj(fields) => forall k :: k in fields ==> !ForbiddenKey(k) && Shallow(fields[k], depth + 1, limit)
       case _ => true
  }

  /** `assertNoActiveContent` does not throw. */
  predicate NoActiveContent(env: Environment, v: Value, depth: nat)
    decreases v
  {
    depth <= MAX_PORTABLE_DEPTH
    && match v
       case VStr(s) => env.passive(s)
       case VArr(items) => forall i :: 0 <= i < |items| ==> NoActiveContent(env, items[i], depth + 1)
       case VObj(fields) =>
         forall k :: k in fields ==> !ForbiddenKey(k) && NoActiveContent(env, fields[k], depth + 1)
       case _ => true
  }

  lemma {:induction false} PassiveIsShallow(env: Environment, v: Value, depth: nat, below: nat, limit: nat)
    requires NoActiveContent(env, v, depth) && limit >= MAX_PORTABLE_DEPTH + below
    ensures Shallow(v, depth + below, limit)
    decreases v
  {
    match v
    case VArr(items) =>
      forall i | 0 <= i < |items| ensures Shallow(items[i], depth + below + 1, limit) {
        PassiveIsShallow(env, items[i], depth + 1, below, limit);
      }
    case VObj(fields) =>
      forall k | k in fields ensures !ForbiddenKey(k) && Shallow(fields[k], depth + below + 1, limit) {
        PassiveIsShallow(env, fields[k], depth + 1, below, limit);
      }
    case _ =>
  }

  // ----- the file -----

  function HashOf(env: Environment, scene: Scene): Str
  {
    env.hex(SemanticHash.Fnv1a(env.utf8(StableStringify(SceneJson(scene)))))
  }

  function NameVersion(name: string, version: string): Json
  {
    Obj([Entry(Ascii("name"), Json.Str(Ascii(name))), Entry(Ascii("version"), Json.Str(Ascii(version)))])
  }

  function FileObject(engine: Json, exportedAt: Str, scene: Json, hash: Str): Json
  {
    Obj([Entry(Ascii("canonicalSchemaVersion"), Num([49])),
         Entry(Ascii("engine"), engine),
         Entry(Ascii("exportedAt"), Json.Str(exportedAt)),
         Entry(Ascii("format"), Json.Str(Ascii("tutorhub.excalidraw.portable-scene"))),
         Entry(Ascii("formatVersion"), Num([49])),
         Entry(Ascii("scene"), scene),
         Entry(Ascii("semanticHash"), Json.Str(hash))])
  }

  function PortableJson(env: Environment, scene: Scene, exportedAt: Str): Json
  {
    FileObject(NameVersion("excalidraw", "0.18.1"), exportedAt, SceneJson(scene), HashOf(env, scene))
  }

  function ExportScene(env: Environment, scene: Scene, exportedAt: Str): Result<seq<Byte>, PortableError>
  {
    if !Accepted(scene) then Err(SceneRejected(ValidationError(scene).value))
    else if !env.isIso(exportedAt) then Err(PortableCorrupt)
    else if !NoActiveContent(env, Denote(SceneJson(scene)), 0) then Err(ContentDenied)
    else
      var bytes := env.utf8(Stringify(PortableJson(env, scene, exportedAt)));
      if |bytes| > MAX_PORTABLE_BYTES then Err(PortableTooLarge) else Ok(bytes)
  }

  function Parsed(env: Environment, bytes: seq<Byte>): Option<Value>
  {
    if env.text(bytes).None? then None else env.parse(env.text(bytes).value)
  }

  predicate IsNameVersion(v: Option<Value>, name: string, version: string)
  {
    v.Some? && Prop(v.value, "name") == Some(TextOf(name)) && Prop(v.value, "version") == Some(TextOf(version))
  }

  /** The checks on the parsed file. */
  function ImportValue(env: Environment, v: Value): Result<Scene, PortableError>
  {
    if !v.VObj? then Err(PortableCorrupt)
    else if Prop(v, "format") != Some(TextOf("tutorhub.excalidraw.portable-scene"))
            || Prop(v, "formatVersion") != Some(VNum([49]))
            || Prop(v, "canonicalSchemaVersion") != Some(VNum([49]))
            || !IsNameVersion(Prop(v, "engine"), "excalidraw", "0.18.1") then Err(FormatUnsupported)
    else if !IsText(Prop(v, "exportedAt")) || !env.isIso(Prop(v, "exportedAt").value.s)
            || !IsText(Prop(v, "semanticHash")) then Err(PortableCorrupt)
    else if Prop(v, "scene").None? then Err(PortableCorrupt)
    else if !NoActiveContent(env, Prop(v, "scene").value, 0) then Err(ContentDenied)
    else
      var scene := env.sceneOf(Prop(v, "scene").value);
      if scene.None? || !Accepted(scene.value) then Err(PortableCorrupt)
      else if HashOf(env, scene.value) != Prop(v, "semanticHash").value.s then Err(HashMismatch)
      else Ok(scene.value)
  }

  function ImportScene(env: Environment, bytes: seq<Byte>): Result<Scene, PortableError>
  {
    if |bytes| == 0 then Err(PortableCorrupt)
    else if |bytes| > MAX_PORTABLE_BYTES then Err(PortableTooLarge)
    else if Parsed(env, bytes).None? then Err(PortableCorrupt)
    else ImportValue(env, Parsed(env, bytes).value)
  }

  // ----- what import does with an export -----

  lemma NameVersionProps(name: string, version: string)
    ensures WellFormed(NameVersion(name, version))
    ensures IsNameVersion(Some(Denote(NameVersion(name, version))), name, version)
  {
    var fields := NameVersion(name, version).fields;
    assert |fields[0].key| != |fields[1].key|;
    PropOf(fields, 0, "name");
    PropOf(fields, 1, "version");
  }

  lemma FileKeysDistinct(engine: Json, exportedAt: Str, scene: Json, hash: Str)
    ensures DistinctKeys(FileObject(engine, exportedAt, scene, hash).fields)
  {
    var f := FileObject(engine, exportedAt, scene, hash).fields;
    assert |f[0].key| == 22 && |f[1].key| == 6 && |f[2].key| == 10 && |f[3].key| == 6 && |f[4].key| == 13
        && |f[5].key| == 5 && |f[6].key| == 12;
    assert f[1].key[0] == 101 && f[3].key[0] == 102;
  }

  lemma WellFormedObject(fields: seq<Entry<Json>>)
    requires DistinctKeys(fields) && forall i :: 0 <= i < |fields| ==> WellFormed(fields[i].value)
    ensures WellFormed(Obj(fields))
  {
  }

  lemma FileWellFormed(engine: Json, exportedAt: Str, scene: Json, hash: Str)
    requires WellFormed(engine) && WellFormed(scene)
    ensures WellFormed(FileObject(engine, exportedAt, scene, hash))
  {
    FileKeysDistinct(engine, exportedAt, scene, hash);
    hide Ascii, DistinctKeys;
    WellFormedObject(FileObject(engine, exportedAt, scene, hash).fields);
  }

  lemma PortableWellFormed(env: Environment, scene: Scene, exportedAt: Str)
    ensures WellFormed(PortableJson(env, scene, exportedAt))
  {
    hide SceneJson, NameVersion, HashOf, FileObject, WellFormed;
    NameVersionProps("excalidraw", "0.18.1");
    CanonicalIsWellFormed(SceneJson(scene));
    FileWellFormed(NameVersion("excalidraw", "0.18.1"), exportedAt, SceneJson(scene), HashOf(env, scene));
  }

  lemma PortableProps(env: Environment, scene: Scene, exportedAt: Str)
    ensures var v := Denote(PortableJson(env, scene, exportedAt));
            && Prop(v, "canonicalSchemaVersion") == Some(VNum([49]))
            && Prop(v, "engine") == Some(Denote(NameVersion("excalidraw", "0.18.1")))
            && Prop(v, "exportedAt") == Some(VStr(exportedAt))
            && Prop(v, "format") == Some(TextOf("tutorhub.excalidraw.portable-scene"))
            && Prop(v, "formatVersion") == Some(VNum([49]))
            && Prop(v, "scene") == Some(Denote(SceneJson(scene)))
            && Prop(v, "semanticHash") == Some(VStr(HashOf(env, scene)))
  {
    hide Ascii, SceneJson, NameVersion, Prop, HashOf;
    var fields := PortableJson(env, scene, exportedAt).fields;
    FileKeysDistinct(NameVersion("excalidraw", "0.18.1"), exportedAt, SceneJson(scene), HashOf(env, scene));
    PropOf(fields, 0, "canonicalSchemaVersion");
    PropOf(fields, 1, "engine");
    PropOf(fields, 2, "exportedAt");
    PropOf(fields, 3, "format");
    PropOf(fields, 4, "formatVersion");
    PropOf(fields, 5, "scene");
    PropOf(fields, 6, "semanticHash");
  }

  /** The parsed value of an exported file passes every check. */
  lemma ImportedValue(env: Environment, scene: Scene, exportedAt: Str)
    requires env.sceneOf(Denote(SceneJson(scene))) == Some(scene)
    requires Accepted(scene) && env.isIso(exportedAt) && NoActiveContent(env, Denote(SceneJson(scene)), 0)
    ensures ImportValue(env, Denote(PortableJson(env, scene, exportedAt))) == Ok(scene)
  {
    hide PortableJson, SceneJson, NameVersion, Prop, HashOf, Ascii, NoActiveContent, Accepted, IsNameVersion, Denote;
    PortableProps(env, scene, exportedAt);
    NameVersionProps("excalidraw", "0.18.1");
    FileIsObject(env, scene, exportedAt);
  }

  lemma SceneOfScene(env: Environment, scene: Scene)
    requires Laws(env) && Accepted(scene)
    ensures env.sceneOf(Denote(SceneJson(scene))) == Some(scene)
  {
  }

  /** A JSON text encodes to at least one byte, and parses to its value. */
  lemma TextRoundTrip(env: Environment, j: Json)
    requires Laws(env) && WellFormed(j)
    ensures Parsed(env, env.utf8(Stringify(j))) == Some(Denote(j))
    ensures |env.utf8(Stringify(j))| == Utf8Length(Stringify(j)) > 0
  {
    hide Stringify, Denote;
    StringifyStartsPlain(j);
  }

  /** A JSON text of an exported file, in whatever key order, imports as the scene. */
  lemma ImportUndoesExport(env: Environment, scene: Scene, exportedAt: Str, j: Json)
    requires Laws(env) && ExportScene(env, scene, exportedAt).Ok?
    requires WellFormed(j) && Denote(j) == Denote(PortableJson(env, scene, exportedAt))
    ensures ImportScene(env, env.utf8(Stringify(j))) == Ok(scene)
  {
    var file := PortableJson(env, scene, exportedAt);
    PortableWellFormed(env, scene, exportedAt);
    SceneOfScene(env, scene);
    ImportedValue(env, scene, exportedAt);
    TextRoundTrip(env, j);
    TextRoundTrip(env, file);
    LengthIgnoresKeyOrder(j, file);
    hide Laws, PortableJson, ImportValue, Stringify, Denote, NoActiveContent, Accepted, SceneJson;
  }

  lemma FileIsObject(env: Environment, scene: Scene, exportedAt: Str)
    ensures Denote(PortableJson(env, scene, exportedAt)).VObj?
  {
  }

  lemma ImportIsAccepted(env: Environment, bytes: seq<Byte>)
    requires ImportScene(env, bytes).Ok?
    ensures Accepted(ImportScene(env, bytes).value)
  {
  }
}
