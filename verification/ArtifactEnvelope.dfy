/** The signed snapshot envelope: created from a provider state, verified against
    a scope and the known keys. */
module ArtifactEnvelope {
  import opened Wrappers
  import opened Text
  import opened Json
  import opened JsonValues
  import opened ElementStore
  import opened CanonicalScene
  import opened PortableScene

  const MAX_ARTIFACT_BYTES: nat := 32 * 1024 * 1024
  const MAX_PROVIDER_STATE_BYTES: nat := 20 * 1024 * 1024
  const MAX_JSON_DEPTH: nat := 28

  /** `ArtifactContentDenied` stands for the two codes that the depth and key check
      may report. */
  datatype ArtifactError =
    | ArtifactContentDenied
    | BindingInvalid
    | ChecksumMismatch
    | ArtifactCorrupt
    | ScopeMismatch
    | ArtifactTooLarge
    | VersionUnsupported

  datatype BindingKey = BindingKey(id: Str, secret: Str)

  /** The parts of an envelope that vary. */
  datatype Unsigned = Unsigned(
    causalWatermark: Str,
    causalWatermarkSha256: Str,
    createdAt: Str,
    portableScene: Json,
    providerState: Str,
    providerStateSha256: Str,
    scope: Json,
    semanticHash: Str)

  datatype Created = Created(bytes: seq<Byte>, causalWatermarkSha256: Str, contentSha256: Str, semanticHash: Str)
  datatype Verified = Verified(providerState: seq<Byte>, scene: Scene, semanticHash: Str)

  // ----- the envelope as an object -----

  function ScopeJson(scope: Scope): Json
  {
    Obj([Entry(Ascii("documentId"), Json.Str(scope.documentId)),
         Entry(Ascii("generation"), Num(Decimal(scope.generation))),
         Entry(Ascii("tenantId"), Json.Str(scope.tenantId))])
  }

  function Provenance(): Json
  {
    Obj([Entry(Ascii("kind"), Json.Str(Ascii("service"))),
         Entry(Ascii("name"), Json.Str(Ascii("tutorhub-whiteboard-artifact-worker")))])
  }

  function UnsignedFields(u: Unsigned, authority: Json, engine: Json, provenance: Json): seq<Entry<Json>>
  {
    [Entry(Ascii("authority"), authority),
     Entry(Ascii("causalWatermark"), Json.Str(u.causalWatermark)),
     Entry(Ascii("causalWatermarkSha256"), Json.Str(u.causalWatermarkSha256)),
     Entry(Ascii("createdAt"), Json.Str(u.createdAt)),
     Entry(Ascii("engine"), engine),
     Entry(Ascii("format"), Json.Str(Ascii("tutorhub.whiteboard.snapshot-envelope"))),
     Entry(Ascii("formatVersion"), Num([50])),
     Entry(Ascii("portableScene"), u.portableScene),
     Entry(Ascii("providerState"), Json.Str(u.providerState)),
     Entry(Ascii("providerStateSha256"), Json.Str(u.providerStateSha256)),
     Entry(Ascii("provenance"), provenance),
     Entry(Ascii("schemaVersion"), Num([49])),
     Entry(Ascii("scope"), u.scope),
     Entry(Ascii("semanticHash"), Json.Str(u.semanticHash))]
  }

  function Fields(u: Unsigned): seq<Entry<Json>>
  {
    UnsignedFields(u, NameVersion("yjs", "13.6.27"), NameVersion("excalidraw", "0.18.1"), Provenance())
  }

  function BindingJson(signature: Str, keyId: Str): Json
  {
    Obj([Entry(Ascii("hmacSha256"), Json.Str(signature)), Entry(Ascii("verificationKeyId"), Json.Str(keyId))])
  }

  function UnsignedJson(u: Unsigned): Json
  {
    Obj(Fields(u))
  }

  function SignedJson(u: Unsigned, signature: Str, keyId: Str): Json
  {
    Obj(Fields(u) + [Entry(Ascii("scopeBinding"), BindingJson(signature, keyId))])
  }

  // ----- createArtifactEnvelope -----

  const SERVICE_ACTOR: Str := Ascii("artifact-worker")

  /** The state opened and read as a document of the scope, by a service actor. */
  ghost function SceneIn(env: Environment, state: seq<Byte>, scope: Scope): Option<Scene>
  {
    var store := env.applyUpdate(state);
    if store.None? || OpenError(store.value, scope, SERVICE_ACTOR).Some? then None
    else
      var scene := GetScene(env.rank, store.value, scope);
      if scene.Ok? then Some(scene.value) else None
  }

  function UnsignedOf(env: Environment, scope: Scope, state: seq<Byte>, scene: Scene, portable: Value, createdAt: Str)
    : Unsigned
  {
    var vector := env.stateVector(state);
    Unsigned(env.base64(vector), env.sha256(vector), createdAt, Represent(portable),
             env.base64(state), env.sha256(state), ScopeJson(scope), HashOf(env, scene))
  }

  function Sealed(env: Environment, u: Unsigned, key: BindingKey): seq<Byte>
  {
    env.utf8(StableStringify(SignedJson(u, env.hmac(key.secret, StableStringify(UnsignedJson(u))), key.id)))
  }

  ghost function CreateEnvelope(env: Environment, scope: Scope, state: seq<Byte>, key: BindingKey, createdAt: Str)
    : Result<Created, ArtifactError>
  {
    if !env.isKeyId(key.id) || |key.secret| < 32 then Err(BindingInvalid)
    else if |state| == 0 then Err(ArtifactCorrupt)
    else if |state| > MAX_PROVIDER_STATE_BYTES then Err(ArtifactTooLarge)
    else if !env.isIso(createdAt) then Err(ArtifactCorrupt)
    else
      var scene := SceneIn(env, state, scope);
      if scene.None? then Err(ArtifactCorrupt)
      else
        var portable := ExportScene(env, scene.value, createdAt);
        if portable.Err? || Parsed(env, portable.value).None? then Err(ArtifactCorrupt)
        else
          var u := UnsignedOf(env, scope, state, scene.value, Parsed(env, portable.value).value, createdAt);
          var bytes := Sealed(env, u, key);
          if |bytes| > MAX_ARTIFACT_BYTES then Err(ArtifactTooLarge)
          else Ok(Created(bytes, u.causalWatermarkSha256, env.sha256(bytes), u.semanticHash))
  }

  // ----- verifyArtifactEnvelope -----

  function WithoutBinding(v: Value): Value
    requires v.VObj?
  {
    VObj(v.fields - {Ascii("scopeBinding")})
  }

  /** The signature check; what is left is the unsigned object. */
  function CheckBinding(env: Environment, v: Value, keys: map<Str, Str>): Result<Value, ArtifactError>
  {
    var binding := Prop(v, "scopeBinding");
    if !v.VObj? || binding.None? || !binding.value.VObj? then Err(ArtifactCorrupt)
    else
      var id, signature := Prop(binding.value, "verificationKeyId"), Prop(binding.value, "hmacSha256");
      if !IsText(id) || !IsText(signature) || !env.isHex64(signature.value.s) then Err(BindingInvalid)
      else if id.value.s !in keys || keys[id.value.s] == [] then Err(BindingInvalid)
      else if env.hmac(keys[id.value.s], StableText(WithoutBinding(v))) != signature.value.s then Err(BindingInvalid)
      else Ok(WithoutBinding(v))
  }

  predicate IsProvenance(v: Option<Value>)
  {
    v.Some? && Prop(v.value, "kind") == Some(TextOf("service"))
    && Prop(v.value, "name") == Some(TextOf("tutorhub-whiteboard-artifact-worker"))
  }

  predicate IsScope(v: Value, scope: Scope)
  {
    && Prop(v, "tenantId") == Some(VStr(scope.tenantId))
    && Prop(v, "documentId") == Some(VStr(scope.documentId))
    && Prop(v, "generation") == Some(VNum(Decimal(scope.generation)))
  }

  function ValidateUnsigned(env: Environment, v: Value, expected: Scope): Option<ArtifactError>
  {
    if Prop(v, "format") != Some(TextOf("tutorhub.whiteboard.snapshot-envelope"))
       || Prop(v, "formatVersion") != Some(VNum([50])) || Prop(v, "schemaVersion") != Some(VNum([49]))
       || !IsNameVersion(Prop(v, "engine"), "excalidraw", "0.18.1")
       || !IsNameVersion(Prop(v, "authority"), "yjs", "13.6.27")
       || !IsProvenance(Prop(v, "provenance")) then Some(VersionUnsupported)
    else if Prop(v, "scope").None? || !Prop(v, "scope").value.VObj? then Some(ArtifactCorrupt)
    else if !IsScope(Prop(v, "scope").value, expected) then Some(ScopeMismatch)
    else if !IsText(Prop(v, "causalWatermark")) || !IsText(Prop(v, "causalWatermarkSha256"))
            || !IsText(Prop(v, "createdAt")) || !IsText(Prop(v, "providerState"))
            || !IsText(Prop(v, "providerStateSha256")) || !IsText(Prop(v, "semanticHash")) then Some(ArtifactCorrupt)
    else if !env.isIso(Prop(v, "createdAt").value.s)
            || !env.isHex64(Prop(v, "causalWatermarkSha256").value.s)
            || !env.isHex64(Prop(v, "providerStateSha256").value.s) then Some(ArtifactCorrupt)
    else None
  }

  /** The embedded portable scene, through its own importer. */
  function ImportEmbedded(env: Environment, portable: Option<Value>): Result<Scene, PortableError>
  {
    if portable.None? then ImportScene(env, []) else ImportScene(env, env.utf8(Stringify(env.order(portable.value))))
  }

  /** Both scenes, the hash and the watermark have to agree. */
  ghost function CheckContent(env: Environment, v: Value, expected: Scope): Result<Verified, ArtifactError>
    requires ValidateUnsigned(env, v, expected).None?
  {
    var state, watermark := env.unbase64(Prop(v, "providerState").value.s), env.unbase64(Prop(v, "causalWatermark").value.s);
    if state.None? || watermark.None? then Err(ArtifactCorrupt)
    else if |state.value| > MAX_PROVIDER_STATE_BYTES then Err(ArtifactTooLarge)
    else if env.sha256(state.value) != Prop(v, "providerStateSha256").value.s
            || env.sha256(watermark.value) != Prop(v, "causalWatermarkSha256").value.s then Err(ChecksumMismatch)
    else
      var scene := ImportEmbedded(env, Prop(v, "portableScene"));
      if scene.Err? then Err(if scene.error == ContentDenied then ArtifactContentDenied else ArtifactCorrupt)
      else
        var provider, hash := SceneIn(env, state.value, expected), Prop(v, "semanticHash").value.s;
        if provider.None? then Err(ArtifactCorrupt)
        else if HashOf(env, scene.value) != hash || HashOf(env, provider.value) != hash
                || env.sha256(env.stateVector(state.value)) != Prop(v, "causalWatermarkSha256").value.s then
          Err(ChecksumMismatch)
        else Ok(Verified(state.value, scene.value, hash))
  }

  ghost function VerifyValue(env: Environment, v: Value, expected: Scope, keys: map<Str, Str>)
    : Result<Verified, ArtifactError>
  {
    if !Shallow(v, 0, MAX_JSON_DEPTH) then Err(ArtifactContentDenied)
    else
      var unsigned := CheckBinding(env, v, keys);
      if unsigned.Err? then Err(unsigned.error)
      else
        var invalid := ValidateUnsigned(env, unsigned.value, expected);
        if invalid.Some? then Err(invalid.value) else CheckContent(env, unsigned.value, expected)
  }

  ghost function VerifyEnvelope(env: Environment, bytes: seq<Byte>, expected: Scope, keys: map<Str, Str>)
    : Result<Verified, ArtifactError>
  {
    if |bytes| == 0 then Err(ArtifactCorrupt)
    else if |bytes| > MAX_ARTIFACT_BYTES then Err(ArtifactTooLarge)
    else if Parsed(env, bytes).None? then Err(ArtifactCorrupt)
    else VerifyValue(env, Parsed(env, bytes).value, expected, keys)
  }

  // ----- the object that was sealed -----

  lemma UnsignedKeys(u: Unsigned, authority: Json, engine: Json, provenance: Json, binding: Json)
    ensures DistinctKeys(UnsignedFields(u, authority, engine, provenance) + [Entry(Ascii("scopeBinding"), binding)])
  {
    var f := UnsignedFields(u, authority, engine, provenance) + [Entry(Ascii("scopeBinding"), binding)];
    assert |f[0].key| == 9 && |f[1].key| == 15 && |f[2].key| == 21 && |f[3].key| == 9 && |f[4].key| == 6
        && |f[5].key| == 6 && |f[6].key| == 13 && |f[7].key| == 13 && |f[8].key| == 13 && |f[9].key| == 19
        && |f[10].key| == 10 && |f[11].key| == 13 && |f[12].key| == 5 && |f[13].key| == 12 && |f[14].key| == 12;
    assert f[0].key[0] == 97 && f[3].key[0] == 99;
    assert f[4].key[0] == 101 && f[5].key[0] == 102;
    assert f[6].key[0] == 102 && f[7].key[1] == 111 && f[8].key[1] == 114 && f[11].key[0] == 115;
    assert f[7].key[0] == 112 && f[8].key[0] == 112;
    assert f[13].key[1] == 101 && f[14].key[1] == 99;
  }
}
