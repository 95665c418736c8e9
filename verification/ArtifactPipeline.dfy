/** From a provider state through the envelope and back into a new generation. */
module ArtifactPipeline {
  import opened Wrappers
  import opened Text
  import opened Json
  import opened JsonValues
  import opened ElementStore
  import opened CanonicalScene
  import opened PortableScene
  import opened ArtifactEnvelope
  import ArtifactQueue
  import KeyParts
  import SceneLaws

  // ----- objects built from fields -----

  lemma DistinctTail<T>(es: seq<Entry<T>>, e: Entry<T>)
    requires es != [] && DistinctKeys(es + [e])
    ensures (es + [e])[1..] == es[1..] + [e] && (es + [e])[0] == es[0]
    ensures DistinctKeys(es[1..] + [e]) && es[0].key != e.key
  {
    var all := es + [e];
    assert all[0].key != all[|es|].key;
    forall i, j | 0 <= i < j < |all[1..]| ensures all[1..][i].key != all[1..][j].key {
      assert all[i + 1].key != all[j + 1].key;
    }
  }

  lemma {:induction false} AsMapAppend<T>(es: seq<Entry<T>>, e: Entry<T>)
    requires DistinctKeys(es + [e])
    ensures e.key !in AsMap(es) && AsMap(es + [e]) == AsMap(es)[e.key := e.value]
  {
    if es == [] {
      assert (es + [e])[1..] == [];
    } else {
      DistinctTail(es, e);
      hide DistinctKeys;
      AsMapAppend(es[1..], e);
    }
  }

  lemma DistinctPrefix<T>(es: seq<Entry<T>>, e: Entry<T>)
    requires DistinctKeys(es + [e])
    ensures DistinctKeys(es)
  {
    var all := es + [e];
    forall i, j | 0 <= i < j < |es| ensures es[i].key != es[j].key {
      assert all[i].key != all[j].key;
    }
  }

  /** Deleting the last property of an object leaves the object without it. */
  lemma DeleteLast(es: seq<Entry<Json>>, e: Entry<Json>)
    requires DistinctKeys(es + [e])
    ensures Denote(Obj(es + [e])).fields - {e.key} == Denote(Obj(es)).fields
  {
    var ds, d := DenoteEntries(es), Entry(e.key, Denote(e.value));
    assert DenoteEntries(es + [e]) == ds + [d];
    assert DistinctKeys(ds + [d]) by {
      forall i, j | 0 <= i < j < |ds + [d]| ensures (ds + [d])[i].key != (ds + [d])[j].key {
        assert (es + [e])[i].key != (es + [e])[j].key;
      }
    }
    AsMapAppend(ds, d);
  }

  predicate EntryShallow(e: Entry<Json>, depth: nat)
  {
    !ForbiddenKey(e.key) && Shallow(Denote(e.value), depth, MAX_JSON_DEPTH)
  }

  lemma ShallowObject(fields: seq<Entry<Json>>, depth: nat)
    requires DistinctKeys(fields) && depth <= MAX_JSON_DEPTH
    requires forall i :: 0 <= i < |fields| ==> EntryShallow(fields[i], depth + 1)
    ensures Shallow(Denote(Obj(fields)), depth, MAX_JSON_DEPTH)
  {
    var ds := DenoteEntries(fields);
    hide ForbiddenKey, AsMap;
    AsMapLookup(ds);
    forall k | k in AsMap(ds) ensures !ForbiddenKey(k) && Shallow(AsMap(ds)[k], depth + 1, MAX_JSON_DEPTH) {
      var i := AsMapIndex(ds, k);
      assert EntryShallow(fields[i], depth + 1);
    }
    ObjectValue(fields);
  }

  lemma ObjectValue(fields: seq<Entry<Json>>)
    ensures Denote(Obj(fields)) == VObj(AsMap(DenoteEntries(fields)))
  {
  }

  // ----- the pieces of an envelope -----

  lemma PiecesWellFormed(scope: Scope, signature: Str, keyId: Str)
    ensures WellFormed(ScopeJson(scope)) && WellFormed(Provenance()) && WellFormed(BindingJson(signature, keyId))
  {
    var s, p, b := ScopeJson(scope).fields, Provenance().fields, BindingJson(signature, keyId).fields;
    assert |s[0].key| == 10 && |s[1].key| == 10 && |s[2].key| == 8 && s[0].key[0] == 100 && s[1].key[0] == 103;
    assert |p[0].key| == 4 && |p[1].key| == 4 && p[0].key[0] == 107 && p[1].key[0] == 110;
    assert |b[0].key| == 10 && |b[1].key| == 17;
    WellFormedObject(s);
    WellFormedObject(p);
    WellFormedObject(b);
  }

  lemma ScopeProps(scope: Scope, expected: Scope)
    ensures Denote(ScopeJson(scope)).VObj?
    ensures IsScope(Denote(ScopeJson(scope)), expected) <==> scope == expected
  {
    PiecesWellFormed(scope, [], []);
    var s := ScopeJson(scope).fields;
    PropOf(s, 0, "documentId");
    PropOf(s, 1, "generation");
    PropOf(s, 2, "tenantId");
    if Decimal(scope.generation) == Decimal(expected.generation) {
      DecimalInjective(scope.generation, expected.generation);
    }
  }

  lemma ProvenanceProps()
    ensures IsProvenance(Some(Denote(Provenance())))
  {
    PiecesWellFormed(Scope([], [], 0), [], []);
    PropOf(Provenance().fields, 0, "kind");
    PropOf(Provenance().fields, 1, "name");
  }

  lemma BindingProps(signature: Str, keyId: Str)
    ensures var b := Denote(BindingJson(signature, keyId));
            b.VObj? && Prop(b, "hmacSha256") == Some(VStr(signature)) && Prop(b, "verificationKeyId") == Some(VStr(keyId))
  {
    PiecesWellFormed(Scope([], [], 0), signature, keyId);
    PropOf(BindingJson(signature, keyId).fields, 0, "hmacSha256");
    PropOf(BindingJson(signature, keyId).fields, 1, "verificationKeyId");
  }

  lemma UnsignedDistinct(u: Unsigned, binding: Json)
    ensures DistinctKeys(Fields(u)) && DistinctKeys(Fields(u) + [Entry(Ascii("scopeBinding"), binding)])
  {
    UnsignedKeys(u, NameVersion("yjs", "13.6.27"), NameVersion("excalidraw", "0.18.1"), Provenance(), binding);
    DistinctPrefix(Fields(u), Entry(Ascii("scopeBinding"), binding));
  }

  lemma {:induction false} EntryOf(u: Unsigned, i: nat)
    requires WellFormed(u.portableScene) && WellFormed(u.scope) && i < 14
    ensures |Fields(u)| == 14 && WellFormed(Fields(u)[i].value)
  {
    NameVersionProps("yjs", "13.6.27");
    NameVersionProps("excalidraw", "0.18.1");
    PiecesWellFormed(Scope([], [], 0), [], []);
    hide Ascii, NameVersion, Provenance, ScopeJson, BindingJson, IsNameVersion;
  }

  lemma EnvelopeWellFormed(u: Unsigned, signature: Str, keyId: Str)
    requires WellFormed(u.portableScene) && WellFormed(u.scope)
    ensures WellFormed(UnsignedJson(u)) && WellFormed(SignedJson(u, signature, keyId))
  {
    PiecesWellFormed(Scope([], [], 0), signature, keyId);
    UnsignedDistinct(u, BindingJson(signature, keyId));
    hide Ascii, Fields, BindingJson, DistinctKeys, ScopeJson;
    EntryOf(u, 0);
    forall i | 0 <= i < |Fields(u)| ensures WellFormed(Fields(u)[i].value) {
      EntryOf(u, i);
    }
    WellFormedObject(Fields(u));
    WellFormedObject(Fields(u) + [Entry(Ascii("scopeBinding"), BindingJson(signature, keyId))]);
  }

  /** Deleting the binding from the sealed object gives the object that was signed. */
  lemma BindingRemoved(u: Unsigned, signature: Str, keyId: Str)
    ensures var v := Denote(SignedJson(u, signature, keyId));
            v.VObj? && WithoutBinding(v) == Denote(UnsignedJson(u))
            && Prop(v, "scopeBinding") == Some(Denote(BindingJson(signature, keyId)))
  {
    var e := Entry(Ascii("scopeBinding"), BindingJson(signature, keyId));
    UnsignedDistinct(u, e.value);
    hide Ascii, Fields, BindingJson, DistinctKeys, Prop;
    DeleteLast(Fields(u), e);
    PropOf(Fields(u) + [e], |Fields(u)|, "scopeBinding");
  }

  lemma UnsignedPropAt(u: Unsigned, i: nat, name: string)
    requires i < |Fields(u)| && Fields(u)[i].key == Ascii(name)
    ensures Prop(Denote(UnsignedJson(u)), name) == Some(Denote(Fields(u)[i].value))
  {
    UnsignedDistinct(u, Null);
    hide Ascii, Fields, Prop, DistinctKeys;
    PropOf(Fields(u), i, name);
  }

  lemma FormatProps(u: Unsigned)
    ensures var v := Denote(UnsignedJson(u));
            && Prop(v, "authority") == Some(Denote(NameVersion("yjs", "13.6.27")))
            && Prop(v, "engine") == Some(Denote(NameVersion("excalidraw", "0.18.1")))
            && Prop(v, "format") == Some(TextOf("tutorhub.whiteboard.snapshot-envelope"))
            && Prop(v, "formatVersion") == Some(VNum([50]))
            && Prop(v, "provenance") == Some(Denote(Provenance()))
            && Prop(v, "schemaVersion") == Some(VNum([49]))
            && Prop(v, "scope") == Some(Denote(u.scope))
  {
    hide Ascii, NameVersion, Provenance, Prop, UnsignedJson;
    UnsignedPropAt(u, 0, "authority");
    UnsignedPropAt(u, 4, "engine");
    UnsignedPropAt(u, 5, "format");
    UnsignedPropAt(u, 6, "formatVersion");
    UnsignedPropAt(u, 10, "provenance");
    UnsignedPropAt(u, 11, "schemaVersion");
    UnsignedPropAt(u, 12, "scope");
  }

  lemma ContentProps(u: Unsigned)
    ensures var v := Denote(UnsignedJson(u));
            && Prop(v, "causalWatermark") == Some(VStr(u.causalWatermark))
            && Prop(v, "causalWatermarkSha256") == Some(VStr(u.causalWatermarkSha256))
            && Prop(v, "createdAt") == Some(VStr(u.createdAt))
            && Prop(v, "portableScene") == Some(Denote(u.portableScene))
            && Prop(v, "providerState") == Some(VStr(u.providerState))
            && Prop(v, "providerStateSha256") == Some(VStr(u.providerStateSha256))
            && Prop(v, "semanticHash") == Some(VStr(u.semanticHash))
  {
    hide Ascii, NameVersion, Provenance, Prop, UnsignedJson;
    UnsignedPropAt(u, 1, "causalWatermark");
    UnsignedPropAt(u, 2, "causalWatermarkSha256");
    UnsignedPropAt(u, 3, "createdAt");
    UnsignedPropAt(u, 7, "portableScene");
    UnsignedPropAt(u, 8, "providerState");
    UnsignedPropAt(u, 9, "providerStateSha256");
    UnsignedPropAt(u, 13, "semanticHash");
  }

  // ----- depth -----

  lemma TwoShallow(a: Entry<Json>, b: Entry<Json>, depth: nat)
    requires depth < MAX_JSON_DEPTH && a.key != b.key && a.value.Str? && b.value.Str?
    requires !ForbiddenKey(a.key) && !ForbiddenKey(b.key)
    ensures Shallow(Denote(Obj([a, b])), depth, MAX_JSON_DEPTH)
  {
    hide ForbiddenKey;
    assert EntryShallow(a, depth + 1) && EntryShallow(b, depth + 1);
    ShallowObject([a, b], depth);
  }

  lemma ShortKeys(key: Str)
    requires |key| != 9 && |key| != 11
    ensures !ForbiddenKey(key)
  {
  }

  lemma NameVersionShallow(name: string, version: string, depth: nat)
    requires depth < MAX_JSON_DEPTH
    ensures Shallow(Denote(NameVersion(name, version)), depth, MAX_JSON_DEPTH)
  {
    var f := NameVersion(name, version).fields;
    assert |f[0].key| == 4 && |f[1].key| == 7;
    ShortKeys(f[0].key);
    ShortKeys(f[1].key);
    hide ForbiddenKey;
    TwoShallow(f[0], f[1], depth);
  }

  lemma ProvenanceShallow(depth: nat)
    requires depth < MAX_JSON_DEPTH
    ensures Shallow(Denote(Provenance()), depth, MAX_JSON_DEPTH)
  {
    var f := Provenance().fields;
    assert |f[0].key| == 4 && |f[1].key| == 4 && f[0].key[0] == 107 && f[1].key[0] == 110;
    ShortKeys(f[0].key);
    ShortKeys(f[1].key);
    hide ForbiddenKey;
    TwoShallow(f[0], f[1], depth);
  }

  lemma BindingShallow(signature: Str, keyId: Str, depth: nat)
    requires depth < MAX_JSON_DEPTH
    ensures Shallow(Denote(BindingJson(signature, keyId)), depth, MAX_JSON_DEPTH)
  {
    var f := BindingJson(signature, keyId).fields;
    assert |f[0].key| == 10 && |f[1].key| == 17;
    ShortKeys(f[0].key);
    ShortKeys(f[1].key);
    hide ForbiddenKey;
    TwoShallow(f[0], f[1], depth);
  }

  lemma ScopeShallow(scope: Scope, depth: nat)
    requires depth < MAX_JSON_DEPTH
    ensures Shallow(Denote(ScopeJson(scope)), depth, MAX_JSON_DEPTH)
  {
    PiecesWellFormed(scope, [], []);
    var f := ScopeJson(scope).fields;
    assert |f[0].key| == 10 && |f[1].key| == 10 && |f[2].key| == 8;
    ShortKeys(f[0].key);
    ShortKeys(f[1].key);
    ShortKeys(f[2].key);
    hide ForbiddenKey;
    assert EntryShallow(f[0], depth + 1) && EntryShallow(f[1], depth + 1) && EntryShallow(f[2], depth + 1);
    ShallowObject(f, depth);
  }

  lemma FileShallow(env: Environment, scene: Scene, exportedAt: Str)
    requires NoActiveContent(env, Denote(SceneJson(scene)), 0)
    ensures Shallow(Denote(PortableJson(env, scene, exportedAt)), 1, MAX_JSON_DEPTH)
  {
    hide SceneJson, NameVersion, HashOf, DistinctKeys, NoActiveContent, Shallow, FileObject, Denote;
    PassiveIsShallow(env, Denote(SceneJson(scene)), 0, 2, MAX_JSON_DEPTH);
    NameVersionShallow("excalidraw", "0.18.1", 2);
    FileObjectShallow(NameVersion("excalidraw", "0.18.1"), exportedAt, SceneJson(scene), HashOf(env, scene));
  }

  lemma FileObjectShallow(engine: Json, exportedAt: Str, scene: Json, hash: Str)
    requires Shallow(Denote(engine), 2, MAX_JSON_DEPTH) && Shallow(Denote(scene), 2, MAX_JSON_DEPTH)
    ensures Shallow(Denote(FileObject(engine, exportedAt, scene, hash)), 1, MAX_JSON_DEPTH)
  {
    FileKeysDistinct(engine, exportedAt, scene, hash);
    FileEntriesShallow(engine, exportedAt, scene, hash);
    hide DistinctKeys, Shallow, EntryShallow, Ascii;
    ShallowObject(FileObject(engine, exportedAt, scene, hash).fields, 1);
  }

  lemma FileEntriesShallow(engine: Json, exportedAt: Str, scene: Json, hash: Str)
    requires Shallow(Denote(engine), 2, MAX_JSON_DEPTH) && Shallow(Denote(scene), 2, MAX_JSON_DEPTH)
    ensures forall i :: 0 <= i < 7 ==> EntryShallow(FileObject(engine, exportedAt, scene, hash).fields[i], 2)
  {
    var f := FileObject(engine, exportedAt, scene, hash).fields;
    assert |f[0].key| == 22 && |f[1].key| == 6 && |f[2].key| == 10 && |f[3].key| == 6 && |f[4].key| == 13
        && |f[5].key| == 5 && |f[6].key| == 12;
  }

  lemma EnvelopeKeysAllowed(u: Unsigned, authority: Json, engine: Json, provenance: Json, i: nat)
    requires i < 14
    ensures !ForbiddenKey(UnsignedFields(u, authority, engine, provenance)[i].key)
  {
    var f := UnsignedFields(u, authority, engine, provenance);
    assert |f[0].key| == 9 && |f[1].key| == 15 && |f[2].key| == 21 && |f[3].key| == 9 && |f[4].key| == 6
        && |f[5].key| == 6 && |f[6].key| == 13 && |f[7].key| == 13 && |f[8].key| == 13 && |f[9].key| == 19
        && |f[10].key| == 10 && |f[11].key| == 13 && |f[12].key| == 5 && |f[13].key| == 12;
    assert f[0].key[0] == 97 && f[3].key[0] == 99;
    assert Ascii("__proto__")[0] == 95 && Ascii("prototype")[0] == 112;
    if i != 0 && i != 3 {
      ShortKeys(f[i].key);
    }
  }

  lemma EnvelopeEntriesShallow(u: Unsigned, authority: Json, engine: Json, provenance: Json, i: nat)
    requires i < 14
    requires Shallow(Denote(authority), 1, MAX_JSON_DEPTH) && Shallow(Denote(engine), 1, MAX_JSON_DEPTH)
    requires Shallow(Denote(provenance), 1, MAX_JSON_DEPTH) && Shallow(Denote(u.scope), 1, MAX_JSON_DEPTH)
    requires Shallow(Denote(u.portableScene), 1, MAX_JSON_DEPTH)
    ensures EntryShallow(UnsignedFields(u, authority, engine, provenance)[i], 1)
  {
    EnvelopeKeysAllowed(u, authority, engine, provenance, i);
    hide Ascii, ForbiddenKey;
  }

  lemma FieldsShallow(u: Unsigned, scope: Scope, i: nat)
    requires Shallow(Denote(u.portableScene), 1, MAX_JSON_DEPTH) && u.scope == ScopeJson(scope)
    requires i < |Fields(u)|
    ensures EntryShallow(Fields(u)[i], 1)
  {
    hide Ascii, ForbiddenKey, NameVersion, Provenance, ScopeJson, Shallow, EntryShallow, Denote;
    NameVersionShallow("yjs", "13.6.27", 1);
    NameVersionShallow("excalidraw", "0.18.1", 1);
    ProvenanceShallow(1);
    ScopeShallow(scope, 1);
    EnvelopeEntriesShallow(u, NameVersion("yjs", "13.6.27"), NameVersion("excalidraw", "0.18.1"), Provenance(), i);
  }

  lemma BindingEntryShallow(signature: Str, keyId: Str)
    ensures EntryShallow(Entry(Ascii("scopeBinding"), BindingJson(signature, keyId)), 1)
  {
    assert |Ascii("scopeBinding")| == 12;
    ShortKeys(Ascii("scopeBinding"));
    BindingShallow(signature, keyId, 1);
  }

  lemma EnvelopeShallow(u: Unsigned, signature: Str, keyId: Str, scope: Scope)
    requires Shallow(Denote(u.portableScene), 1, MAX_JSON_DEPTH) && u.scope == ScopeJson(scope)
    ensures Shallow(Denote(SignedJson(u, signature, keyId)), 0, MAX_JSON_DEPTH)
  {
    hide Ascii, Fields, DistinctKeys, ScopeJson, BindingJson, Shallow, EntryShallow, Denote;
    var e := Entry(Ascii("scopeBinding"), BindingJson(signature, keyId));
    UnsignedDistinct(u, e.value);
    BindingEntryShallow(signature, keyId);
    forall i | 0 <= i < |Fields(u)| ensures EntryShallow(Fields(u)[i], 1) {
      FieldsShallow(u, scope, i);
    }
    ShallowObject(Fields(u) + [e], 0);
  }

  // ----- create, verify, restore -----

  /** The text of the object without its binding is the text that was signed. */
  lemma SignedText(u: Unsigned)
    requires WellFormed(u.portableScene) && WellFormed(u.scope)
    ensures StableText(Denote(UnsignedJson(u))) == StableStringify(UnsignedJson(u))
  {
    hide UnsignedJson, WellFormed, StableText, Denote, BindingJson, SignedJson;
    EnvelopeWellFormed(u, [], []);
    StableTextOf(UnsignedJson(u));
  }

  /** The checks of a binding whose parts are known. */
  lemma BindingChecked(env: Environment, v: Value, binding: Value, signature: Str, id: Str, keys: map<Str, Str>)
    requires v.VObj? && binding.VObj? && Prop(v, "scopeBinding") == Some(binding)
    requires Prop(binding, "hmacSha256") == Some(VStr(signature)) && Prop(binding, "verificationKeyId") == Some(VStr(id))
    requires env.isHex64(signature) && id in keys && keys[id] != []
    requires env.hmac(keys[id], StableText(WithoutBinding(v))) == signature
    ensures CheckBinding(env, v, keys) == Ok(WithoutBinding(v))
  {
    hide Prop, WithoutBinding, StableText;
  }

  lemma SignatureIsHex(env: Environment, secret: Str, text: Str)
    requires Laws(env)
    ensures env.isHex64(env.hmac(secret, text))
  {
  }

  lemma SignatureHolds(env: Environment, u: Unsigned, key: BindingKey, keys: map<Str, Str>)
    requires Laws(env) && WellFormed(u.portableScene) && WellFormed(u.scope)
    requires key.id in keys && keys[key.id] == key.secret && key.secret != []
    ensures var signature := env.hmac(key.secret, StableStringify(UnsignedJson(u)));
            CheckBinding(env, Denote(SignedJson(u, signature, key.id)), keys) == Ok(Denote(UnsignedJson(u)))
  {
    hide Laws, UnsignedJson, SignedJson, BindingJson, Prop, WithoutBinding, StableText, CheckBinding, WellFormed, Denote,
         StableStringify;
    var signature := env.hmac(key.secret, StableStringify(UnsignedJson(u)));
    SignatureIsHex(env, key.secret, StableStringify(UnsignedJson(u)));
    BindingRemoved(u, signature, key.id);
    BindingProps(signature, key.id);
    SignedText(u);
    BindingChecked(env, Denote(SignedJson(u, signature, key.id)), Denote(BindingJson(signature, key.id)), signature, key.id,
                   keys);
  }

  lemma HeaderValid(env: Environment, u: Unsigned, scope: Scope, expected: Scope)
    requires u.scope == ScopeJson(scope) && env.isIso(u.createdAt)
    requires env.isHex64(u.causalWatermarkSha256) && env.isHex64(u.providerStateSha256)
    ensures ValidateUnsigned(env, Denote(UnsignedJson(u)), expected) ==
            if scope == expected then None else Some(ScopeMismatch)
  {
    FormatProps(u);
    ContentProps(u);
    NameVersionProps("yjs", "13.6.27");
    NameVersionProps("excalidraw", "0.18.1");
    ProvenanceProps();
    ScopeProps(scope, expected);
    hide UnsignedJson, Prop, Ascii, NameVersion, Provenance, ScopeJson, IsNameVersion, IsProvenance, IsScope, Denote;
  }

  /** What creation seals, for a scene whose export succeeded. */
  ghost predicate SealedFrom(env: Environment, u: Unsigned, scope: Scope, state: seq<Byte>, scene: Scene, createdAt: Str)
  {
    && u == UnsignedOf(env, scope, state, scene, Denote(PortableJson(env, scene, createdAt)), createdAt)
    && ExportScene(env, scene, createdAt).Ok? && SceneIn(env, state, scope) == Some(scene)
    && 0 < |state| <= MAX_PROVIDER_STATE_BYTES && env.isIso(createdAt)
  }

  lemma SealedPieces(env: Environment, u: Unsigned, scope: Scope, state: seq<Byte>, scene: Scene, createdAt: Str)
    requires Laws(env) && SealedFrom(env, u, scope, state, scene, createdAt)
    ensures WellFormed(u.portableScene) && Denote(u.portableScene) == Denote(PortableJson(env, scene, createdAt))
    ensures WellFormed(u.scope) && u.scope == ScopeJson(scope)
    ensures Shallow(Denote(u.portableScene), 1, MAX_JSON_DEPTH)
    ensures env.isHex64(u.causalWatermarkSha256) && env.isHex64(u.providerStateSha256)
  {
    hide Laws, PortableJson, Represent, ScopeJson, Shallow, HashOf, SceneIn, ExportScene, Denote, WellFormed;
    RepresentDenotes(Denote(PortableJson(env, scene, createdAt)));
    PiecesWellFormed(scope, [], []);
    BytesLaw(env, state);
    BytesLaw(env, env.stateVector(state));
    ExportedIsShallow(env, scene, createdAt);
  }

  lemma ExportedIsShallow(env: Environment, scene: Scene, createdAt: Str)
    requires ExportScene(env, scene, createdAt).Ok?
    ensures Shallow(Denote(PortableJson(env, scene, createdAt)), 1, MAX_JSON_DEPTH)
  {
    hide PortableJson, Shallow, Denote;
    FileShallow(env, scene, createdAt);
  }

  lemma EmbeddedImports(env: Environment, u: Unsigned, scope: Scope, state: seq<Byte>, scene: Scene, createdAt: Str)
    requires Laws(env) && SealedFrom(env, u, scope, state, scene, createdAt)
    ensures ImportEmbedded(env, Some(Denote(u.portableScene))) == Ok(scene)
  {
    SealedPieces(env, u, scope, state, scene, createdAt);
    OrderLaw(env, Denote(u.portableScene));
    hide Laws, Represent, HashOf, SceneIn, Shallow, PortableJson, ScopeJson, Denote;
    ImportUndoesExport(env, scene, createdAt, env.order(Denote(u.portableScene)));
  }

  lemma OrderLaw(env: Environment, v: Value)
    requires Laws(env)
    ensures WellFormed(env.order(v)) && Denote(env.order(v)) == v
  {
  }

  lemma BytesLaw(env: Environment, b: seq<Byte>)
    requires Laws(env)
    ensures env.unbase64(env.base64(b)) == Some(b) && env.isHex64(env.sha256(b))
  {
  }

  lemma ContentHolds(env: Environment, u: Unsigned, scope: Scope, state: seq<Byte>, scene: Scene, createdAt: Str)
    requires Laws(env) && SealedFrom(env, u, scope, state, scene, createdAt)
    requires ValidateUnsigned(env, Denote(UnsignedJson(u)), scope).None?
    ensures CheckContent(env, Denote(UnsignedJson(u)), scope) == Ok(Verified(state, scene, HashOf(env, scene)))
  {
    hide Laws, UnsignedJson, Prop, PortableJson, Represent, HashOf, SceneIn, Denote, ExportScene, ValidateUnsigned,
         ImportEmbedded, Stringify, Shallow, ScopeJson;
    ContentProps(u);
    EmbeddedImports(env, u, scope, state, scene, createdAt);
    BytesLaw(env, state);
    BytesLaw(env, env.stateVector(state));
  }

  /** The sealed object passes every check under its own scope, and only the scope
      check under another. */
  lemma SealedVerifies(env: Environment, u: Unsigned, scope: Scope, state: seq<Byte>, scene: Scene, createdAt: Str,
                       key: BindingKey, keys: map<Str, Str>, expected: Scope)
    requires Laws(env) && SealedFrom(env, u, scope, state, scene, createdAt)
    requires key.id in keys && keys[key.id] == key.secret && key.secret != []
    requires |Sealed(env, u, key)| <= MAX_ARTIFACT_BYTES
    ensures VerifyEnvelope(env, Sealed(env, u, key), expected, keys) ==
            if scope == expected then Ok(Verified(state, scene, HashOf(env, scene))) else Err(ScopeMismatch)
  {
    hide Laws, SealedFrom, CheckBinding, ValidateUnsigned, CheckContent, Shallow, UnsignedJson, SignedJson, HashOf, Parsed,
         Denote, Sealed, ScopeJson;
    SealedPieces(env, u, scope, state, scene, createdAt);
    SealedParses(env, u, scope, key);
    SignatureHolds(env, u, key, keys);
    CreatedAtOf(env, u, scope, state, scene, createdAt);
    HeaderValid(env, u, scope, expected);
    if scope == expected {
      ContentHolds(env, u, scope, state, scene, createdAt);
    }
  }

  lemma CreatedAtOf(env: Environment, u: Unsigned, scope: Scope, state: seq<Byte>, scene: Scene, createdAt: Str)
    requires SealedFrom(env, u, scope, state, scene, createdAt)
    ensures env.isIso(u.createdAt)
  {
  }

  /** Whatever creation returns, verification under the same scope accepts, and gives
      back the state, its scene and its hash, for any set of keys that holds the
      signing key. */
  lemma CreatedVerifies(env: Environment, scope: Scope, state: seq<Byte>, key: BindingKey, createdAt: Str,
                        keys: map<Str, Str>)
    requires Laws(env) && key.id in keys && keys[key.id] == key.secret
    requires CreateEnvelope(env, scope, state, key, createdAt).Ok?
    ensures SceneIn(env, state, scope).Some?
    ensures var a, scene := CreateEnvelope(env, scope, state, key, createdAt).value, SceneIn(env, state, scope).value;
            VerifyEnvelope(env, a.bytes, scope, keys) == Ok(Verified(state, scene, HashOf(env, scene)))
            && a.semanticHash == HashOf(env, scene)
  {
    hide Laws, CreateEnvelope, VerifyEnvelope, SealedFrom, HashOf, SceneIn, Sealed;
    var u, scene := CreatedFrom(env, scope, state, key, createdAt);
    SealedVerifies(env, u, scope, state, scene, createdAt, key, keys, scope);
  }

  /** An envelope never verifies for another tenant, document or generation. */
  lemma OnlyForItsScope(env: Environment, scope: Scope, state: seq<Byte>, key: BindingKey, createdAt: Str,
                        keys: map<Str, Str>, other: Scope)
    requires Laws(env) && key.id in keys && keys[key.id] == key.secret && other != scope
    requires CreateEnvelope(env, scope, state, key, createdAt).Ok?
    ensures VerifyEnvelope(env, CreateEnvelope(env, scope, state, key, createdAt).value.bytes, other, keys)
            == Err(ScopeMismatch)
  {
    hide Laws, CreateEnvelope, VerifyEnvelope, SealedFrom, HashOf, SceneIn, Sealed;
    var u, scene := CreatedFrom(env, scope, state, key, createdAt);
    SealedVerifies(env, u, scope, state, scene, createdAt, key, keys, other);
  }

  lemma CreatedFrom(env: Environment, scope: Scope, state: seq<Byte>, key: BindingKey, createdAt: Str)
    returns (u: Unsigned, scene: Scene)
    requires Laws(env) && CreateEnvelope(env, scope, state, key, createdAt).Ok?
    ensures SealedFrom(env, u, scope, state, scene, createdAt) && key.secret != []
    ensures SceneIn(env, state, scope) == Some(scene)
    ensures var a := CreateEnvelope(env, scope, state, key, createdAt).value;
            a.bytes == Sealed(env, u, key) && a.semanticHash == HashOf(env, scene) && |a.bytes| <= MAX_ARTIFACT_BYTES
  {
    hide Laws, HashOf, SceneIn, Denote, PortableJson, Sealed, Represent, ScopeJson, Stringify;
    scene := SceneIn(env, state, scope).value;
    ExportParses(env, scene, createdAt);
    hide ExportScene, Parsed;
    u := UnsignedOf(env, scope, state, scene, Denote(PortableJson(env, scene, createdAt)), createdAt);
  }

  lemma ExportParses(env: Environment, scene: Scene, createdAt: Str)
    requires Laws(env) && ExportScene(env, scene, createdAt).Ok?
    ensures Parsed(env, ExportScene(env, scene, createdAt).value) == Some(Denote(PortableJson(env, scene, createdAt)))
  {
    hide Laws, Denote, PortableJson, Stringify, Parsed;
    PortableWellFormed(env, scene, createdAt);
    TextRoundTrip(env, PortableJson(env, scene, createdAt));
  }

  lemma SealedParses(env: Environment, u: Unsigned, scope: Scope, key: BindingKey)
    requires Laws(env) && WellFormed(u.portableScene) && WellFormed(u.scope) && u.scope == ScopeJson(scope)
    requires Shallow(Denote(u.portableScene), 1, MAX_JSON_DEPTH)
    ensures var j := SignedJson(u, env.hmac(key.secret, StableStringify(UnsignedJson(u))), key.id);
            |Sealed(env, u, key)| > 0 && Parsed(env, Sealed(env, u, key)) == Some(Denote(j))
            && Shallow(Denote(j), 0, MAX_JSON_DEPTH)
  {
    var signature := env.hmac(key.secret, StableStringify(UnsignedJson(u)));
    var j := SignedJson(u, signature, key.id);
    EnvelopeWellFormed(u, signature, key.id);
    EnvelopeShallow(u, signature, key.id, scope);
    hide Laws, SignedJson, UnsignedJson, Shallow, Denote, Stringify, Normalize, ScopeJson;
    StableIsStringifyOfNormalized(j);
    NormalizeKeepsMeaning(j);
    NormalizeIsCanonical(j);
    CanonicalIsWellFormed(Normalize(j));
    TextRoundTrip(env, Normalize(j));
  }

  lemma ServiceActorIsIdentifier()
    ensures IsIdentifier(SERVICE_ACTOR)
  {
    var name := "artifact-worker";
    forall i | 0 <= i < |SERVICE_ACTOR| ensures IsIdentifierUnit(SERVICE_ACTOR[i]) {
      assert name[i] as int < 128;
    }
  }

  /** The provider state that a restore writes for the target generation. */
  function RestoredState(env: Environment, target: Scope, scene: Scene): seq<Byte>
  {
    env.encode(SceneLaws.InitialStore(target, scene))
  }

  /** Whatever bytes verify, restoring their scene into any valid target scope reads back
      as that scene with that hash, and so does the state they carry. */
  lemma RestoreReadsBack(env: Environment, bytes: seq<Byte>, source: Scope, keys: map<Str, Str>, target: Scope)
    requires Laws(env) && VerifyEnvelope(env, bytes, source, keys).Ok? && ValidScope(target)
    ensures var v := VerifyEnvelope(env, bytes, source, keys).value;
            && SceneIn(env, RestoredState(env, target, v.scene), target) == Some(v.scene)
            && HashOf(env, v.scene) == v.semanticHash
            && SceneIn(env, v.providerState, source).Some?
            && HashOf(env, SceneIn(env, v.providerState, source).value) == v.semanticHash
  {
    var v := VerifyEnvelope(env, bytes, source, keys).value;
    VerifiedIsAccepted(env, bytes, source, keys);
    assert env.applyUpdate(env.encode(SceneLaws.InitialStore(target, v.scene))) == Some(SceneLaws.InitialStore(target, v.scene));
    ServiceActorIsIdentifier();
    hide Laws, VerifyEnvelope, HashOf, GetScene, Accepted, ValidScope, IsIdentifier;
    SceneLaws.InitializeThenRead(env.rank, target, v.scene);
  }

  lemma VerifiedIsAccepted(env: Environment, bytes: seq<Byte>, source: Scope, keys: map<Str, Str>)
    requires Laws(env) && VerifyEnvelope(env, bytes, source, keys).Ok?
    ensures var v := VerifyEnvelope(env, bytes, source, keys).value;
            && Accepted(v.scene) && HashOf(env, v.scene) == v.semanticHash
            && SceneIn(env, v.providerState, source).Some?
            && HashOf(env, SceneIn(env, v.providerState, source).value) == v.semanticHash
            && TotalOrder(env.rank)
  {
    hide HashOf, SceneIn, ImportScene, ValidateUnsigned, CheckBinding, Shallow, Parsed, Accepted, Stringify;
    var unsigned := CheckBinding(env, Parsed(env, bytes).value, keys).value;
    var portable := Prop(unsigned, "portableScene");
    ImportIsAccepted(env, if portable.None? then [] else env.utf8(Stringify(env.order(portable.value))));
  }

  /** End to end: a snapshot created at one generation and restored at another reads
      back as the same scene with the same hash, under the same tenant and document. */
  lemma SnapshotThenRestore(env: Environment, scope: Scope, state: seq<Byte>, key: BindingKey, createdAt: Str,
                            keys: map<Str, Str>, targetGeneration: nat)
    requires Laws(env) && key.id in keys && keys[key.id] == key.secret
    requires CreateEnvelope(env, scope, state, key, createdAt).Ok? && KeyParts.PositiveSafe(targetGeneration)
    ensures var a := CreateEnvelope(env, scope, state, key, createdAt).value;
            var target := Scope(scope.tenantId, scope.documentId, targetGeneration);
            var verified := VerifyEnvelope(env, a.bytes, scope, keys);
            && SceneIn(env, state, scope).Some? && verified.Ok?
            && SceneIn(env, RestoredState(env, target, verified.value.scene), target) == SceneIn(env, state, scope)
            && HashOf(env, SceneIn(env, state, scope).value) == a.semanticHash
  {
    CreatedVerifies(env, scope, state, key, createdAt, keys);
    var a := CreateEnvelope(env, scope, state, key, createdAt).value;
    hide Laws, CreateEnvelope, VerifyEnvelope, HashOf, RestoredState;
    ReadIsValid(env, state, scope);
    hide SceneIn;
    RestoreReadsBack(env, a.bytes, scope, keys, Scope(scope.tenantId, scope.documentId, targetGeneration));
  }

  /** Only documents of valid scopes are read. */
  lemma ReadIsValid(env: Environment, state: seq<Byte>, scope: Scope)
    requires SceneIn(env, state, scope).Some?
    ensures ValidScope(scope)
  {
  }

  // ----- the worker's restore -----

  /** A claimed restore command: the queue's job, whose numbers stand for the names in it,
      and the generations; `source` is the generation of its snapshot. */
  datatype RestoreJob = RestoreJob(
    tenantId: Str,
    documentId: Str,
    generation: nat,
    currentGeneration: nat,
    source: Option<nat>,
    claim: ArtifactQueue.Job)

  datatype RestoreError =
    | RestoreBindingInvalid
    | EnvelopeRejected(cause: ArtifactError)
    | AuthorityRejected(reason: SceneError)
    | QueueRefused(refusal: ArtifactQueue.QueueError)

  predicate RestoreBound(job: RestoreJob)
  {
    job.currentGeneration == job.generation && job.claim.targetGeneration == Some(job.generation + 1)
    && job.claim.targetName.Some? && job.source.Some?
  }

  function SourceOf(job: RestoreJob): Scope
    requires job.source.Some?
  {
    Scope(job.tenantId, job.documentId, job.source.value)
  }

  function TargetOf(job: RestoreJob): Scope
  {
    Scope(job.tenantId, job.documentId, job.generation + 1)
  }

  const NEW_DOCUMENT: Store := Store(None, None, map[], [], map[])
  const RESTORE_ACTOR: Str := Ascii("artifact-restore")

  /** The state that the worker hands to the queue. */
  ghost function RestoreFor(env: Environment, job: RestoreJob, bytes: seq<Byte>, keys: map<Str, Str>)
    : Result<seq<Byte>, RestoreError>
  {
    if !RestoreBound(job) then Err(RestoreBindingInvalid)
    else
      var v := VerifyEnvelope(env, bytes, SourceOf(job), keys);
      var closed := OpenError(NEW_DOCUMENT, TargetOf(job), RESTORE_ACTOR);
      if v.Err? then Err(EnvelopeRejected(v.error))
      else if closed.Some? then Err(AuthorityRejected(closed.value))
      else if ValidationError(v.value.scene).Some? then Err(AuthorityRejected(ValidationError(v.value.scene).value))
      else Ok(RestoredState(env, TargetOf(job), v.value.scene))
  }

  /** The whole step: the tables after the checkpoint was written, or the first error. */
  ghost function RestoreStep(env: Environment, db: ArtifactQueue.Database, job: RestoreJob, bytes: seq<Byte>,
                             keys: map<Str, Str>, now: int): Result<ArtifactQueue.Database, RestoreError>
  {
    var state := RestoreFor(env, job, bytes, keys);
    if state.Err? then Err(state.error)
    else
      var refusal := ArtifactQueue.RestoreError(db, job.claim, state.value);
      if refusal.Some? then Err(QueueRefused(refusal.value))
      else Ok(ArtifactQueue.Restored(db, job.claim, state.value, now))
  }

  /** Where the checkpoint of the next generation goes. */
  function Row(job: RestoreJob): (nat, int)
  {
    (job.claim.documentId, job.generation + 1)
  }

  /** When the queue takes a checkpoint of this size for the next generation. */
  predicate Room(db: ArtifactQueue.Database, job: RestoreJob, size: nat)
  {
    && 1 <= size <= ArtifactQueue.MAX_CHECKPOINT_BYTES && ArtifactQueue.Fenced(db, job.claim)
    && !(Row(job) in db.checkpoints && Row(job) in db.generations)
  }

  lemma RestoreForSealed(env: Environment, job: RestoreJob, state: seq<Byte>, key: BindingKey,
                         createdAt: Str, keys: map<Str, Str>, bytes: seq<Byte>)
    requires Laws(env) && key.id in keys && keys[key.id] == key.secret && RestoreBound(job)
    requires CreateEnvelope(env, SourceOf(job), state, key, createdAt).Ok?
    requires bytes == CreateEnvelope(env, SourceOf(job), state, key, createdAt).value.bytes
    ensures SceneIn(env, state, SourceOf(job)).Some?
    ensures RestoreFor(env, job, bytes, keys) ==
            if KeyParts.PositiveSafe(job.generation + 1)
            then Ok(RestoredState(env, TargetOf(job), SceneIn(env, state, SourceOf(job)).value))
            else Err(AuthorityRejected(AuthorityScopeInvalid))
  {
    assert job.source.Some?;
    hide Laws, CreateEnvelope, VerifyEnvelope, SceneIn, HashOf, RestoredState, RestoreBound, ValidScope, OpenError, ValidationError;
    CreatedVerifies(env, SourceOf(job), state, key, createdAt, keys);
    ReadIsValid(env, state, SourceOf(job));
    VerifiedIsAccepted(env, bytes, SourceOf(job), keys);
    TargetOpens(job);
  }

  /** The next generation of a valid document can be opened unless its number is too big. */
  lemma TargetOpens(job: RestoreJob)
    requires job.source.Some? && ValidScope(SourceOf(job))
    ensures ValidScope(TargetOf(job)) <==> KeyParts.PositiveSafe(job.generation + 1)
    ensures OpenError(NEW_DOCUMENT, TargetOf(job), RESTORE_ACTOR)
            == if ValidScope(TargetOf(job)) then None else Some(AuthorityScopeInvalid)
  {
    RestoreActorIsIdentifier();
    hide IsIdentifier;
  }

  lemma RestoreActorIsIdentifier()
    ensures IsIdentifier(RESTORE_ACTOR)
  {
    var name := "artifact-restore";
    forall i | 0 <= i < |RESTORE_ACTOR| ensures IsIdentifierUnit(RESTORE_ACTOR[i]) {
      assert name[i] as int < 128;
    }
  }

  /** The checkpoint is there, every other one is as before, and the command has succeeded. */
  predicate Written(db: ArtifactQueue.Database, job: RestoreJob, state: seq<Byte>, t: ArtifactQueue.Database)
  {
    && Row(job) in t.checkpoints && t.checkpoints[Row(job)].state == state
    && t.checkpoints - {Row(job)} == db.checkpoints - {Row(job)}
    && job.claim.commandId in t.commands && t.commands[job.claim.commandId].status == ArtifactQueue.Succeeded
  }

  /** The queue's part of a restore. */
  lemma QueueTakes(db: ArtifactQueue.Database, job: RestoreJob, state: seq<Byte>, now: int)
    requires RestoreBound(job)
    ensures ArtifactQueue.RestoreError(db, job.claim, state).None? <==> Room(db, job, |state|)
    ensures Room(db, job, |state|) ==> Written(db, job, state, ArtifactQueue.Restored(db, job.claim, state, now))
  {
  }

  lemma StepOf(env: Environment, db: ArtifactQueue.Database, job: RestoreJob, bytes: seq<Byte>, keys: map<Str, Str>, now: int,
               restored: seq<Byte>)
    requires RestoreBound(job) ==>
               RestoreFor(env, job, bytes, keys) == if KeyParts.PositiveSafe(job.generation + 1) then Ok(restored)
                                                    else Err(AuthorityRejected(AuthorityScopeInvalid))
    ensures var r := RestoreStep(env, db, job, bytes, keys, now);
            && (r.Ok? <==> RestoreBound(job) && KeyParts.PositiveSafe(job.generation + 1) && Room(db, job, |restored|))
            && (r.Ok? ==> Written(db, job, restored, r.value))
  {
    if RestoreBound(job) {
      QueueTakes(db, job, restored, now);
      hide RestoreFor, RestoreBound, Room, Written, ArtifactQueue.Restored, ArtifactQueue.RestoreError;
    }
  }

  /** A restore of an envelope that was created at the source generation succeeds exactly
      if it is bound to the generation after the current one, that generation is a safe
      integer, and the queue has room for the checkpoint. It then writes, for that
      generation and nothing else, a checkpoint that reads as the scene of the snapshot. */
  lemma RestoreKeepsScene(env: Environment, db: ArtifactQueue.Database, job: RestoreJob, state: seq<Byte>, key: BindingKey,
                          createdAt: Str, keys: map<Str, Str>, bytes: seq<Byte>, now: int)
    requires Laws(env) && key.id in keys && keys[key.id] == key.secret && job.source.Some?
    requires CreateEnvelope(env, SourceOf(job), state, key, createdAt).Ok?
    requires bytes == CreateEnvelope(env, SourceOf(job), state, key, createdAt).value.bytes
    ensures SceneIn(env, state, SourceOf(job)).Some?
    ensures var restored := RestoredState(env, TargetOf(job), SceneIn(env, state, SourceOf(job)).value);
            var r := RestoreStep(env, db, job, bytes, keys, now);
            && (r.Ok? <==> RestoreBound(job) && KeyParts.PositiveSafe(job.generation + 1) && Room(db, job, |restored|))
            && (r.Ok? ==> Written(db, job, restored, r.value) && SceneIn(env, restored, TargetOf(job)) == SceneIn(env, state, SourceOf(job)))
  {
    hide Laws, CreateEnvelope, VerifyEnvelope, SceneIn, HashOf, RestoredState, RestoreFor, RestoreBound, RestoreStep, Room,
         Written;
    CreatedVerifies(env, SourceOf(job), state, key, createdAt, keys);
    var restored := RestoredState(env, TargetOf(job), SceneIn(env, state, SourceOf(job)).value);
    if RestoreBound(job) {
      RestoreForSealed(env, job, state, key, createdAt, keys, bytes);
      if KeyParts.PositiveSafe(job.generation + 1) {
        SnapshotThenRestore(env, SourceOf(job), state, key, createdAt, keys, job.generation + 1);
      }
    }
    StepOf(env, db, job, bytes, keys, now, restored);
  }
}
