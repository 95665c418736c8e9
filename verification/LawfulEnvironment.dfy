/** An environment that meets the laws of the snapshot pipeline, so that they
    contradict neither each other nor the model: text with the lengths of UTF-8,
    roots stored as JSON, and decoders that look for what was encoded. */
module LawfulEnvironment {
  import opened Wrappers
  import opened Text
  import opened Json
  import opened JsonValues
  import opened ElementStore
  import opened CanonicalScene
  import opened PortableScene

  // ----- text -----

  function UnitBytes(s: Str): (r: seq<Byte>)
    requires s != []
    ensures StartsWithPair(s) ==> |r| == 4 && 240 <= r[0]
    ensures !StartsWithPair(s) && s[0] < 0x80 ==> |r| == 1 && r[0] < 128
    ensures !StartsWithPair(s) && 0x80 <= s[0] < 0x800 ==> |r| == 2 && 192 <= r[0] < 200
    ensures !StartsWithPair(s) && 0x800 <= s[0] ==> |r| == 3 && r[0] == 224
  {
    var u := s[0];
    if StartsWithPair(s) then
      var h, l := u - 0xD800, s[1] - 0xDC00;
      [240 + h / 256, h % 256, l / 256, l % 256]
    else if u < 0x80 then [u]
    else if u < 0x800 then [192 + u / 256, u % 256]
    else [224, u / 256, u % 256]
  }

  function Bytes(s: Str): (r: seq<Byte>)
    ensures |r| == Utf8Length(s)
  {
    if s == [] then [] else UnitBytes(s) + Bytes(if StartsWithPair(s) then s[2..] else s[1..])
  }

  lemma FirstUnits(s: Str, t: Str, x: seq<Byte>, y: seq<Byte>)
    requires s != [] && t != [] && UnitBytes(s) + x == UnitBytes(t) + y
    ensures StartsWithPair(s) == StartsWithPair(t) && s[0] == t[0] && x == y
    ensures StartsWithPair(s) ==> s[1] == t[1]
  {
    var a, b := UnitBytes(s), UnitBytes(t);
    assert (a + x)[0] == a[0] && (b + y)[0] == b[0];
    assert |a| == |b|;
    assert a == (a + x)[..|a|] == b;
    assert x == (a + x)[|a|..] == y;
  }

  lemma {:induction false} BytesInjective(s: Str, t: Str)
    requires Bytes(s) == Bytes(t)
    ensures s == t
  {
    if s != [] && t != [] {
      var n := if StartsWithPair(s) then 2 else 1;
      var m := if StartsWithPair(t) then 2 else 1;
      FirstUnits(s, t, Bytes(s[n..]), Bytes(t[m..]));
      BytesInjective(s[n..], t[m..]);
      assert s == s[..n] + s[n..] && t == t[..n] + t[n..];
    }
  }

  function Widened(b: seq<Byte>): Str
  {
    seq(|b|, i requires 0 <= i < |b| => b[i])
  }

  lemma WidenedInjective(a: seq<Byte>, b: seq<Byte>)
    requires Widened(a) == Widened(b)
    ensures a == b
  {
    assert |a| == |Widened(a)| == |b|;
    forall i | 0 <= i < |a| ensures a[i] == b[i] {
      assert Widened(a)[i] == a[i] && Widened(b)[i] == b[i];
    }
  }

  // ----- a total order -----

  /** Code unit order, as digits of a fraction. */
  function Fraction(s: Str): (r: real)
    ensures 0.0 <= r < 1.0 && (s != [] ==> r > 0.0)
  {
    if s == [] then 0.0 else ((s[0] as int + 1) as real + Fraction(s[1..])) / 65537.0
  }

  lemma {:induction false} FractionInjective(a: Str, b: Str)
    requires Fraction(a) == Fraction(b)
    ensures a == b
  {
    if a != [] && b != [] {
      var x, y := Fraction(a[1..]), Fraction(b[1..]);
      assert (a[0] as int + 1) as real + x == Fraction(a) * 65537.0;
      assert (b[0] as int + 1) as real + y == Fraction(b) * 65537.0;
      assert (a[0] as int - b[0] as int) as real == y - x;
      assert a[0] == b[0];
      FractionInjective(a[1..], b[1..]);
      assert a == [a[0]] + a[1..] && b == [b[0]] + b[1..];
    }
  }

  // ----- roots as JSON -----

  function Texts(texts: seq<Str>): Value
  {
    VArr(seq(|texts|, i requires 0 <= i < |texts| => VStr(texts[i])))
  }

  lemma TextsInjective(a: seq<Str>, b: seq<Str>)
    requires Texts(a) == Texts(b)
    ensures a == b
  {
    assert |a| == |Texts(a).items| == |b|;
    forall i | 0 <= i < |a| ensures a[i] == b[i] {
      assert Texts(a).items[i] == VStr(a[i]) && Texts(b).items[i] == VStr(b[i]);
    }
  }

  function ScopeValue(scope: Option<Scope>): Value
  {
    match scope
    case None => VNull
    case Some(s) => Texts([s.tenantId, s.documentId, Decimal(s.generation)])
  }

  lemma ScopeValueInjective(a: Option<Scope>, b: Option<Scope>)
    requires ScopeValue(a) == ScopeValue(b)
    ensures a == b
  {
    if a.Some? && b.Some? {
      var x, y := [a.value.tenantId, a.value.documentId, Decimal(a.value.generation)],
                  [b.value.tenantId, b.value.documentId, Decimal(b.value.generation)];
      TextsInjective(x, y);
      assert x[0] == y[0] && x[1] == y[1] && x[2] == y[2];
      DecimalInjective(a.value.generation, b.value.generation);
    }
  }

  function PageValue(page: Option<Page>): Value
  {
    match page
    case None => VNull
    case Some(p) => Texts([p.backgroundColor, p.id, p.name])
  }

  lemma PageValueInjective(a: Option<Page>, b: Option<Page>)
    requires PageValue(a) == PageValue(b)
    ensures a == b
  {
    if a.Some? && b.Some? {
      var x, y := [a.value.backgroundColor, a.value.id, a.value.name],
                  [b.value.backgroundColor, b.value.id, b.value.name];
      TextsInjective(x, y);
      assert x[0] == y[0] && x[1] == y[1] && x[2] == y[2];
    }
  }

  function EnvelopeTexts(e: Envelope): seq<Str>
  {
    [e.actorId, e.elementId, Decimal(e.revision)] + if e.value.Some? then [Stringify(e.value.value)] else []
  }

  lemma EnvelopeTextsInjective(a: Envelope, b: Envelope)
    requires EnvelopeTexts(a) == EnvelopeTexts(b)
    ensures a == b
  {
    var x, y := EnvelopeTexts(a), EnvelopeTexts(b);
    assert x[0] == y[0] && x[1] == y[1] && x[2] == y[2] && |x| == |y|;
    DecimalInjective(a.revision, b.revision);
    if a.value.Some? {
      assert x[3] == y[3];
      StringifyInjective(a.value.value, b.value.value);
    }
  }

  function ElementsValue(elements: Elements): Value
  {
    VObj(map k | k in elements :: Texts(EnvelopeTexts(elements[k])))
  }

  lemma ElementsValueInjective(a: Elements, b: Elements)
    requires ElementsValue(a) == ElementsValue(b)
    ensures a == b
  {
    assert a.Keys == ElementsValue(a).fields.Keys == b.Keys;
    forall k | k in a ensures a[k] == b[k] {
      assert ElementsValue(a).fields[k] == ElementsValue(b).fields[k];
      TextsInjective(EnvelopeTexts(a[k]), EnvelopeTexts(b[k]));
      EnvelopeTextsInjective(a[k], b[k]);
    }
  }

  function FilesValue(files: map<Str, CanonicalJson>): Value
  {
    VObj(map k | k in files :: VStr(Stringify(files[k])))
  }

  lemma FilesValueInjective(a: map<Str, CanonicalJson>, b: map<Str, CanonicalJson>)
    requires FilesValue(a) == FilesValue(b)
    ensures a == b
  {
    assert a.Keys == FilesValue(a).fields.Keys == b.Keys;
    forall k | k in a ensures a[k] == b[k] {
      assert FilesValue(a).fields[k] == FilesValue(b).fields[k];
      StringifyInjective(a[k], b[k]);
    }
  }

  function StoreParts(s: Store): seq<Value>
  {
    [ScopeValue(s.metadata), PageValue(s.page), ElementsValue(s.elements), Texts(s.order), FilesValue(s.files)]
  }

  function EncodeStore(s: Store): seq<Byte>
  {
    Bytes(Stringify(Represent(VArr(StoreParts(s)))))
  }

  /** No two contents of the roots are stored alike. */
  lemma EncodeStoreInjective(a: Store, b: Store)
    requires EncodeStore(a) == EncodeStore(b)
    ensures a == b
  {
    hide Bytes, Stringify, Represent, ScopeValue, PageValue, ElementsValue, Texts, FilesValue;
    var x, y := VArr(StoreParts(a)), VArr(StoreParts(b));
    BytesInjective(Stringify(Represent(x)), Stringify(Represent(y)));
    StringifyInjective(Represent(x), Represent(y));
    RepresentDenotes(x);
    RepresentDenotes(y);
    assert forall i :: 0 <= i < 5 ==> x.items[i] == y.items[i];
    ScopeValueInjective(a.metadata, b.metadata);
    PageValueInjective(a.page, b.page);
    ElementsValueInjective(a.elements, b.elements);
    TextsInjective(a.order, b.order);
    FilesValueInjective(a.files, b.files);
  }

  // ----- decoders -----

  ghost function TextIn(b: seq<Byte>): Option<Str>
  {
    if t: Str :| Bytes(t) == b then Some(t) else None
  }

  ghost function ParsedText(t: Str): Option<Value>
  {
    if j: Json :| WellFormed(j) && Stringify(j) == t then Some(Denote(j)) else None
  }

  ghost function SceneOf(v: Value): Option<Scene>
  {
    if s: Scene :| Accepted(s) && Denote(SceneJson(s)) == v then Some(s) else None
  }

  ghost function Narrowed(t: Str): Option<seq<Byte>>
  {
    if b: seq<Byte> :| Widened(b) == t then Some(b) else None
  }

  ghost function DecodedStore(b: seq<Byte>): Option<Store>
  {
    if s: Store :| EncodeStore(s) == b then Some(s) else None
  }

  ghost function Lawful(): Environment
  {
    Environment(Bytes, TextIn, ParsedText, Represent, n => [], t => true, t => true, SceneOf, b => [], (t, u) => [],
                t => true, Widened, Narrowed, t => true, DecodedStore, EncodeStore, b => [], Fraction)
  }

  lemma TextsAreRead(j: Json)
    requires WellFormed(j)
    ensures TextIn(Bytes(Stringify(j))) == Some(Stringify(j)) && ParsedText(Stringify(j)) == Some(Denote(j))
  {
    hide Bytes, Stringify, WellFormed, Denote;
    var t := Stringify(j);
    assert Bytes(t) == Bytes(Stringify(j));
    BytesInjective(TextIn(Bytes(t)).value, t);
    var i: Json :| WellFormed(i) && Stringify(i) == t && ParsedText(t) == Some(Denote(i));
    StringifyInjective(i, j);
  }

  lemma ScenesAreRead(s: Scene)
    requires Accepted(s)
    ensures SceneOf(Denote(SceneJson(s))) == Some(s)
  {
    hide Accepted, Denote, SceneJson;
    var v := Denote(SceneJson(s));
    assert Accepted(s) && Denote(SceneJson(s)) == v;
    AcceptedSceneIsItsValue(SceneOf(v).value, s);
  }

  /** The laws can hold: what is proved from them is not proved from nothing. */
  lemma LawsCanHold()
    ensures Laws(Lawful())
  {
    var env := Lawful();
    hide Bytes, Stringify, WellFormed, Denote, Accepted, SceneJson, TextIn, ParsedText, SceneOf, Narrowed, DecodedStore,
      Represent, Widened, EncodeStore, Fraction, Utf8Length;
    forall j: Json | WellFormed(j)
      ensures env.text(env.utf8(Stringify(j))) == Some(Stringify(j)) && env.parse(Stringify(j)) == Some(Denote(j))
    {
      TextsAreRead(j);
    }
    forall v: Value ensures WellFormed(env.order(v)) && Denote(env.order(v)) == v {
      RepresentDenotes(v);
    }
    forall s: Scene | Accepted(s) ensures env.sceneOf(Denote(SceneJson(s))) == Some(s) {
      ScenesAreRead(s);
    }
    forall b: seq<Byte> ensures env.unbase64(env.base64(b)) == Some(b) {
      BytesAreRead(b);
    }
    forall s: Store ensures env.applyUpdate(env.encode(s)) == Some(s) {
      StoresAreRead(s);
    }
    forall a, b | env.rank(a) == env.rank(b) ensures a == b {
      FractionInjective(a, b);
    }
  }

  lemma BytesAreRead(b: seq<Byte>)
    ensures Narrowed(Widened(b)) == Some(b)
  {
    hide Widened;
    var t := Widened(b);
    assert Widened(b) == t;
    WidenedInjective(Narrowed(t).value, b);
  }

  lemma StoresAreRead(s: Store)
    ensures DecodedStore(EncodeStore(s)) == Some(s)
  {
    hide EncodeStore;
    var b := EncodeStore(s);
    assert EncodeStore(s) == b;
    EncodeStoreInjective(DecodedStore(b).value, s);
  }
}
