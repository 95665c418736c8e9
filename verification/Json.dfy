/** JSON values, `JSON.stringify`, and the key-sorting `stableStringify` that
    decides every equality test of the canonical authority. */
module Json {
  import opened Text

  /** A JSON value as JavaScript holds it: objects list their own properties in
      insertion order. A number is represented by the text that
      `Number::toString` prints for it. */
  datatype Json =
    | Null
    | Bool(b: bool)
    | Num(text: NumText)
    | Str(s: Str)
    | Arr(items: seq<Json>)
    | Obj(fields: seq<Entry<Json>>)

  /** What a JSON text denotes: an object is an unordered map. */
  datatype Value =
    | VNull
    | VBool(b: bool)
    | VNum(text: NumText)
    | VStr(s: Str)
    | VArr(items: seq<Value>)
    | VObj(fields: map<Str, Value>)

  const QUOTE: Unit := 34
  const COMMA: Unit := 44
  const COLON: Unit := 58
  const BACKSLASH: Unit := 92
  const OPEN_BRACKET: Unit := 91
  const CLOSE_BRACKET: Unit := 93
  const OPEN_BRACE: Unit := 123
  const CLOSE_BRACE: Unit := 125

  const NULL_TEXT: seq<Unit> := [110, 117, 108, 108]
  const TRUE_TEXT: seq<Unit> := [116, 114, 117, 101]
  const FALSE_TEXT: seq<Unit> := [102, 97, 108, 115, 101]

  predicate IsDigit(u: Unit) { 48 <= u <= 57 }

  /** Digits, `+`, `-`, `.` and `e`, the units of a printed finite number. */
  predicate IsNumUnit(u: Unit) { IsDigit(u) || u == 43 || u == 45 || u == 46 || u == 101 }

  predicate IsNumText(s: seq<Unit>)
  {
    |s| > 0 && (IsDigit(s[0]) || s[0] == 45) && forall i :: 0 <= i < |s| ==> IsNumUnit(s[i])
  }

  type NumText = s: seq<Unit> | IsNumText(s) witness [48]

  /** No object repeats a property name, which holds of every JavaScript object. */
  predicate WellFormed(v: Json)
    decreases v, 1
  {
    match v
    case Arr(items) => forall i :: 0 <= i < |items| ==> WellFormed(items[i])
    case Obj(fields) => DistinctKeys(fields) && forall i :: 0 <= i < |fields| ==> WellFormed(fields[i].value)
    case _ => true
  }

  // ----- what a value denotes -----

  function Denote(v: Json): Value
    decreases v, 1
  {
    match v
    case Null => VNull
    case Bool(b) => VBool(b)
    case Num(text) => VNum(text)
    case Str(s) => VStr(s)
    case Arr(items) => VArr(DenoteItems(items))
    case Obj(fields) => VObj(AsMap(DenoteEntries(fields)))
  }

  function DenoteItems(items: seq<Json>): (r: seq<Value>)
    ensures |r| == |items| && forall i :: 0 <= i < |items| ==> r[i] == Denote(items[i])
    decreases items, 0
  {
    if items == [] then [] else [Denote(items[0])] + DenoteItems(items[1..])
  }

  function DenoteEntries(es: seq<Entry<Json>>): (r: seq<Entry<Value>>)
    ensures |r| == |es| && forall i :: 0 <= i < |es| ==> r[i] == Entry(es[i].key, Denote(es[i].value))
    decreases es, 0
  {
    if es == [] then [] else [Entry(es[0].key, Denote(es[0].value))] + DenoteEntries(es[1..])
  }

  // ----- JSON.stringify -----

  predicate IsHigh(u: Unit) { 0xD800 <= u < 0xDC00 }
  predicate IsLow(u: Unit) { 0xDC00 <= u < 0xE000 }

  function HexDigit(d: int): Unit
    requires 0 <= d < 16
  {
    if d < 10 then 48 + d else 87 + d
  }

  function Hex4(u: Unit): (r: seq<Unit>)
    ensures |r| == 4
  {
    [HexDigit(u / 16 / 16 / 16), HexDigit(u / 16 / 16 % 16), HexDigit(u / 16 % 16), HexDigit(u % 16)]
  }

  /** One code unit inside quotes; a lone surrogate is written as `\udXXX`. */
  function EscapeUnit(u: Unit): (r: seq<Unit>)
    ensures |r| > 0 && r[0] != QUOTE && !IsHigh(r[0])
  {
    if u == 8 then [BACKSLASH, 98]
    else if u == 9 then [BACKSLASH, 116]
    else if u == 10 then [BACKSLASH, 110]
    else if u == 12 then [BACKSLASH, 102]
    else if u == 13 then [BACKSLASH, 114]
    else if u == QUOTE || u == BACKSLASH then [BACKSLASH, u]
    else if u < 32 || IsHigh(u) || IsLow(u) then [BACKSLASH, 117] + Hex4(u)
    else [u]
  }

  predicate StartsWithPair(s: Str) { |s| > 1 && IsHigh(s[0]) && IsLow(s[1]) }

  function Escape(s: Str): seq<Unit>
  {
    if s == [] then []
    else if StartsWithPair(s) then [s[0], s[1]] + Escape(s[2..])
    else EscapeUnit(s[0]) + Escape(s[1..])
  }

  function Quote(s: Str): seq<Unit>
  {
    [QUOTE] + Escape(s) + [QUOTE]
  }

  function Join(parts: seq<Str>): seq<Unit>
  {
    if |parts| == 0 then []
    else if |parts| == 1 then parts[0]
    else parts[0] + [COMMA] + Join(parts[1..])
  }

  /** The `key:value` texts of an object's already rendered properties. */
  function Properties(es: seq<Entry<seq<Unit>>>): (r: seq<seq<Unit>>)
    ensures |r| == |es| && forall i :: 0 <= i < |es| ==> r[i] == Quote(es[i].key) + [COLON] + es[i].value
  {
    seq(|es|, i requires 0 <= i < |es| => Quote(es[i].key) + [COLON] + es[i].value)
  }

  /** `JSON.stringify(v)`. */
  function Stringify(v: Json): seq<Unit>
    decreases v, 1
  {
    match v
    case Null => NULL_TEXT
    case Bool(b) => if b then TRUE_TEXT else FALSE_TEXT
    case Num(text) => text
    case Str(s) => Quote(s)
    case Arr(items) => [OPEN_BRACKET] + Join(StringifyItems(items)) + [CLOSE_BRACKET]
    case Obj(fields) => [OPEN_BRACE] + Join(Properties(StringifyEntries(fields))) + [CLOSE_BRACE]
  }

  function StringifyItems(items: seq<Json>): (r: seq<seq<Unit>>)
    ensures |r| == |items| && forall i :: 0 <= i < |items| ==> r[i] == Stringify(items[i])
    decreases items, 0
  {
    if items == [] then [] else [Stringify(items[0])] + StringifyItems(items[1..])
  }

  function StringifyEntries(es: seq<Entry<Json>>): (r: seq<Entry<seq<Unit>>>)
    ensures |r| == |es| && forall i :: 0 <= i < |es| ==> r[i] == Entry(es[i].key, Stringify(es[i].value))
    decreases es, 0
  {
    if es == [] then [] else [Entry(es[0].key, Stringify(es[0].value))] + StringifyEntries(es[1..])
  }

  /** `stableStringify(v)`: like `JSON.stringify`, with every object's keys sorted. */
  function StableStringify(v: Json): seq<Unit>
    decreases v, 1
  {
    match v
    case Arr(items) => [OPEN_BRACKET] + Join(StableItems(items)) + [CLOSE_BRACKET]
    case Obj(fields) => [OPEN_BRACE] + Join(Properties(SortByKey(StableEntries(fields)))) + [CLOSE_BRACE]
    case _ => Stringify(v)
  }

  function StableItems(items: seq<Json>): (r: seq<seq<Unit>>)
    ensures |r| == |items| && forall i :: 0 <= i < |items| ==> r[i] == StableStringify(items[i])
    decreases items, 0
  {
    if items == [] then [] else [StableStringify(items[0])] + StableItems(items[1..])
  }

  function StableEntries(es: seq<Entry<Json>>): (r: seq<Entry<seq<Unit>>>)
    ensures |r| == |es| && forall i :: 0 <= i < |es| ==> r[i] == Entry(es[i].key, StableStringify(es[i].value))
    decreases es, 0
  {
    if es == [] then [] else [Entry(es[0].key, StableStringify(es[0].value))] + StableEntries(es[1..])
  }

  // ----- unambiguous concatenation -----

  lemma CancelFront(w: seq<Unit>, p: seq<Unit>, q: seq<Unit>)
    requires w + p == w + q
    ensures p == q
  {
    assert p == (w + p)[|w|..] && q == (w + q)[|w|..];
  }

  lemma Regroup(a: seq<Unit>, b: seq<Unit>, c: seq<Unit>, d: seq<Unit>)
    ensures a + b + c == a + (b + c)
    ensures (a + b) + c + d == a + (b + c + d)
  {
  }

  lemma Hex4Injective(a: Unit, b: Unit)
    requires Hex4(a) == Hex4(b)
    ensures a == b
  {
    var a1, b1 := a / 16, b / 16;
    var a2, b2 := a1 / 16, b1 / 16;
    assert HexDigit(a2 / 16) == Hex4(a)[0] == Hex4(b)[0] == HexDigit(b2 / 16);
    assert HexDigit(a2 % 16) == Hex4(a)[1] == Hex4(b)[1] == HexDigit(b2 % 16);
    assert HexDigit(a1 % 16) == Hex4(a)[2] == Hex4(b)[2] == HexDigit(b1 % 16);
    assert HexDigit(a % 16) == Hex4(a)[3] == Hex4(b)[3] == HexDigit(b % 16);
    assert a2 == b2 && a1 == b1;
  }

  /** Escapes of two code units never overlap in a common prefix. */
  lemma EscapeUnitPrefix(a: Unit, b: Unit, u: seq<Unit>, v: seq<Unit>)
    requires EscapeUnit(a) + u == EscapeUnit(b) + v
    ensures a == b && u == v
  {
    var x, y := EscapeUnit(a) + u, EscapeUnit(b) + v;
    assert x[0] == y[0];
    if x[0] == BACKSLASH {
      assert x[1] == EscapeUnit(a)[1] && y[1] == EscapeUnit(b)[1];
      if x[1] == 117 {
        assert x[2..6] == Hex4(a) && y[2..6] == Hex4(b);
        Hex4Injective(a, b);
      }
    }
    assert a == b;
    assert u == x[|EscapeUnit(a)|..] && v == y[|EscapeUnit(b)|..];
  }

  /** What `Escape` writes first, and what it has left to escape. */
  function Chunk(s: Str): (r: seq<Unit>)
    requires s != []
    ensures |r| > 0 && r[0] != QUOTE
  {
    if StartsWithPair(s) then [s[0], s[1]] else EscapeUnit(s[0])
  }

  function AfterChunk(s: Str): Str
    requires s != []
  {
    if StartsWithPair(s) then s[2..] else s[1..]
  }

  lemma ChunkPrefix(s: Str, t: Str, u: seq<Unit>, v: seq<Unit>)
    requires s != [] && t != []
    requires Chunk(s) + u == Chunk(t) + v
    ensures u == v
    ensures AfterChunk(s) == AfterChunk(t) ==> s == t
  {
    var x, y := Chunk(s) + u, Chunk(t) + v;
    assert x[0] == y[0];
    assert StartsWithPair(s) <==> StartsWithPair(t);
    if StartsWithPair(s) {
      assert x[1] == y[1];
      CancelFront(Chunk(s), u, v);
      assert s == [s[0], s[1]] + s[2..] && t == [t[0], t[1]] + t[2..];
    } else {
      EscapeUnitPrefix(s[0], t[0], u, v);
      assert s == [s[0]] + s[1..] && t == [t[0]] + t[1..];
    }
  }

  lemma ChunkFirst(s: Str, u: seq<Unit>)
    requires s != []
    ensures Escape(s) + [QUOTE] + u == Chunk(s) + (Escape(AfterChunk(s)) + [QUOTE] + u)
  {
    assert Escape(s) == Chunk(s) + Escape(AfterChunk(s));
    Regroup(Chunk(s), Escape(AfterChunk(s)), [QUOTE], u);
  }

  lemma {:induction false} EscapePrefix(s: Str, t: Str, u: seq<Unit>, v: seq<Unit>)
    requires Escape(s) + [QUOTE] + u == Escape(t) + [QUOTE] + v
    ensures s == t && u == v
    decreases |s|
  {
    if s != [] { ChunkFirst(s, u); } else { assert Escape(s) + [QUOTE] + u == [QUOTE] + u; }
    if t != [] { ChunkFirst(t, v); } else { assert Escape(t) + [QUOTE] + v == [QUOTE] + v; }
    assert s != [] ==> (Escape(s) + [QUOTE] + u)[0] != QUOTE;
    assert t != [] ==> (Escape(t) + [QUOTE] + v)[0] != QUOTE;
    if s == [] {
      CancelFront([QUOTE], u, v);
    } else {
      ChunkPrefix(s, t, Escape(AfterChunk(s)) + [QUOTE] + u, Escape(AfterChunk(t)) + [QUOTE] + v);
      EscapePrefix(AfterChunk(s), AfterChunk(t), u, v);
    }
  }

  lemma QuotePrefix(s: Str, t: Str, u: seq<Unit>, v: seq<Unit>)
    requires Quote(s) + u == Quote(t) + v
    ensures s == t && u == v
  {
    var x, y := Quote(s) + u, Quote(t) + v;
    assert x[1..] == Escape(s) + [QUOTE] + u && y[1..] == Escape(t) + [QUOTE] + v;
    EscapePrefix(s, t, u, v);
  }

  /** What may follow a value inside a larger text. */
  predicate Delimited(u: seq<Unit>)
  {
    u == [] || u[0] == COMMA || u[0] == CLOSE_BRACKET || u[0] == CLOSE_BRACE
  }

  lemma {:induction false} NumPrefix(a: seq<Unit>, b: seq<Unit>, u: seq<Unit>, v: seq<Unit>)
    requires forall i :: 0 <= i < |a| ==> IsNumUnit(a[i])
    requires forall i :: 0 <= i < |b| ==> IsNumUnit(b[i])
    requires Delimited(u) && Delimited(v) && a + u == b + v
    ensures a == b && u == v
  {
    assert a == [] ==> a + u == u;
    assert b == [] ==> b + v == v;
    if a != [] && b != [] {
      assert a[0] == (a + u)[0] == (b + v)[0] == b[0];
      assert a[1..] + u == (a + u)[1..] && b[1..] + v == (b + v)[1..];
      NumPrefix(a[1..], b[1..], u, v);
      assert a == [a[0]] + a[1..] && b == [b[0]] + b[1..];
    }
  }

  lemma FirstUnit(v: Json)
    ensures |Stringify(v)| > 0
    ensures var c := Stringify(v)[0];
            c == match v
                 case Null => 110
                 case Bool(b) => if b then 116 else 102
                 case Num(text) => text[0]
                 case Str(_) => QUOTE
                 case Arr(_) => OPEN_BRACKET
                 case Obj(_) => OPEN_BRACE
  {
  }

  lemma SameKind(a: Json, b: Json, u: seq<Unit>, v: seq<Unit>)
    requires Stringify(a) + u == Stringify(b) + v
    ensures a.Null? <==> b.Null?
    ensures a.Bool? <==> b.Bool?
    ensures a.Bool? ==> a == b
    ensures a.Num? <==> b.Num?
    ensures a.Str? <==> b.Str?
    ensures a.Arr? <==> b.Arr?
    ensures a.Obj? <==> b.Obj?
  {
    FirstUnit(a);
    FirstUnit(b);
    assert Stringify(a)[0] == (Stringify(a) + u)[0] == (Stringify(b) + v)[0] == Stringify(b)[0];
  }

  lemma Unwrap(open: Unit, close: Unit, m: seq<Unit>, n: seq<Unit>, u: seq<Unit>, v: seq<Unit>)
    requires ([open] + m + [close]) + u == ([open] + n + [close]) + v
    ensures m + [close] + u == n + [close] + v
  {
    assert ([open] + m + [close]) + u == [open] + (m + [close] + u);
    assert ([open] + n + [close]) + v == [open] + (n + [close] + v);
    CancelFront([open], m + [close] + u, n + [close] + v);
  }

  /** A value's text is determined by any longer text it starts, as long as a
      delimiter follows it. */
  lemma {:induction false} StringifyPrefix(a: Json, b: Json, u: seq<Unit>, v: seq<Unit>)
    requires Delimited(u) && Delimited(v)
    requires Stringify(a) + u == Stringify(b) + v
    ensures a == b && u == v
    decreases a, 1
  {
    SameKind(a, b, u, v);
    match a
    case Num(s) =>
      NumPrefix(s, b.text, u, v);
    case Str(s) =>
      QuotePrefix(s, b.s, u, v);
    case Arr(items) =>
      Unwrap(OPEN_BRACKET, CLOSE_BRACKET, Join(StringifyItems(items)), Join(StringifyItems(b.items)), u, v);
      ItemsPrefix(items, b.items, u, v);
    case Obj(fields) =>
      Unwrap(OPEN_BRACE, CLOSE_BRACE, Join(Properties(StringifyEntries(fields))),
             Join(Properties(StringifyEntries(b.fields))), u, v);
      EntriesPrefix(fields, b.fields, u, v);
    case _ =>
      CancelFront(Stringify(a), u, v);
  }

  /** What follows the first of several comma-joined parts. */
  function After(parts: seq<seq<Unit>>, close: Unit, u: seq<Unit>): (r: seq<Unit>)
    requires |parts| > 0
    ensures r != [] && r[0] == if |parts| == 1 then close else COMMA
  {
    if |parts| == 1 then [close] + u else [COMMA] + (Join(parts[1..]) + [close] + u)
  }

  lemma JoinSplit(parts: seq<seq<Unit>>, close: Unit, u: seq<Unit>)
    requires |parts| > 0
    ensures Join(parts) + [close] + u == parts[0] + After(parts, close, u)
  {
    if |parts| == 1 {
      Regroup(parts[0], [close], u, []);
    } else {
      var j := Join(parts[1..]);
      Regroup(parts[0] + [COMMA], j, [close], u);
      Regroup(parts[0], [COMMA], j + [close] + u, []);
    }
  }

  /** Two joined lists whose texts agree are empty together. */
  lemma EmptyTogether(ps: seq<seq<Unit>>, qs: seq<seq<Unit>>, close: Unit, u: seq<Unit>, v: seq<Unit>)
    requires Join(ps) + [close] + u == Join(qs) + [close] + v
    requires ps != [] ==> ps[0] != [] && ps[0][0] != close
    requires qs != [] ==> qs[0] != [] && qs[0][0] != close
    ensures ps == [] <==> qs == []
    ensures ps == [] ==> u == v
    ensures ps != [] ==> ps[0] + After(ps, close, u) == qs[0] + After(qs, close, v)
  {
    var x, y := Join(ps) + [close] + u, Join(qs) + [close] + v;
    if ps != [] {
      JoinSplit(ps, close, u);
      assert x[0] == ps[0][0];
    } else {
      assert x == [close] + u;
    }
    if qs != [] {
      JoinSplit(qs, close, v);
      assert y[0] == qs[0][0];
    } else {
      assert y == [close] + v;
    }
    if ps == [] && qs == [] {
      CancelFront([close], u, v);
    }
  }

  /** When the heads have been consumed, the lists continue alike. */
  lemma ContinueAlike(ps: seq<seq<Unit>>, qs: seq<seq<Unit>>, close: Unit, u: seq<Unit>, v: seq<Unit>)
    requires ps != [] && qs != [] && close != COMMA
    requires After(ps, close, u) == After(qs, close, v)
    ensures |ps| == 1 <==> |qs| == 1
    ensures |ps| == 1 ==> u == v
    ensures |ps| > 1 ==> Join(ps[1..]) + [close] + u == Join(qs[1..]) + [close] + v
  {
    if |ps| == 1 && |qs| == 1 {
      CancelFront([close], u, v);
    } else if |ps| > 1 && |qs| > 1 {
      CancelFront([COMMA], Join(ps[1..]) + [close] + u, Join(qs[1..]) + [close] + v);
    }
  }

  lemma {:induction false} ItemsPrefix(xs: seq<Json>, ys: seq<Json>, u: seq<Unit>, v: seq<Unit>)
    requires Join(StringifyItems(xs)) + [CLOSE_BRACKET] + u == Join(StringifyItems(ys)) + [CLOSE_BRACKET] + v
    ensures xs == ys && u == v
    decreases xs, 0
  {
    var ps, qs := StringifyItems(xs), StringifyItems(ys);
    if xs != [] { FirstUnit(xs[0]); }
    if ys != [] { FirstUnit(ys[0]); }
    EmptyTogether(ps, qs, CLOSE_BRACKET, u, v);
    if xs != [] {
      StringifyPrefix(xs[0], ys[0], After(ps, CLOSE_BRACKET, u), After(qs, CLOSE_BRACKET, v));
      ContinueAlike(ps, qs, CLOSE_BRACKET, u, v);
      if |xs| > 1 {
        ItemsTail(xs);
        ItemsTail(ys);
        ItemsPrefix(xs[1..], ys[1..], u, v);
      }
      SameHeadAndTail(xs, ys);
    }
  }

  lemma ItemsTail(xs: seq<Json>)
    requires xs != []
    ensures StringifyItems(xs)[1..] == StringifyItems(xs[1..])
  {
  }

  lemma SameHeadAndTail<T>(xs: seq<T>, ys: seq<T>)
    requires xs != [] && ys != [] && xs[0] == ys[0]
    requires |xs| == 1 ==> |ys| == 1
    requires |xs| > 1 ==> xs[1..] == ys[1..]
    ensures xs == ys
  {
    assert xs == [xs[0]] + xs[1..] && ys == [ys[0]] + ys[1..];
  }

  lemma PropertySplit(e: Entry<Json>, p: seq<Unit>)
    ensures (Quote(e.key) + [COLON] + Stringify(e.value)) + p == Quote(e.key) + ([COLON] + (Stringify(e.value) + p))
  {
    Regroup(Quote(e.key) + [COLON], Stringify(e.value), p, []);
    Regroup(Quote(e.key), [COLON], Stringify(e.value) + p, []);
  }

  lemma {:induction false} PropertyPrefix(e: Entry<Json>, f: Entry<Json>, p: seq<Unit>, q: seq<Unit>)
    requires Delimited(p) && Delimited(q)
    requires (Quote(e.key) + [COLON] + Stringify(e.value)) + p == (Quote(f.key) + [COLON] + Stringify(f.value)) + q
    ensures e == f && p == q
    decreases e, 2
  {
    PropertySplit(e, p);
    PropertySplit(f, q);
    QuotePrefix(e.key, f.key, [COLON] + (Stringify(e.value) + p), [COLON] + (Stringify(f.value) + q));
    CancelFront([COLON], Stringify(e.value) + p, Stringify(f.value) + q);
    StringifyPrefix(e.value, f.value, p, q);
  }

  lemma EntriesTail(es: seq<Entry<Json>>)
    requires es != []
    ensures Properties(StringifyEntries(es))[1..] == Properties(StringifyEntries(es[1..]))
  {
  }

  lemma {:induction false} EntriesPrefix(es: seq<Entry<Json>>, fs: seq<Entry<Json>>, u: seq<Unit>, v: seq<Unit>)
    requires Join(Properties(StringifyEntries(es))) + [CLOSE_BRACE] + u
             == Join(Properties(StringifyEntries(fs))) + [CLOSE_BRACE] + v
    ensures es == fs && u == v
    decreases es, 0
  {
    var ps, qs := Properties(StringifyEntries(es)), Properties(StringifyEntries(fs));
    EmptyTogether(ps, qs, CLOSE_BRACE, u, v);
    if es != [] {
      PropertyPrefix(es[0], fs[0], After(ps, CLOSE_BRACE, u), After(qs, CLOSE_BRACE, v));
      ContinueAlike(ps, qs, CLOSE_BRACE, u, v);
      if |es| > 1 {
        EntriesTail(es);
        EntriesTail(fs);
        EntriesPrefix(es[1..], fs[1..], u, v);
      }
      SameHeadAndTail(es, fs);
    }
  }

  // ----- key order -----

  /** The representative of a value whose objects list their keys in sorted order. */
  function Normalize(v: Json): Json
    decreases v, 1
  {
    match v
    case Arr(items) => Arr(NormalizeItems(items))
    case Obj(fields) => Obj(SortByKey(NormalizeEntries(fields)))
    case _ => v
  }

  function NormalizeItems(items: seq<Json>): (r: seq<Json>)
    ensures |r| == |items| && forall i :: 0 <= i < |items| ==> r[i] == Normalize(items[i])
    decreases items, 0
  {
    if items == [] then [] else [Normalize(items[0])] + NormalizeItems(items[1..])
  }

  function NormalizeEntries(es: seq<Entry<Json>>): (r: seq<Entry<Json>>)
    ensures |r| == |es| && forall i :: 0 <= i < |es| ==> r[i] == Entry(es[i].key, Normalize(es[i].value))
    decreases es, 0
  {
    if es == [] then [] else [Entry(es[0].key, Normalize(es[0].value))] + NormalizeEntries(es[1..])
  }

  predicate Canonical(v: Json)
    decreases v, 1
  {
    match v
    case Arr(items) => forall i :: 0 <= i < |items| ==> Canonical(items[i])
    case Obj(fields) => SortedKeys(fields) && forall i :: 0 <= i < |fields| ==> Canonical(fields[i].value)
    case _ => true
  }

  lemma {:induction false} StringifyInsert(e: Entry<Json>, es: seq<Entry<Json>>)
    ensures StringifyEntries(Insert(e, es)) == Insert(Entry(e.key, Stringify(e.value)), StringifyEntries(es))
  {
    if es != [] && !Less(e.key, es[0].key) {
      StringifyInsert(e, es[1..]);
      assert StringifyEntries(es)[1..] == StringifyEntries(es[1..]);
      assert Insert(e, es)[1..] == Insert(e, es[1..]);
    } else {
      assert Insert(e, es)[1..] == es;
    }
  }

  /** Rendering the properties and sorting them commute. */
  lemma {:induction false} StringifySort(es: seq<Entry<Json>>)
    ensures StringifyEntries(SortByKey(es)) == SortByKey(StringifyEntries(es))
  {
    if es != [] {
      StringifySort(es[1..]);
      StringifyInsert(es[0], SortByKey(es[1..]));
      assert StringifyEntries(es)[1..] == StringifyEntries(es[1..]);
    }
  }

  /** `stableStringify` is `JSON.stringify` after sorting every object's keys. */
  lemma {:induction false} StableIsStringifyOfNormalized(v: Json)
    ensures StableStringify(v) == Stringify(Normalize(v))
    decreases v
  {
    match v
    case Arr(items) =>
      forall i | 0 <= i < |items| ensures StableItems(items)[i] == StringifyItems(NormalizeItems(items))[i] {
        StableIsStringifyOfNormalized(items[i]);
      }
      assert StableItems(items) == StringifyItems(NormalizeItems(items));
    case Obj(fields) =>
      var n := NormalizeEntries(fields);
      forall i | 0 <= i < |fields| ensures StableEntries(fields)[i] == StringifyEntries(n)[i] {
        StableIsStringifyOfNormalized(fields[i].value);
      }
      assert StableEntries(fields) == StringifyEntries(n);
      StringifySort(n);
    case _ =>
  }

  /** `JSON.stringify` determines the value and the order of its properties. */
  lemma StringifyInjective(a: Json, b: Json)
    requires Stringify(a) == Stringify(b)
    ensures a == b
  {
    assert Stringify(a) + [] == Stringify(b) + [];
    StringifyPrefix(a, b, [], []);
  }

  lemma {:induction false} DenoteInsert(e: Entry<Json>, es: seq<Entry<Json>>)
    ensures DenoteEntries(Insert(e, es)) == Insert(Entry(e.key, Denote(e.value)), DenoteEntries(es))
  {
    if es != [] && !Less(e.key, es[0].key) {
      DenoteInsert(e, es[1..]);
      assert DenoteEntries(es)[1..] == DenoteEntries(es[1..]);
      assert Insert(e, es)[1..] == Insert(e, es[1..]);
    } else {
      assert Insert(e, es)[1..] == es;
    }
  }

  lemma {:induction false} DenoteSort(es: seq<Entry<Json>>)
    ensures DenoteEntries(SortByKey(es)) == SortByKey(DenoteEntries(es))
  {
    if es != [] {
      DenoteSort(es[1..]);
      DenoteInsert(es[0], SortByKey(es[1..]));
      assert DenoteEntries(es)[1..] == DenoteEntries(es[1..]);
    }
  }

  /** Sorting keys never changes what a value denotes. */
  lemma {:induction false} NormalizeKeepsMeaning(v: Json)
    requires WellFormed(v)
    ensures Denote(Normalize(v)) == Denote(v)
    decreases v
  {
    match v
    case Arr(items) =>
      forall i | 0 <= i < |items| ensures DenoteItems(NormalizeItems(items))[i] == DenoteItems(items)[i] {
        NormalizeKeepsMeaning(items[i]);
      }
      assert DenoteItems(NormalizeItems(items)) == DenoteItems(items);
    case Obj(fields) =>
      var n := NormalizeEntries(fields);
      forall i | 0 <= i < |fields| ensures DenoteEntries(n)[i] == DenoteEntries(fields)[i] {
        NormalizeKeepsMeaning(fields[i].value);
      }
      assert DenoteEntries(n) == DenoteEntries(fields);
      DenoteSort(n);
      SortByKeySorts(DenoteEntries(n));
    case _ =>
  }

  lemma {:induction false} MeaningDeterminesNormalForm(a: Json, b: Json)
    requires WellFormed(a) && WellFormed(b)
    requires Denote(a) == Denote(b)
    ensures Normalize(a) == Normalize(b)
    decreases a
  {
    match a
    case Arr(items) =>
      forall i | 0 <= i < |items| ensures NormalizeItems(items)[i] == NormalizeItems(b.items)[i] {
        assert DenoteItems(items)[i] == DenoteItems(b.items)[i];
        MeaningDeterminesNormalForm(items[i], b.items[i]);
      }
      assert NormalizeItems(items) == NormalizeItems(b.items);
    case Obj(fields) =>
      forall i, j | 0 <= i < |fields| && 0 <= j < |b.fields| && fields[i].key == b.fields[j].key
        ensures Normalize(fields[i].value) == Normalize(b.fields[j].value)
      {
        AsMapLookup(DenoteEntries(fields));
        AsMapLookup(DenoteEntries(b.fields));
        assert DenoteEntries(fields)[i].value == DenoteEntries(b.fields)[j].value;
        MeaningDeterminesNormalForm(fields[i].value, b.fields[j].value);
      }
      SameNormalMap(fields, b.fields);
      SortByKeySorts(NormalizeEntries(fields));
      SortByKeySorts(NormalizeEntries(b.fields));
      SortedUnique(SortByKey(NormalizeEntries(fields)), SortByKey(NormalizeEntries(b.fields)));
    case _ =>
  }

  lemma SameNormalMap(es: seq<Entry<Json>>, fs: seq<Entry<Json>>)
    requires DistinctKeys(es) && DistinctKeys(fs)
    requires AsMap(DenoteEntries(es)).Keys == AsMap(DenoteEntries(fs)).Keys
    requires forall i, j :: 0 <= i < |es| && 0 <= j < |fs| && es[i].key == fs[j].key
               ==> Normalize(es[i].value) == Normalize(fs[j].value)
    ensures AsMap(NormalizeEntries(es)) == AsMap(NormalizeEntries(fs))
  {
    SameKeySet(es);
    SameKeySet(fs);
    hide AsMap, Normalize, Denote;
    SameMap(NormalizeEntries(es), NormalizeEntries(fs));
  }

  lemma SameKeySet(es: seq<Entry<Json>>)
    ensures AsMap(DenoteEntries(es)).Keys == AsMap(NormalizeEntries(es)).Keys
  {
    AsMapKeys(DenoteEntries(es));
    AsMapKeys(NormalizeEntries(es));
    assert Keys(DenoteEntries(es)) == Keys(NormalizeEntries(es));
  }

  /** The equality test of the authority: two values have the same stable text
      exactly when they are the same JSON value, whatever their key order. */
  lemma StableTextIffSameValue(a: Json, b: Json)
    requires WellFormed(a) && WellFormed(b)
    ensures StableStringify(a) == StableStringify(b) <==> Denote(a) == Denote(b)
  {
    StableIsStringifyOfNormalized(a);
    StableIsStringifyOfNormalized(b);
    if StableStringify(a) == StableStringify(b) {
      StringifyInjective(Normalize(a), Normalize(b));
      NormalizeKeepsMeaning(a);
      NormalizeKeepsMeaning(b);
    }
    if Denote(a) == Denote(b) {
      MeaningDeterminesNormalForm(a, b);
    }
  }

  lemma {:induction false} NormalizeIsCanonical(v: Json)
    requires WellFormed(v)
    ensures Canonical(Normalize(v)) && WellFormed(Normalize(v))
    decreases v
  {
    match v
    case Arr(items) =>
      forall i | 0 <= i < |items| ensures Canonical(Normalize(items[i])) && WellFormed(Normalize(items[i])) {
        NormalizeIsCanonical(items[i]);
      }
    case Obj(fields) =>
      var n := NormalizeEntries(fields);
      forall e | e in n ensures Canonical(e.value) && WellFormed(e.value) {
        var i :| 0 <= i < |n| && n[i] == e;
        NormalizeIsCanonical(fields[i].value);
      }
      SortByKeySorts(n);
      SortedIsDistinct(SortByKey(n));
    case _ =>
  }

  lemma {:induction false} InsertIntoSorted<T>(e: Entry<T>, es: seq<Entry<T>>)
    requires SortedKeys([e] + es)
    ensures Insert(e, es) == [e] + es
  {
    if es != [] {
      assert Less(([e] + es)[0].key, ([e] + es)[1].key);
    }
  }

  lemma {:induction false} SortOfSorted<T>(es: seq<Entry<T>>)
    requires SortedKeys(es)
    ensures SortByKey(es) == es
  {
    if es != [] {
      SortOfSorted(es[1..]);
      assert es == [es[0]] + es[1..];
      InsertIntoSorted(es[0], es[1..]);
    }
  }

  lemma {:induction false} CanonicalIsNormal(v: Json)
    requires Canonical(v)
    ensures Normalize(v) == v && WellFormed(v)
    decreases v
  {
    match v
    case Arr(items) =>
      forall i | 0 <= i < |items| ensures NormalizeItems(items)[i] == items[i] && WellFormed(items[i]) {
        CanonicalIsNormal(items[i]);
      }
      assert NormalizeItems(items) == items;
    case Obj(fields) =>
      forall i | 0 <= i < |fields| ensures NormalizeEntries(fields)[i] == fields[i] && WellFormed(fields[i].value) {
        CanonicalIsNormal(fields[i].value);
      }
      assert NormalizeEntries(fields) == fields;
      SortOfSorted(fields);
      SortedIsDistinct(fields);
    case _ =>
  }

  /** A JSON value up to key order, held as its key-sorted representative. */
  type CanonicalJson = v: Json | Canonical(v) witness Null

  lemma StableInjectiveOnCanonical(a: CanonicalJson, b: CanonicalJson)
    ensures StableStringify(a) == StableStringify(b) <==> a == b
    ensures StableStringify(a) == Stringify(a)
  {
    CanonicalIsNormal(a);
    CanonicalIsNormal(b);
    StableIsStringifyOfNormalized(a);
    StableIsStringifyOfNormalized(b);
    if StableStringify(a) == StableStringify(b) {
      StringifyInjective(a, b);
    }
  }
}
