/** JSON values as JavaScript objects hold them, without a key order: their text,
    and the length of their text in bytes. */
module JsonValues {
  import opened Text
  import opened Json
  import opened CanonicalScene

  // ----- a text for every value -----

  /** A representation of the value, with sorted keys. */
  function Represent(v: Value): Json
    decreases v
  {
    match v
    case VNull => Null
    case VBool(b) => Bool(b)
    case VNum(text) => Num(text)
    case VStr(s) => Json.Str(s)
    case VArr(items) => Arr(seq(|items|, i requires 0 <= i < |items| => Represent(items[i])))
    case VObj(fields) =>
      var ids := SortedSet(fields.Keys);
      Obj(seq(|ids|, i requires 0 <= i < |ids| => assert ids[i] in fields; Entry(ids[i], Represent(fields[ids[i]]))))
  }

  lemma {:induction false} RepresentDenotes(v: Value)
    ensures WellFormed(Represent(v)) && Denote(Represent(v)) == v
    decreases v
  {
    match v
    case VArr(items) =>
      forall i | 0 <= i < |items| ensures WellFormed(Represent(items[i])) && Denote(Represent(items[i])) == items[i] {
        RepresentDenotes(items[i]);
      }
      assert DenoteItems(Represent(v).items) == items;
    case VObj(fields) =>
      var ids := SortedSet(fields.Keys);
      var es := Represent(v).fields;
      forall i | 0 <= i < |es| ensures WellFormed(es[i].value) && Denote(es[i].value) == fields[ids[i]] {
        RepresentDenotes(fields[ids[i]]);
      }
      ObjectMap(fields, ids, es);
    case _ =>
  }

  lemma ObjectMap(fields: map<Str, Value>, ids: seq<Str>, es: seq<Entry<Json>>)
    requires ids == SortedSet(fields.Keys) && |es| == |ids|
    requires forall i :: 0 <= i < |es| ==> es[i].key == ids[i] && Denote(es[i].value) == fields[ids[i]]
    ensures DistinctKeys(es) && AsMap(DenoteEntries(es)) == fields
  {
    hide AsMap, SortedSet, Denote, DenoteEntries;
    forall i, j | 0 <= i < j < |es| ensures es[i].key != es[j].key {
      LessTotal(ids[i], ids[j]);
    }
    MapOf(fields, ids, DenoteEntries(es));
  }

  /** A list that gives every key of a map once, with its value, is the map. */
  lemma MapOf(fields: map<Str, Value>, ids: seq<Str>, ds: seq<Entry<Value>>)
    requires |ds| == |ids| && DistinctKeys(ds) && forall x :: x in ids <==> x in fields
    requires forall i :: 0 <= i < |ds| ==> ds[i].key == ids[i] && ids[i] in fields && ds[i].value == fields[ids[i]]
    ensures AsMap(ds) == fields
  {
    hide AsMap;
    AsMapLookup(ds);
    forall k | k in AsMap(ds) ensures k in fields && AsMap(ds)[k] == fields[k] {
      var i := AsMapIndex(ds, k);
    }
    forall k | k in fields ensures k in AsMap(ds) {
      var i :| 0 <= i < |ids| && ids[i] == k;
      assert ds[i].key == k;
    }
  }

  /** `stableStringify` of a value. */
  function StableText(v: Value): seq<Unit>
  {
    StableStringify(Represent(v))
  }

  /** Any object that holds the value has its stable text. */
  lemma StableTextOf(j: Json)
    requires WellFormed(j)
    ensures StableText(Denote(j)) == StableStringify(j)
  {
    RepresentDenotes(Denote(j));
    StableTextIffSameValue(Represent(Denote(j)), j);
  }

  // ----- the length of a text does not depend on the key order -----

  lemma {:induction false} LengthOfConcat(a: seq<Unit>, b: seq<Unit>)
    requires b != [] ==> !IsLow(b[0])
    ensures Utf8Length(a + b) == Utf8Length(a) + Utf8Length(b)
    decreases |a|
  {
    if a == [] {
      assert a + b == b;
    } else if StartsWithPair(a + b) {
      assert StartsWithPair(a);
      assert (a + b)[2..] == a[2..] + b;
      LengthOfConcat(a[2..], b);
    } else {
      assert (a + b)[1..] == a[1..] + b;
      LengthOfConcat(a[1..], b);
      assert !StartsWithPair(a);
    }
  }

  /** Three pieces that meet at units below the surrogates. */
  lemma LengthOfThree(a: seq<Unit>, b: seq<Unit>, c: seq<Unit>)
    requires b != [] && !IsLow(b[0]) && (c != [] ==> !IsLow(c[0]))
    ensures Utf8Length(a + b + c) == Utf8Length(a) + Utf8Length(b) + Utf8Length(c)
  {
    LengthOfConcat(a, b);
    LengthOfConcat(a + b, c);
  }

  lemma OneByte(u: Unit)
    requires u < 0x80
    ensures Utf8Length([u]) == 1
  {
  }

  function QuotedBytes(key: Str): nat
  {
    Utf8Length(Quote(key))
  }

  /** The sum over the properties of an object of their text, each with a comma. */
  function PropertyBytes(es: seq<Entry<seq<Unit>>>): nat
  {
    if es == [] then 0 else QuotedBytes(es[0].key) + 2 + Utf8Length(es[0].value) + PropertyBytes(es[1..])
  }

  predicate PlainStart(s: seq<Unit>)
  {
    s != [] && !IsLow(s[0])
  }

  predicate PlainStarts(es: seq<Entry<seq<Unit>>>)
  {
    forall i :: 0 <= i < |es| ==> PlainStart(es[i].value)
  }

  lemma StringifyStartsPlain(v: Json)
    ensures PlainStart(Stringify(v))
  {
  }

  lemma PropertyLength(e: Entry<seq<Unit>>)
    requires PlainStart(e.value)
    ensures var p := Quote(e.key) + [COLON] + e.value;
            PlainStart(p) && Utf8Length(p) == QuotedBytes(e.key) + 1 + Utf8Length(e.value)
  {
    LengthOfThree(Quote(e.key), [COLON], e.value);
    OneByte(COLON);
  }

  lemma {:induction false} JoinLength(es: seq<Entry<seq<Unit>>>)
    requires PlainStarts(es)
    ensures Utf8Length(Join(Properties(es))) == if es == [] then 0 else PropertyBytes(es) - 1
    ensures es != [] ==> PlainStart(Join(Properties(es)))
  {
    var ps := Properties(es);
    if es != [] {
      PropertyLength(es[0]);
      assert ps[1..] == Properties(es[1..]);
      JoinLength(es[1..]);
      if |es| > 1 {
        LengthOfThree(ps[0], [COMMA], Join(ps[1..]));
        OneByte(COMMA);
      }
    }
  }

  lemma {:induction false} InsertBytes(e: Entry<seq<Unit>>, es: seq<Entry<seq<Unit>>>)
    ensures PropertyBytes(Insert(e, es)) == PropertyBytes([e]) + PropertyBytes(es)
  {
    assert [e][1..] == [];
    if es == [] || Less(e.key, es[0].key) {
      assert ([e] + es)[1..] == es;
    } else {
      InsertBytes(e, es[1..]);
      assert Insert(e, es)[1..] == Insert(e, es[1..]);
    }
  }

  /** Sorting the properties moves bytes, but neither adds nor drops any. */
  lemma {:induction false} SortBytes(es: seq<Entry<seq<Unit>>>)
    ensures PropertyBytes(SortByKey(es)) == PropertyBytes(es)
  {
    if es != [] {
      SortBytes(es[1..]);
      InsertBytes(es[0], SortByKey(es[1..]));
      assert [es[0]][1..] == [];
    }
  }

  lemma {:induction false} SameLengths(es: seq<Entry<seq<Unit>>>, fs: seq<Entry<seq<Unit>>>)
    requires |es| == |fs|
    requires forall i :: 0 <= i < |es| ==> es[i].key == fs[i].key && Utf8Length(es[i].value) == Utf8Length(fs[i].value)
    ensures PropertyBytes(es) == PropertyBytes(fs)
  {
    if es != [] {
      SameLengths(es[1..], fs[1..]);
    }
  }

  /** The sum over the items of an array of their text, each with a comma. */
  function ItemBytes(ts: seq<seq<Unit>>): nat
  {
    if ts == [] then 0 else 1 + Utf8Length(ts[0]) + ItemBytes(ts[1..])
  }

  lemma {:induction false} ItemsLength(ts: seq<seq<Unit>>)
    requires forall i :: 0 <= i < |ts| ==> PlainStart(ts[i])
    ensures Utf8Length(Join(ts)) == if ts == [] then 0 else ItemBytes(ts) - 1
    ensures ts != [] ==> PlainStart(Join(ts))
  {
    if ts != [] {
      ItemsLength(ts[1..]);
      if |ts| > 1 {
        LengthOfThree(ts[0], [COMMA], Join(ts[1..]));
        OneByte(COMMA);
      }
    }
  }

  lemma {:induction false} SameItemLengths(ts: seq<seq<Unit>>, us: seq<seq<Unit>>)
    requires |ts| == |us| && forall i :: 0 <= i < |ts| ==> Utf8Length(ts[i]) == Utf8Length(us[i])
    ensures ItemBytes(ts) == ItemBytes(us)
  {
    if ts != [] {
      SameItemLengths(ts[1..], us[1..]);
    }
  }

  lemma BracketedLength(open: Unit, body: seq<Unit>, close: Unit)
    requires open < 0x80 && close < 0x80 && (body != [] ==> PlainStart(body))
    ensures Utf8Length([open] + body + [close]) == Utf8Length(body) + 2
  {
    OneByte(open);
    OneByte(close);
    LengthOfConcat([open], body);
    LengthOfConcat([open] + body, [close]);
  }

  function ObjectBytes(es: seq<Entry<seq<Unit>>>): nat
  {
    if es == [] then 2 else 1 + PropertyBytes(es)
  }

  lemma ObjectLength(es: seq<Entry<seq<Unit>>>)
    requires PlainStarts(es)
    ensures Utf8Length([OPEN_BRACE] + Join(Properties(es)) + [CLOSE_BRACE]) == ObjectBytes(es)
  {
    JoinLength(es);
    BracketedLength(OPEN_BRACE, Join(Properties(es)), CLOSE_BRACE);
  }

  lemma ArrayLength(ts: seq<seq<Unit>>)
    requires forall i :: 0 <= i < |ts| ==> PlainStart(ts[i])
    ensures Utf8Length([OPEN_BRACKET] + Join(ts) + [CLOSE_BRACKET]) == if ts == [] then 2 else 1 + ItemBytes(ts)
  {
    ItemsLength(ts);
    BracketedLength(OPEN_BRACKET, Join(ts), CLOSE_BRACKET);
  }

  lemma RenderedPlain(es: seq<Entry<Json>>)
    ensures PlainStarts(StringifyEntries(es))
  {
    forall i | 0 <= i < |es| ensures PlainStart(StringifyEntries(es)[i].value) {
      StringifyStartsPlain(es[i].value);
    }
  }

  lemma ItemsPlain(items: seq<Json>)
    ensures forall i :: 0 <= i < |items| ==> PlainStart(StringifyItems(items)[i])
  {
    forall i | 0 <= i < |items| ensures PlainStart(StringifyItems(items)[i]) {
      StringifyStartsPlain(items[i]);
    }
  }

  lemma SortedObjectLength(fields: seq<Entry<Json>>)
    requires forall i :: 0 <= i < |fields| ==>
      Utf8Length(Stringify(Normalize(fields[i].value))) == Utf8Length(Stringify(fields[i].value))
    ensures Utf8Length(Stringify(Normalize(Obj(fields)))) == Utf8Length(Stringify(Obj(fields)))
  {
    var n := NormalizeEntries(fields);
    hide Stringify, Normalize, PlainStart;
    RenderedPlain(fields);
    RenderedPlain(SortByKey(n));
    StringifySort(n);
    SortBytes(StringifyEntries(n));
    SameLengths(StringifyEntries(n), StringifyEntries(fields));
    ObjectLength(StringifyEntries(fields));
    ObjectLength(StringifyEntries(SortByKey(n)));
    SortedCount(n);
    ObjectText(fields);
    ObjectText(SortByKey(n));
    NormalizedObject(fields);
  }

  lemma ObjectText(fields: seq<Entry<Json>>)
    ensures Stringify(Obj(fields)) == [OPEN_BRACE] + Join(Properties(StringifyEntries(fields))) + [CLOSE_BRACE]
  {
  }

  lemma NormalizedObject(fields: seq<Entry<Json>>)
    ensures Normalize(Obj(fields)) == Obj(SortByKey(NormalizeEntries(fields)))
  {
  }

  lemma {:induction false} SortedCount(es: seq<Entry<Json>>)
    ensures |SortByKey(es)| == |es|
  {
    if es != [] {
      SortedCount(es[1..]);
    }
  }

  /** Sorting the keys of every object changes no length. */
  lemma {:induction false} LengthOfNormalized(v: Json)
    ensures Utf8Length(Stringify(Normalize(v))) == Utf8Length(Stringify(v))
    decreases v
  {
    match v
    case Arr(items) =>
      forall i | 0 <= i < |items|
        ensures Utf8Length(StringifyItems(NormalizeItems(items))[i]) == Utf8Length(StringifyItems(items)[i])
      {
        LengthOfNormalized(items[i]);
      }
      ItemsPlain(items);
      ItemsPlain(NormalizeItems(items));
      SameItemLengths(StringifyItems(NormalizeItems(items)), StringifyItems(items));
      ArrayLength(StringifyItems(items));
      ArrayLength(StringifyItems(NormalizeItems(items)));
    case Obj(fields) =>
      forall i | 0 <= i < |fields|
        ensures Utf8Length(Stringify(Normalize(fields[i].value))) == Utf8Length(Stringify(fields[i].value))
      {
        LengthOfNormalized(fields[i].value);
      }
      SortedObjectLength(fields);
    case _ =>
  }

  /** The JSON text of a value has one length in bytes, whatever its key order. */
  lemma LengthIgnoresKeyOrder(a: Json, b: Json)
    requires WellFormed(a) && WellFormed(b) && Denote(a) == Denote(b)
    ensures Utf8Length(Stringify(a)) == Utf8Length(Stringify(b))
  {
    LengthOfNormalized(a);
    LengthOfNormalized(b);
    MeaningDeterminesNormalForm(a, b);
  }
}
