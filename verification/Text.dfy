/** JavaScript strings as sequences of UTF-16 code units, with the order that
    `Array.prototype.sort` uses and stable sorting of keyed entries. */
module Text {

  type Unit = u: int | 0 <= u < 0x1_0000
  type Str = seq<Unit>

  /** Code unit order, the default order of `Array.prototype.sort`. */
  predicate Less(a: Str, b: Str)
  {
    |b| > 0 && (|a| == 0 || a[0] < b[0] || (a[0] == b[0] && Less(a[1..], b[1..])))
  }

  lemma {:induction false} LessTotal(a: Str, b: Str)
    ensures Less(a, b) || Less(b, a) || a == b
    ensures !(Less(a, b) && Less(b, a))
    ensures !Less(a, a)
  {
    if |a| > 0 {
      LessTotal(a[1..], a[1..]);
      if |b| > 0 && a[0] == b[0] {
        LessTotal(a[1..], b[1..]);
        if a[1..] == b[1..] {
          assert a == [a[0]] + a[1..] == b;
        }
      }
    }
  }

  lemma {:induction false} LessTransitive(a: Str, b: Str, c: Str)
    requires Less(a, b) && Less(b, c)
    ensures Less(a, c)
  {
    if |a| > 0 && a[0] == b[0] == c[0] {
      LessTransitive(a[1..], b[1..], c[1..]);
    }
  }

  /** One `key: value` pair of an object or map. */
  datatype Entry<T> = Entry(key: Str, value: T)

  function Keys<T>(es: seq<Entry<T>>): (r: seq<Str>)
    ensures |r| == |es| && forall i :: 0 <= i < |es| ==> r[i] == es[i].key
  {
    seq(|es|, i requires 0 <= i < |es| => es[i].key)
  }

  predicate DistinctKeys<T>(es: seq<Entry<T>>)
  {
    forall i, j :: 0 <= i < j < |es| ==> es[i].key != es[j].key
  }

  predicate SortedKeys<T>(es: seq<Entry<T>>)
  {
    forall i, j :: 0 <= i < j < |es| ==> Less(es[i].key, es[j].key)
  }

  /** The lookup that an object with these entries performs. */
  function AsMap<T>(es: seq<Entry<T>>): map<Str, T>
  {
    if es == [] then map[] else AsMap(es[1..])[es[0].key := es[0].value]
  }

  lemma {:induction false} AsMapLookup<T>(es: seq<Entry<T>>)
    requires DistinctKeys(es)
    ensures forall i :: 0 <= i < |es| ==> es[i].key in AsMap(es) && AsMap(es)[es[i].key] == es[i].value
    ensures forall k :: k in AsMap(es) ==> exists i :: 0 <= i < |es| && es[i].key == k
  {
    if es != [] {
      AsMapLookup(es[1..]);
      forall i | 0 <= i < |es|
        ensures es[i].key in AsMap(es) && AsMap(es)[es[i].key] == es[i].value
      {
        if i > 0 { assert es[1..][i - 1] == es[i]; }
      }
      forall k | k in AsMap(es)
        ensures exists i :: 0 <= i < |es| && es[i].key == k
      {
        if k != es[0].key {
          var j :| 0 <= j < |es[1..]| && es[1..][j].key == k;
          assert es[j + 1].key == k;
        }
      }
    }
  }

  lemma AsMapIndex<T>(es: seq<Entry<T>>, k: Str) returns (i: nat)
    requires DistinctKeys(es) && k in AsMap(es)
    ensures i < |es| && es[i].key == k && AsMap(es)[k] == es[i].value
  {
    AsMapLookup(es);
    i :| 0 <= i < |es| && es[i].key == k;
  }

  lemma {:induction false} AsMapKeys<T>(es: seq<Entry<T>>)
    ensures AsMap(es).Keys == set k | k in Keys(es)
  {
    if es != [] {
      AsMapKeys(es[1..]);
      assert Keys(es) == [es[0].key] + Keys(es[1..]);
    }
  }

  lemma SameMap<T>(a: seq<Entry<T>>, b: seq<Entry<T>>)
    requires DistinctKeys(a) && DistinctKeys(b)
    requires AsMap(a).Keys == AsMap(b).Keys
    requires forall i, j :: 0 <= i < |a| && 0 <= j < |b| && a[i].key == b[j].key ==> a[i].value == b[j].value
    ensures AsMap(a) == AsMap(b)
  {
    forall k | k in AsMap(a) ensures AsMap(a)[k] == AsMap(b)[k] {
      var i := AsMapIndex(a, k);
      var j := AsMapIndex(b, k);
    }
  }

  function Insert<T>(e: Entry<T>, es: seq<Entry<T>>): (r: seq<Entry<T>>)
    ensures |r| == |es| + 1
  {
    if es == [] || Less(e.key, es[0].key) then [e] + es else [es[0]] + Insert(e, es[1..])
  }

  function SortByKey<T>(es: seq<Entry<T>>): (r: seq<Entry<T>>)
    ensures |r| == |es|
  {
    if es == [] then [] else Insert(es[0], SortByKey(es[1..]))
  }

  lemma {:induction false} InsertMembers<T>(e: Entry<T>, es: seq<Entry<T>>)
    ensures forall i :: 0 <= i < |es| + 1 ==> Insert(e, es)[i] == e || Insert(e, es)[i] in es
  {
    if es != [] && !Less(e.key, es[0].key) {
      InsertMembers(e, es[1..]);
      assert Insert(e, es) == [es[0]] + Insert(e, es[1..]);
    }
  }

  lemma {:induction false} InsertKeepsMap<T>(e: Entry<T>, es: seq<Entry<T>>)
    requires forall i :: 0 <= i < |es| ==> es[i].key != e.key
    ensures AsMap(Insert(e, es)) == AsMap(es)[e.key := e.value]
  {
    if es == [] || Less(e.key, es[0].key) {
      assert ([e] + es)[1..] == es;
    } else {
      InsertKeepsMap(e, es[1..]);
      assert Insert(e, es)[1..] == Insert(e, es[1..]);
    }
  }

  lemma {:induction false} InsertSorted<T>(e: Entry<T>, es: seq<Entry<T>>)
    requires SortedKeys(es)
    requires forall i :: 0 <= i < |es| ==> es[i].key != e.key
    ensures SortedKeys(Insert(e, es))
    ensures AsMap(Insert(e, es)) == AsMap(es)[e.key := e.value]
  {
    InsertKeepsMap(e, es);
    hide AsMap;
    if es == [] || Less(e.key, es[0].key) {
      forall j | 0 < j < |es| ensures Less(e.key, es[j].key) {
        LessTransitive(e.key, es[0].key, es[j].key);
      }
      assert ([e] + es)[1..] == es;
    } else {
      LessTotal(e.key, es[0].key);
      InsertSorted(e, es[1..]);
      InsertMembers(e, es[1..]);
      var r := Insert(e, es[1..]);
      assert Insert(e, es)[1..] == r;
      forall j | 0 <= j < |r| ensures Less(es[0].key, r[j].key) {
        assert r[j] == e || r[j] in es[1..];
      }
    }
  }

  lemma {:induction false} SortByKeySorts<T>(es: seq<Entry<T>>)
    requires DistinctKeys(es)
    ensures SortedKeys(SortByKey(es))
    ensures AsMap(SortByKey(es)) == AsMap(es)
    ensures forall i :: 0 <= i < |es| ==> SortByKey(es)[i] in es
  {
    if es != [] {
      SortByKeySorts(es[1..]);
      var r := SortByKey(es[1..]);
      forall i | 0 <= i < |r| ensures r[i].key != es[0].key {
        var j :| 0 <= j < |es[1..]| && es[1..][j] == r[i];
        assert es[j + 1] == r[i];
      }
      InsertSorted(es[0], r);
      InsertMembers(es[0], r);
      forall i | 0 <= i < |es| ensures SortByKey(es)[i] in es {
        assert SortByKey(es)[i] == es[0] || SortByKey(es)[i] in r;
      }
    }
  }

  lemma SortedIsDistinct<T>(es: seq<Entry<T>>)
    requires SortedKeys(es)
    ensures DistinctKeys(es)
  {
    forall i, j | 0 <= i < j < |es| ensures es[i].key != es[j].key {
      LessTotal(es[i].key, es[j].key);
    }
  }

  lemma SortedHeadIsLeast<T>(a: seq<Entry<T>>, k: Str)
    requires SortedKeys(a) && k in AsMap(a)
    ensures a != [] && !Less(k, a[0].key)
  {
    SortedIsDistinct(a);
    AsMapLookup(a);
    var i :| 0 <= i < |a| && a[i].key == k;
    LessTotal(k, a[0].key);
    assert i > 0 ==> Less(a[0].key, a[i].key);
  }

  lemma HeadKeyIsFresh<T>(a: seq<Entry<T>>)
    requires SortedKeys(a) && a != []
    ensures a[0].key !in AsMap(a[1..])
  {
    if a[0].key in AsMap(a[1..]) {
      SortedHeadIsLeast(a[1..], a[0].key);
    }
  }

  lemma AsMapTail<T>(a: seq<Entry<T>>)
    requires SortedKeys(a) && a != []
    ensures AsMap(a[1..]) == AsMap(a) - {a[0].key}
  {
    HeadKeyIsFresh(a);
    var m, k := AsMap(a[1..]), a[0].key;
    assert AsMap(a) == m[k := a[0].value];
    assert m[k := a[0].value] - {k} == m;
  }

  lemma EmptyMap<T>(a: seq<Entry<T>>)
    ensures a == [] <==> AsMap(a) == map[]
  {
    assert a != [] ==> a[0].key in AsMap(a);
  }

  /** A map has only one key-sorted list of entries. */
  lemma {:induction false} SortedUnique<T>(a: seq<Entry<T>>, b: seq<Entry<T>>)
    requires SortedKeys(a) && SortedKeys(b)
    requires AsMap(a) == AsMap(b)
    ensures a == b
  {
    EmptyMap(a);
    EmptyMap(b);
    if a != [] && b != [] {
      assert a[0].key in AsMap(a) && b[0].key in AsMap(b);
      SortedHeadIsLeast(a, b[0].key);
      SortedHeadIsLeast(b, a[0].key);
      LessTotal(a[0].key, b[0].key);
      assert AsMap(a)[a[0].key] == a[0].value && AsMap(b)[b[0].key] == b[0].value;
      AsMapTail(a);
      AsMapTail(b);
      SortedUnique(a[1..], b[1..]);
      assert a == [a[0]] + a[1..] && b == [b[0]] + b[1..];
    }
  }

  predicate IsLeast(s: set<Str>, m: Str)
  {
    m in s && forall x :: x in s && x != m ==> Less(m, x)
  }

  lemma {:induction false} LeastExists(s: set<Str>)
    requires s != {}
    ensures exists m :: IsLeast(s, m)
    decreases |s|
  {
    var y :| y in s;
    var rest := s - {y};
    assert s == rest + {y};
    if rest == {} {
      assert IsLeast(s, y);
    } else {
      assert |rest| < |s|;
      LeastExists(rest);
      var l :| IsLeast(rest, l);
      LessTotal(l, y);
      var m := if Less(y, l) then y else l;
      forall x | x in s && x != m ensures Less(m, x) {
        if m == y && x != l { LessTransitive(y, l, x); }
      }
      assert IsLeast(s, m);
    }
  }

  lemma LeastUnique(s: set<Str>)
    ensures forall m, n :: IsLeast(s, m) && IsLeast(s, n) ==> m == n
  {
    forall m, n | IsLeast(s, m) && IsLeast(s, n) ensures m == n {
      LessTotal(m, n);
    }
  }

  /** The members of a set in sorted order, as `[...set].sort()` lists them. */
  function SortedSet(s: set<Str>): (r: seq<Str>)
    ensures forall x :: x in r <==> x in s
    ensures forall i, j :: 0 <= i < j < |r| ==> Less(r[i], r[j])
    decreases |s|
  {
    if s == {} then []
    else
      LeastExists(s);
      LeastUnique(s);
      var m :| m in s && IsLeast(s, m);
      assert |s - {m}| < |s|;
      [m] + SortedSet(s - {m})
  }
}
