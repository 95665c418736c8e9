/** Reference counters per key, and what they count. */
module Tallies {
  import opened Text

  type Counts = map<Str, nat>

  function Of(c: Counts, key: Str): nat
  {
    if key in c then c[key] else 0
  }

  function Increment(c: Counts, key: Str): Counts
  {
    c[key := Of(c, key) + 1]
  }

  function Decrement(c: Counts, key: Str): Counts
  {
    var current: int := if key in c then c[key] else 1;
    var next := current - 1;
    if next <= 0 then c - {key} else c[key := next]
  }

  function Members<K, V>(m: map<K, V>, f: V -> Str, key: Str): set<K>
  {
    set k | k in m && f(m[k]) == key
  }

  /** The counters hold, for every key, how many live entries carry it, and no
      entry for keys that none carries. */
  ghost predicate Tally<K, V>(c: Counts, m: map<K, V>, f: V -> Str)
  {
    forall key :: Of(c, key) == |Members(m, f, key)| && (key in c <==> |Members(m, f, key)| > 0)
  }

  lemma MembersAdd<K, V>(m: map<K, V>, f: V -> Str, k: K, v: V, key: Str)
    requires k !in m
    ensures |Members(m[k := v], f, key)| == |Members(m, f, key)| + if f(v) == key then 1 else 0
  {
    var before, after := Members(m, f, key), Members(m[k := v], f, key);
    assert after == if f(v) == key then before + {k} else before;
  }

  lemma MembersRemove<K, V>(m: map<K, V>, f: V -> Str, k: K, key: Str)
    requires k in m
    ensures |Members(m - {k}, f, key)| == |Members(m, f, key)| - if f(m[k]) == key then 1 else 0
  {
    var before, after := Members(m, f, key), Members(m - {k}, f, key);
    assert after == before - {k};
    assert k in before <==> f(m[k]) == key;
  }

  lemma TallyAdd<K, V>(c: Counts, m: map<K, V>, f: V -> Str, k: K, v: V)
    requires Tally(c, m, f) && k !in m
    ensures Tally(Increment(c, f(v)), m[k := v], f)
  {
    forall key
      ensures Of(Increment(c, f(v)), key) == |Members(m[k := v], f, key)|
      ensures key in Increment(c, f(v)) <==> |Members(m[k := v], f, key)| > 0
    {
      MembersAdd(m, f, k, v, key);
      assert Of(c, key) == |Members(m, f, key)|;
    }
  }

  lemma TallyRemove<K, V>(c: Counts, m: map<K, V>, f: V -> Str, k: K)
    requires Tally(c, m, f) && k in m
    ensures Tally(Decrement(c, f(m[k])), m - {k}, f)
  {
    forall key
      ensures Of(Decrement(c, f(m[k])), key) == |Members(m - {k}, f, key)|
      ensures key in Decrement(c, f(m[k])) <==> |Members(m - {k}, f, key)| > 0
    {
      MembersRemove(m, f, k, key);
      assert Of(c, key) == |Members(m, f, key)|;
    }
  }

  /** Replacing an entry by one with the same key changes no count. */
  lemma TallyReplace<K, V>(c: Counts, m: map<K, V>, f: V -> Str, k: K, v: V)
    requires Tally(c, m, f) && k in m && f(v) == f(m[k])
    ensures Tally(c, m[k := v], f)
  {
    forall key ensures Members(m[k := v], f, key) == Members(m, f, key) {
    }
  }

  lemma TallyEmpty<K, V>(m: map<K, V>, f: V -> Str)
    requires m == map[]
    ensures Tally(map[], m, f)
  {
    forall key ensures Members(m, f, key) == {} {
    }
  }

  /** A live entry is counted. */
  lemma Counted<K, V>(c: Counts, m: map<K, V>, f: V -> Str, k: K)
    requires Tally(c, m, f) && k in m
    ensures f(m[k]) in c && c[f(m[k])] > 0
  {
    assert k in Members(m, f, f(m[k]));
  }
}
