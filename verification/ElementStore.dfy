/** The last-writer-wins element root of the canonical authority: one envelope
    per (actor, element), tombstones, and the resolution of winners. */
module ElementStore {
  import opened Wrappers
  import opened Text
  import opened Json

  /** What one actor last wrote for one element; `None` is a tombstone. */
  datatype Envelope = Envelope(actorId: Str, elementId: Str, revision: nat, value: Option<CanonicalJson>)

  /** The element root: envelopes under their envelope keys. */
  type Elements = map<Str, Envelope>

  /** `localeCompare` seen through the collation keys it compares. Any strict
      total order on identifiers has this form. */
  type Collation = Str -> real

  ghost predicate TotalOrder(rank: Collation)
  {
    forall a, b {:trigger rank(a), rank(b)} :: rank(a) == rank(b) ==> a == b
  }

  // ----- envelope keys -----

  function Decimal(n: nat): (r: Str)
    ensures |r| > 0 && forall i :: 0 <= i < |r| ==> IsDigit(r[i])
  {
    if n < 10 then [48 + n] else Decimal(n / 10) + [48 + n % 10]
  }

  lemma {:induction false} DecimalInjective(m: nat, n: nat)
    requires Decimal(m) == Decimal(n)
    ensures m == n
  {
    var x, y := Decimal(m), Decimal(n);
    assert x[|x| - 1] == 48 + m % 10 && y[|y| - 1] == 48 + n % 10;
    if m >= 10 && n >= 10 {
      assert x[..|x| - 1] == Decimal(m / 10) && y[..|y| - 1] == Decimal(n / 10);
      DecimalInjective(m / 10, n / 10);
    }
  }

  function EnvelopeKey(actorId: Str, elementId: Str): Str
  {
    Decimal(|actorId|) + [COLON] + actorId + elementId
  }

  /** The digits before the first colon are the only ones. */
  lemma {:induction false} DigitsPrefix(a: Str, b: Str, u: Str, v: Str)
    requires forall i :: 0 <= i < |a| ==> IsDigit(a[i])
    requires forall i :: 0 <= i < |b| ==> IsDigit(b[i])
    requires a + [COLON] + u == b + [COLON] + v
    ensures a == b && u == v
  {
    var x, y := a + [COLON] + u, b + [COLON] + v;
    assert x[0] == y[0];
    if a != [] && b != [] {
      assert x[1..] == a[1..] + [COLON] + u && y[1..] == b[1..] + [COLON] + v;
      DigitsPrefix(a[1..], b[1..], u, v);
      assert a == [a[0]] + a[1..] && b == [b[0]] + b[1..];
    } else {
      assert u == x[1..] && v == y[1..];
    }
  }

  /** Actors and elements never share a key, whatever digits and colons their
      identifiers contain. */
  lemma EnvelopeKeyInjective(a: Str, e: Str, b: Str, f: Str)
    ensures EnvelopeKey(a, e) == EnvelopeKey(b, f) <==> a == b && e == f
  {
    if EnvelopeKey(a, e) == EnvelopeKey(b, f) {
      assert EnvelopeKey(a, e) == Decimal(|a|) + [COLON] + (a + e);
      assert EnvelopeKey(b, f) == Decimal(|b|) + [COLON] + (b + f);
      DigitsPrefix(Decimal(|a|), Decimal(|b|), a + e, b + f);
      DecimalInjective(|a|, |b|);
      assert a == (a + e)[..|a|] && b == (b + f)[..|b|];
      assert e == (a + e)[|a|..] && f == (b + f)[|b|..];
    }
  }

  /** Every envelope is stored under the key of its own actor and element. */
  ghost predicate KeyedByOwner(es: Elements)
  {
    forall k :: k in es ==> k == EnvelopeKey(es[k].actorId, es[k].elementId)
  }

  // ----- winners -----

  predicate Beats(rank: Collation, e: Envelope, f: Envelope)
  {
    e.revision > f.revision || (e.revision == f.revision && rank(e.actorId) > rank(f.actorId))
  }

  /** `e` beats every other envelope of its element. */
  ghost predicate IsWinner(rank: Collation, es: Elements, k: Str)
  {
    k in es && forall j :: j in es && j != k && es[j].elementId == es[k].elementId ==> Beats(rank, es[k], es[j])
  }

  ghost predicate HasWinner(rank: Collation, es: Elements, id: Str)
  {
    exists k :: IsWinner(rank, es, k) && es[k].elementId == id
  }

  /** The resolved value of an element: that of its winning envelope. */
  ghost function Live(rank: Collation, es: Elements, id: Str): Option<CanonicalJson>
  {
    if HasWinner(rank, es, id) then
      var k :| IsWinner(rank, es, k) && es[k].elementId == id;
      es[k].value
    else None
  }

  function Ids(es: Elements): set<Str>
  {
    set k | k in es :: es[k].elementId
  }

  /** The map that `resolveElementMap` returns. */
  ghost function Resolved(rank: Collation, es: Elements): map<Str, CanonicalJson>
  {
    map id | id in Ids(es) && Live(rank, es, id).Some? :: Live(rank, es, id).value
  }

  lemma WinnerIsLive(rank: Collation, es: Elements, k: Str)
    requires IsWinner(rank, es, k)
    ensures Live(rank, es, es[k].elementId) == es[k].value
  {
    var j :| IsWinner(rank, es, j) && es[j].elementId == es[k].elementId;
  }

  /** Every element that has an envelope has a winner. */
  lemma {:induction false} WinnerExists(rank: Collation, es: Elements, id: Str) returns (k: Str)
    requires TotalOrder(rank) && KeyedByOwner(es) && id in Ids(es)
    ensures IsWinner(rank, es, k) && es[k].elementId == id
    decreases |es|
  {
    var j :| j in es && es[j].elementId == id;
    var rest := es - {j};
    assert |rest| < |es| by { assert rest.Keys == es.Keys - {j}; assert |es.Keys - {j}| < |es.Keys|; }
    if id in Ids(rest) {
      var w := WinnerExists(rank, rest, id);
      assert es[j].actorId != es[w].actorId;
      k := if Beats(rank, es[j], es[w]) then j else w;
      forall i | i in es && i != k && es[i].elementId == id
        ensures Beats(rank, es[k], es[i])
      {
        assert i == j || i in rest;
      }
    } else {
      k := j;
      forall i | i in es && i != k ensures es[i].elementId != id {
        assert i in rest && rest[i].elementId in Ids(rest);
      }
    }
  }

  lemma LiveCases(rank: Collation, es: Elements, id: Str)
    requires TotalOrder(rank) && KeyedByOwner(es)
    ensures id in Ids(es) <==> HasWinner(rank, es, id)
    ensures id !in Ids(es) ==> Live(rank, es, id) == None
    ensures id in Resolved(rank, es) <==> Live(rank, es, id).Some?
  {
    if id in Ids(es) {
      var k := WinnerExists(rank, es, id);
    }
  }

  // ----- the loop of resolveElementMap -----

  /** `winners` holds the best of the envelopes met so far, one per element. */
  ghost predicate BestSoFar(rank: Collation, es: Elements, seen: set<Str>, winners: map<Str, Envelope>)
  {
    && seen <= es.Keys
    && (forall id :: id in winners ==> exists k :: k in seen && es[k] == winners[id] && es[k].elementId == id)
    && (forall k :: k in seen ==>
          es[k].elementId in winners
          && (es[k] == winners[es[k].elementId] || Beats(rank, winners[es[k].elementId], es[k])))
  }

  /** The turn of the loop that meets one more envelope. */
  function Consider(rank: Collation, winners: map<Str, Envelope>, e: Envelope): map<Str, Envelope>
  {
    if e.elementId !in winners || Beats(rank, e, winners[e.elementId]) then winners[e.elementId := e] else winners
  }

  lemma ConsiderFindsSource(rank: Collation, es: Elements, seen: set<Str>, winners: map<Str, Envelope>, key: Str, id: Str)
    requires BestSoFar(rank, es, seen, winners) && key in es
    requires id in Consider(rank, winners, es[key])
    ensures exists k :: k in seen + {key} && es[k] == Consider(rank, winners, es[key])[id] && es[k].elementId == id
  {
    if Consider(rank, winners, es[key])[id] == es[key] && es[key].elementId == id {
      assert key in seen + {key};
    } else {
      var k :| k in seen && es[k] == winners[id] && es[k].elementId == id;
      assert k in seen + {key};
    }
  }

  lemma ConsiderKeepsBest(rank: Collation, es: Elements, seen: set<Str>, winners: map<Str, Envelope>, key: Str)
    requires TotalOrder(rank) && KeyedByOwner(es)
    requires BestSoFar(rank, es, seen, winners) && key in es
    ensures BestSoFar(rank, es, seen + {key}, Consider(rank, winners, es[key]))
  {
    var e, after := es[key], Consider(rank, winners, es[key]);
    forall id | id in after
      ensures exists k :: k in seen + {key} && es[k] == after[id] && es[k].elementId == id
    {
      ConsiderFindsSource(rank, es, seen, winners, key, id);
    }
    forall k | k in seen + {key}
      ensures es[k].elementId in after && (es[k] == after[es[k].elementId] || Beats(rank, after[es[k].elementId], es[k]))
    {
      ConsiderDominates(rank, es, seen, winners, key, k);
    }
  }

  lemma ConsiderDominates(rank: Collation, es: Elements, seen: set<Str>, winners: map<Str, Envelope>, key: Str, k: Str)
    requires TotalOrder(rank) && KeyedByOwner(es)
    requires BestSoFar(rank, es, seen, winners) && key in es && k in seen + {key}
    ensures var after := Consider(rank, winners, es[key]);
            es[k].elementId in after && (es[k] == after[es[k].elementId] || Beats(rank, after[es[k].elementId], es[k]))
  {
    var e := es[key];
    if e.elementId in winners {
      var j :| j in seen && es[j] == winners[e.elementId];
      assert e.actorId == es[j].actorId ==> j == key;
    }
  }

  lemma BestIsLive(rank: Collation, es: Elements, winners: map<Str, Envelope>, id: Str)
    requires TotalOrder(rank) && KeyedByOwner(es) && BestSoFar(rank, es, es.Keys, winners)
    ensures id in winners <==> id in Ids(es)
    ensures id in winners ==> Live(rank, es, id) == winners[id].value
  {
    if id in winners {
      var k :| k in es && es[k] == winners[id] && es[k].elementId == id;
      assert IsWinner(rank, es, k);
      WinnerIsLive(rank, es, k);
    }
  }

  lemma BestIsResolved(rank: Collation, es: Elements, winners: map<Str, Envelope>)
    requires TotalOrder(rank) && KeyedByOwner(es) && BestSoFar(rank, es, es.Keys, winners)
    ensures Resolved(rank, es) == map id | id in winners && winners[id].value.Some? :: winners[id].value.value
  {
    forall id
      ensures id in winners <==> id in Ids(es)
      ensures id in winners ==> Live(rank, es, id) == winners[id].value
    {
      BestIsLive(rank, es, winners, id);
    }
  }

  // ----- writing -----

  /** The revision of the next envelope of an element: 1, or one above the
      highest revision any actor has given it. */
  ghost function NextRevision(es: Elements, id: Str): (r: nat)
    ensures r >= 1
    ensures forall k :: k in es && es[k].elementId == id ==> es[k].revision < r
    ensures r == 1 || exists k :: k in es && es[k].elementId == id && es[k].revision + 1 == r
    decreases |es|
  {
    if es == map[] then 1
    else
      var k :| k in es;
      assert |es - {k}| < |es| by { assert (es - {k}).Keys == es.Keys - {k}; }
      var r := NextRevision(es - {k}, id);
      assert forall j :: j in es && j != k ==> j in es - {k} && (es - {k})[j] == es[j];
      if es[k].elementId == id && es[k].revision >= r then es[k].revision + 1 else r
  }

  /** `writeElementEnvelope`. */
  ghost function Write(es: Elements, actorId: Str, id: Str, value: Option<CanonicalJson>): Elements
  {
    es[EnvelopeKey(actorId, id) := Envelope(actorId, id, NextRevision(es, id), value)]
  }

  /** Winners depend only on the envelopes of their own element. */
  lemma LiveFrame(rank: Collation, es: Elements, fs: Elements, id: Str)
    requires TotalOrder(rank) && KeyedByOwner(es) && KeyedByOwner(fs)
    requires forall k :: k in es && es[k].elementId == id ==> k in fs && fs[k] == es[k]
    requires forall k :: k in fs && fs[k].elementId == id ==> k in es && fs[k] == es[k]
    ensures Live(rank, es, id) == Live(rank, fs, id)
  {
    LiveCases(rank, es, id);
    LiveCases(rank, fs, id);
    if id in Ids(es) {
      var k := WinnerExists(rank, es, id);
      WinnerIsLive(rank, es, k);
      assert IsWinner(rank, fs, k);
      WinnerIsLive(rank, fs, k);
    }
  }

  /** The last write of an element wins, and touches no other element. */
  lemma WriteWins(rank: Collation, es: Elements, actorId: Str, id: Str, value: Option<CanonicalJson>, other: Str)
    requires TotalOrder(rank) && KeyedByOwner(es)
    ensures var fs := Write(es, actorId, id, value);
            KeyedByOwner(fs)
            && Live(rank, fs, other) == if other == id then value else Live(rank, es, other)
  {
    var fs, key := Write(es, actorId, id, value), EnvelopeKey(actorId, id);
    if other == id {
      assert IsWinner(rank, fs, key);
      WinnerIsLive(rank, fs, key);
    } else {
      forall k | k in es && es[k].elementId == other ensures k != key {
        EnvelopeKeyInjective(es[k].actorId, other, actorId, id);
      }
      LiveFrame(rank, es, fs, other);
    }
  }

  /** An actor's own envelope only ever moves to higher revisions. */
  lemma WriteRaisesOwnRevision(es: Elements, actorId: Str, id: Str, value: Option<CanonicalJson>)
    requires KeyedByOwner(es)
    ensures var key := EnvelopeKey(actorId, id);
            key in es ==> Write(es, actorId, id, value)[key].revision > es[key].revision
  {
    var key := EnvelopeKey(actorId, id);
    if key in es {
      EnvelopeKeyInjective(es[key].actorId, es[key].elementId, actorId, id);
    }
  }

  /** One pending call of `writeElementEnvelope`. */
  datatype Pending = Pending(id: Str, value: Option<CanonicalJson>)

  ghost function WriteAll(es: Elements, actorId: Str, ws: seq<Pending>): Elements
    decreases |ws|
  {
    if ws == [] then es
    else
      var n := |ws| - 1;
      Write(WriteAll(es, actorId, ws[..n]), actorId, ws[n].id, ws[n].value)
  }

  lemma WriteOneMore(es: Elements, actorId: Str, ws: seq<Pending>, w: Pending)
    ensures WriteAll(es, actorId, ws + [w]) == Write(WriteAll(es, actorId, ws), actorId, w.id, w.value)
  {
    assert (ws + [w])[..|ws|] == ws;
  }

  predicate DistinctIds(ws: seq<Pending>)
  {
    forall i, j :: 0 <= i < j < |ws| ==> ws[i].id != ws[j].id
  }

  lemma LastOrEarlier(ws: seq<Pending>, id: Str)
    requires ws != [] && DistinctIds(ws)
    ensures DistinctIds(ws[..|ws| - 1])
    ensures forall i :: 0 <= i < |ws| && ws[i].id == id ==>
              i == |ws| - 1 || (ws[..|ws| - 1][i].id == id && ws[|ws| - 1].id != id)
  {
  }

  /** After a run of writes to distinct elements, each written element has its
      written value and every other element its old one. */
  lemma {:induction false} WriteAllLaw(rank: Collation, es: Elements, actorId: Str, ws: seq<Pending>, id: Str)
    requires TotalOrder(rank) && KeyedByOwner(es) && DistinctIds(ws)
    ensures var fs := WriteAll(es, actorId, ws);
            KeyedByOwner(fs)
            && (forall i :: 0 <= i < |ws| && ws[i].id == id ==> Live(rank, fs, id) == ws[i].value)
            && ((forall i :: 0 <= i < |ws| ==> ws[i].id != id) ==> Live(rank, fs, id) == Live(rank, es, id))
    decreases |ws|
  {
    if ws != [] {
      var n := |ws| - 1;
      LastOrEarlier(ws, id);
      WriteAllLaw(rank, es, actorId, ws[..n], id);
      WriteWins(rank, WriteAll(es, actorId, ws[..n]), actorId, ws[n].id, ws[n].value, id);
    }
  }
}
