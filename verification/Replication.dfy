/** Convergence of replicas of the element root. Each session of an actor has a
    replica. Yjs orders all writes of a key: a write comes after those that its
    session knew, and concurrent writes are ordered somehow; the last one known is
    the value of the key. While every write knows the last write of its key, as it
    does if every actor has one session, that order is the order of revisions. */
module Replication {
  import opened Wrappers
  import opened Text
  import opened Json
  import opened ElementStore
  import opened CanonicalScene

  /** Two roots merged key by key in favour of the higher revision. */
  function Merge(a: Elements, b: Elements): Elements
  {
    map k | k in a.Keys + b.Keys :: if k in a && (k !in b || a[k].revision >= b[k].revision) then a[k] else b[k]
  }

  /** The roots never hold two different envelopes of one key and revision. */
  ghost predicate Consistent(a: Elements, b: Elements)
  {
    forall k :: k in a && k in b && a[k].revision == b[k].revision ==> a[k] == b[k]
  }

  /** Merging is a join: the order and number of merges do not matter. */
  lemma MergeCommutes(a: Elements, b: Elements)
    requires Consistent(a, b)
    ensures Merge(a, b) == Merge(b, a)
    ensures Merge(a, a) == a
  {
  }

  lemma MergeAssociates(a: Elements, b: Elements, c: Elements)
    ensures Merge(Merge(a, b), c) == Merge(a, Merge(b, c))
  {
    var l, r := Merge(Merge(a, b), c), Merge(a, Merge(b, c));
    assert l.Keys == r.Keys;
    forall k | k in l ensures l[k] == r[k] {
    }
  }

  /** The winner of one side that beats the other side's winner survives. */
  lemma WinnerSurvives(rank: Collation, a: Elements, b: Elements, j: Str, k: Str)
    requires TotalOrder(rank) && KeyedByOwner(a) && KeyedByOwner(b) && Consistent(a, b)
    requires IsWinner(rank, a, j) && IsWinner(rank, b, k) && a[j].elementId == b[k].elementId
    requires a[j] == b[k] || Beats(rank, a[j], b[k])
    ensures IsWinner(rank, Merge(a, b), j) && Merge(a, b)[j] == a[j]
  {
    var m := Merge(a, b);
    if j in b {
      EnvelopeKeyInjective(a[j].actorId, a[j].elementId, b[j].actorId, b[j].elementId);
      assert j == k || Beats(rank, b[k], b[j]);
    }
    assert m[j] == a[j];
    forall i | i in m && i != j && m[i].elementId == m[j].elementId
      ensures Beats(rank, m[j], m[i])
    {
      if i in a && m[i] == a[i] {
        assert Beats(rank, a[j], a[i]);
      } else {
        assert i in b && (i == k || Beats(rank, b[k], b[i]));
        assert a[j] == b[k] ==> j == k;
      }
    }
  }

  /** Merging roots resolves each element to the better of the two winners. */
  lemma MergeResolves(rank: Collation, a: Elements, b: Elements, j: Str, k: Str)
    requires TotalOrder(rank) && KeyedByOwner(a) && KeyedByOwner(b) && Consistent(a, b)
    requires IsWinner(rank, a, j) && IsWinner(rank, b, k) && a[j].elementId == b[k].elementId
    ensures Live(rank, Merge(a, b), a[j].elementId) == if Beats(rank, b[k], a[j]) then b[k].value else a[j].value
  {
    MergeCommutes(a, b);
    if Beats(rank, b[k], a[j]) {
      WinnerSurvives(rank, b, a, k, j);
      WinnerIsLive(rank, Merge(b, a), k);
    } else {
      assert j == k || a[j].actorId != b[k].actorId;
      WinnerSurvives(rank, a, b, j, k);
      WinnerIsLive(rank, Merge(a, b), j);
    }
  }

  // ----- runs of sessions -----

  type Session = nat

  /** One write of a key: its place in the order of all writes of that key, and what
      was written. */
  datatype Stamped = Stamped(place: real, envelope: Envelope)

  type Root = map<Str, Stamped>

  /** The root of a session and all writes that have reached it; also what an update
      carries. */
  datatype Replica = Replica(root: Root, known: set<(Str, Stamped)>)

  /** The sessions with their actors and replicas, the updates that were ever sent, and
      every write that was ever made. */
  datatype System = System(
    actors: map<Session, Str>,
    replicas: map<Session, Replica>,
    sent: set<Replica>,
    written: set<(Str, Stamped)>)

  datatype Step =
    | LocalWrite(session: Session, elementId: Str, value: Option<CanonicalJson>, place: real)
    | Send(from: Session, update: Replica)
    | Receive(to: Session, update: Replica)

  /** The envelopes of a root. */
  function View(r: Replica): Elements
  {
    map k | k in r.root :: r.root[k].envelope
  }

  /** The root holds, for every key, the last of the writes it knows. */
  ghost predicate Latest(r: Replica)
  {
    && (forall k :: k in r.root ==> (k, r.root[k]) in r.known)
    && (forall p :: p in r.known ==> p.0 in r.root && r.root[p.0].place >= p.1.place)
  }

  function MergeRoots(a: Root, b: Root): Root
  {
    map k | k in a.Keys + b.Keys :: if k in a && (k !in b || a[k].place >= b[k].place) then a[k] else b[k]
  }

  function Joined(r: Replica, update: Replica): Replica
  {
    Replica(MergeRoots(r.root, update.root), r.known + update.known)
  }

  /** What a session with this view writes: revisions count from what it sees. */
  ghost function NewWrite(view: Elements, actorId: Str, elementId: Str, value: Option<CanonicalJson>, place: real): (Str, Stamped)
  {
    var key := EnvelopeKey(actorId, elementId);
    (key, Stamped(place, Write(view, actorId, elementId, value)[key]))
  }

  function Extended(r: Replica, w: (Str, Stamped)): Replica
  {
    Replica(r.root[w.0 := w.1], r.known + {w})
  }

  /** The place is free, and after everything that the session knows of the key. */
  ghost predicate Placed(s: System, r: Replica, key: Str, place: real)
  {
    && (forall p :: p in s.written && p.0 == key ==> p.1.place != place)
    && (forall p :: p in r.known && p.0 == key ==> p.1.place < place)
  }

  /** Writes are stored under their own key. */
  ghost predicate Keyed(s: System)
  {
    forall p :: p in s.written ==> p.0 == EnvelopeKey(p.1.envelope.actorId, p.1.envelope.elementId)
  }

  /** What an operation of the authority may write: a tombstone or a valid element. */
  predicate Writable(elementId: Str, value: Option<CanonicalJson>)
  {
    IsIdentifier(elementId) && (value.Some? ==> ElementError(Element(elementId, value.value)).None?)
  }

  /** All sessions start from the same stored root, one write for each of its keys. */
  ghost predicate Init(s: System)
  {
    && s.replicas.Keys == s.actors.Keys && s.sent == {}
    && (forall p, q :: p in s.written && q in s.written && p.0 == q.0 ==> p == q)
    && Keyed(s)
    && (forall a :: a in s.replicas ==> s.replicas[a].known == s.written && Latest(s.replicas[a]))
  }

  /** A session may send all it knows or any part of it; an update that was sent may
      arrive at any session, at any later time, any number of times, or never. */
  ghost predicate Next(s: System, step: Step, t: System)
  {
    match step
    case LocalWrite(x, elementId, value, place) =>
      && x in s.replicas && x in s.actors && Writable(elementId, value)
      && var w := NewWrite(View(s.replicas[x]), s.actors[x], elementId, value, place);
         && Placed(s, s.replicas[x], w.0, place)
         && t == s.(replicas := s.replicas[x := Extended(s.replicas[x], w)], written := s.written + {w})
    case Send(from, update) =>
      && from in s.replicas && update.known <= s.replicas[from].known && Latest(update)
      && t == s.(sent := s.sent + {update})
    case Receive(to, update) =>
      && to in s.replicas && update in s.sent
      && t == s.(replicas := s.replicas[to := Joined(s.replicas[to], update)])
  }

  ghost predicate Run(states: seq<System>, steps: seq<Step>)
  {
    && |states| == |steps| + 1
    && Init(states[0])
    && forall i :: 0 <= i < |steps| ==> Next(states[i], steps[i], states[i + 1])
  }

  // ----- any number of sessions of an actor -----

  /** No two writes of a key share a place. */
  ghost predicate Ordered(s: System)
  {
    forall p, q :: p in s.written && q in s.written && p.0 == q.0 && p.1.place == q.1.place ==> p == q
  }

  ghost predicate Sound(s: System, r: Replica)
  {
    Latest(r) && r.known <= s.written
  }

  ghost predicate Inv(s: System)
  {
    && s.replicas.Keys == s.actors.Keys
    && (forall a :: a in s.replicas ==> Sound(s, s.replicas[a]))
    && (forall u :: u in s.sent ==> Sound(s, u))
    && Ordered(s) && Keyed(s)
  }

  lemma JoinedLatest(r: Replica, update: Replica)
    requires Latest(r) && Latest(update)
    ensures Latest(Joined(r, update))
  {
    var m := MergeRoots(r.root, update.root);
    forall k | k in m ensures (k, m[k]) in r.known + update.known {
    }
    forall p | p in r.known + update.known ensures p.0 in m && m[p.0].place >= p.1.place {
    }
  }

  lemma ExtendedLatest(s: System, r: Replica, w: (Str, Stamped))
    requires Latest(r) && Placed(s, r, w.0, w.1.place)
    ensures Latest(Extended(r, w)) && Extended(r, w).known == r.known + {w}
  {
  }

  lemma OwnKey(view: Elements, actorId: Str, elementId: Str, value: Option<CanonicalJson>, place: real)
    ensures var w := NewWrite(view, actorId, elementId, value, place);
            w.1.envelope.actorId == actorId && w.1.envelope.elementId == elementId && w.1.envelope.value == value
            && w.0 == EnvelopeKey(actorId, elementId) && w.1.place == place
  {
  }

  lemma NextInv(s: System, step: Step, t: System)
    requires Inv(s) && Next(s, step, t)
    ensures Inv(t)
  {
    hide Latest, MergeRoots, NewWrite, Extended, EnvelopeKey, Writable;
    match step
    case LocalWrite(x, elementId, value, place) =>
      assert Sound(s, s.replicas[x]);
      var w := NewWrite(View(s.replicas[x]), s.actors[x], elementId, value, place);
      OwnKey(View(s.replicas[x]), s.actors[x], elementId, value, place);
      ExtendedLatest(s, s.replicas[x], w);
    case Send(from, update) => assert Sound(s, s.replicas[from]);
    case Receive(to, update) =>
      assert Sound(s, s.replicas[to]) && Sound(s, update);
      JoinedLatest(s.replicas[to], update);
  }

  lemma {:induction false} RunInv(states: seq<System>, steps: seq<Step>, i: nat)
    requires Run(states, steps) && i < |states|
    ensures Inv(states[i])
  {
    if i > 0 {
      RunInv(states, steps, i - 1);
      NextInv(states[i - 1], steps[i - 1], states[i]);
    }
  }

  /** Strong convergence: at any moments of any run, two sessions that have received the
      same writes hold the same root, whatever updates brought them the writes, in
      whatever order, and however often; also if sessions of one actor wrote the same
      keys at the same time. */
  lemma Convergence(states: seq<System>, steps: seq<Step>, i: nat, j: nat, a: Session, b: Session)
    requires Run(states, steps) && i <= j < |states|
    requires a in states[i].replicas && b in states[j].replicas
    requires states[i].replicas[a].known == states[j].replicas[b].known
    ensures states[i].replicas[a] == states[j].replicas[b]
  {
    RunInv(states, steps, i);
    RunInv(states, steps, j);
    hide Run, Latest;
    assert Sound(states[i], states[i].replicas[a]);
    assert Sound(states[j], states[j].replicas[b]);
    SameRoot(states[j], states[i].replicas[a], states[j].replicas[b]);
  }

  lemma SameRoot(s: System, r: Replica, q: Replica)
    requires Ordered(s) && Sound(s, r) && Sound(s, q) && r.known == q.known
    ensures r == q
  {
    assert r.root.Keys == q.root.Keys;
    forall k | k in r.root ensures r.root[k] == q.root[k] {
      assert (k, r.root[k]) in s.written && (k, q.root[k]) in s.written;
    }
  }

  /** An update whose writes have all arrived changes nothing. */
  lemma DeliveredOnce(states: seq<System>, steps: seq<Step>, i: nat, to: Session, update: Replica)
    requires Run(states, steps) && i < |states|
    requires to in states[i].replicas && update in states[i].sent && update.known <= states[i].replicas[to].known
    ensures Joined(states[i].replicas[to], update) == states[i].replicas[to]
  {
    RunInv(states, steps, i);
    var r := states[i].replicas[to];
    assert Sound(states[i], r) && Sound(states[i], update);
    JoinAbsorbs(r, update);
  }

  lemma JoinAbsorbs(r: Replica, update: Replica)
    requires Latest(r) && Latest(update) && update.known <= r.known
    ensures Joined(r, update) == r
  {
    var m := MergeRoots(r.root, update.root);
    forall k | k in m ensures k in r.root && m[k] == r.root[k] {
      if k in update.root { assert (k, update.root[k]) in r.known; }
    }
    assert m == r.root;
  }

  // ----- writes that know the last one -----

  /** The root of the session holds the last write of the key that it would write. */
  ghost predicate Abreast(s: System, x: Session, elementId: Str)
    requires x in s.replicas && x in s.actors
  {
    var key, r := EnvelopeKey(s.actors[x], elementId), s.replicas[x];
    forall p :: p in s.written && p.0 == key ==> key in r.root && p.1.place <= r.root[key].place
  }

  ghost predicate AbreastStep(s: System, step: Step)
  {
    step.LocalWrite? && step.session in s.replicas && step.session in s.actors ==> Abreast(s, step.session, step.elementId)
  }

  ghost predicate AbreastRun(states: seq<System>, steps: seq<Step>)
  {
    Run(states, steps) && forall i :: 0 <= i < |steps| ==> AbreastStep(states[i], steps[i])
  }

  /** Of two writes of a key the later one has the higher revision. */
  ghost predicate RevisionsOrder(s: System)
  {
    forall p, q :: p in s.written && q in s.written && p.0 == q.0 && p.1.place < q.1.place ==>
      p.1.envelope.revision < q.1.envelope.revision
  }

  /** Merging two roots by revision gives what Yjs gives. */
  ghost predicate RevisionsMerge(s: System)
  {
    forall a, b :: a in s.replicas && b in s.replicas ==>
      View(Joined(s.replicas[a], s.replicas[b])) == Merge(View(s.replicas[a]), View(s.replicas[b]))
  }

  /** The later of two writes of a key is the one of the higher revision. */
  ghost predicate Alike(a: Stamped, b: Stamped)
  {
    && (a.place < b.place ==> a.envelope.revision < b.envelope.revision)
    && (b.place < a.place ==> b.envelope.revision < a.envelope.revision)
    && (a.place == b.place ==> a == b)
  }

  /** A write is of a higher revision than everything its root holds for the element. */
  lemma AboveRoot(s: System, x: Session, elementId: Str, value: Option<CanonicalJson>, place: real)
    requires Inv(s) && x in s.replicas
    ensures var key, r := EnvelopeKey(s.actors[x], elementId), s.replicas[x];
            key in r.root ==>
              r.root[key].envelope.revision
              < NewWrite(View(r), s.actors[x], elementId, value, place).1.envelope.revision
  {
    var key, r := EnvelopeKey(s.actors[x], elementId), s.replicas[x];
    assert Sound(s, r);
    if key in r.root {
      var q := r.root[key].envelope;
      assert (key, r.root[key]) in s.written;
      EnvelopeKeyInjective(q.actorId, q.elementId, s.actors[x], elementId);
      assert View(r)[key] == q;
    }
  }

  lemma AbreastBelow(s: System, x: Session, elementId: Str, w: (Str, Stamped), p: (Str, Stamped))
    requires Inv(s) && RevisionsOrder(s) && x in s.replicas && Abreast(s, x, elementId)
    requires w.0 == EnvelopeKey(s.actors[x], elementId) && Placed(s, s.replicas[x], w.0, w.1.place)
    requires w.0 in s.replicas[x].root ==> s.replicas[x].root[w.0].envelope.revision < w.1.envelope.revision
    requires p in s.written && p.0 == w.0
    ensures p.1.place < w.1.place && p.1.envelope.revision < w.1.envelope.revision
  {
    hide EnvelopeKey, Keyed;
    var r := s.replicas[x];
    assert Sound(s, r);
    assert (w.0, r.root[w.0]) in s.written;
  }

  lemma AbreastWrite(s: System, x: Session, elementId: Str, value: Option<CanonicalJson>, place: real, t: System)
    requires Inv(s) && RevisionsOrder(s) && Next(s, LocalWrite(x, elementId, value, place), t)
    requires Abreast(s, x, elementId)
    ensures RevisionsOrder(t)
  {
    hide NewWrite, EnvelopeKey, Writable, View, Extended, Placed, Inv, Abreast;
    var r := s.replicas[x];
    var w := NewWrite(View(r), s.actors[x], elementId, value, place);
    OwnKey(View(r), s.actors[x], elementId, value, place);
    AboveRoot(s, x, elementId, value, place);
    forall p | p in s.written && p.0 == w.0
      ensures p.1.place < w.1.place && p.1.envelope.revision < w.1.envelope.revision
    {
      AbreastBelow(s, x, elementId, w, p);
    }
  }

  lemma NextOrder(s: System, step: Step, t: System)
    requires Inv(s) && RevisionsOrder(s) && Next(s, step, t) && AbreastStep(s, step)
    ensures Inv(t) && RevisionsOrder(t)
  {
    hide Inv, Abreast, RevisionsOrder, Latest, MergeRoots, EnvelopeKey, NewWrite, View;
    NextInv(s, step, t);
    match step
    case LocalWrite(x, elementId, value, place) => AbreastWrite(s, x, elementId, value, place, t);
    case Send(from, update) => SameWritten(s, t);
    case Receive(to, update) => SameWritten(s, t);
  }

  lemma SameWritten(s: System, t: System)
    requires RevisionsOrder(s) && s.written == t.written
    ensures RevisionsOrder(t)
  {
  }

  lemma {:induction false} RunOrder(states: seq<System>, steps: seq<Step>, i: nat)
    requires AbreastRun(states, steps) && i < |states|
    ensures Inv(states[i]) && RevisionsOrder(states[i])
  {
    if i == 0 {
      RunInv(states, steps, 0);
    } else {
      RunOrder(states, steps, i - 1);
      assert AbreastStep(states[i - 1], steps[i - 1]);
      hide Inv, RevisionsOrder, AbreastStep, Next;
      NextOrder(states[i - 1], steps[i - 1], states[i]);
    }
  }

  lemma AlikeMerge(r: Replica, q: Replica)
    requires forall k :: k in r.root && k in q.root ==> Alike(r.root[k], q.root[k])
    ensures View(Joined(r, q)) == Merge(View(r), View(q)) && Consistent(View(r), View(q))
  {
    var m, v := View(Joined(r, q)), Merge(View(r), View(q));
    assert m.Keys == v.Keys;
    forall k | k in m ensures m[k] == v[k] {
    }
  }

  lemma OrderedAlike(s: System, r: Replica, q: Replica, k: Str)
    requires Ordered(s) && RevisionsOrder(s) && Sound(s, r) && Sound(s, q) && k in r.root && k in q.root
    ensures Alike(r.root[k], q.root[k])
  {
    assert (k, r.root[k]) in s.written && (k, q.root[k]) in s.written;
  }

  lemma KeyedView(s: System, r: Replica)
    requires Keyed(s) && Sound(s, r)
    ensures KeyedByOwner(View(r))
  {
    forall k | k in r.root ensures (k, r.root[k]) in s.written {
    }
  }

  lemma OrderMerges(s: System, a: Session, b: Session)
    requires Inv(s) && RevisionsOrder(s) && a in s.replicas && b in s.replicas
    ensures View(Joined(s.replicas[a], s.replicas[b])) == Merge(View(s.replicas[a]), View(s.replicas[b]))
    ensures KeyedByOwner(View(s.replicas[a])) && Consistent(View(s.replicas[a]), View(s.replicas[b]))
  {
    var r, q := s.replicas[a], s.replicas[b];
    assert Sound(s, r) && Sound(s, q);
    hide Joined, Merge, View, Consistent, KeyedByOwner, Sound, RevisionsOrder, Alike;
    KeyedView(s, r);
    forall k | k in r.root && k in q.root ensures Alike(r.root[k], q.root[k]) {
      OrderedAlike(s, r, q, k);
    }
    AlikeMerge(r, q);
  }

  lemma OrderMergesAll(s: System)
    requires Inv(s) && RevisionsOrder(s)
    ensures RevisionsMerge(s)
  {
    hide Inv, View, Joined, Merge, RevisionsOrder;
    forall a, b | a in s.replicas && b in s.replicas
      ensures View(Joined(s.replicas[a], s.replicas[b])) == Merge(View(s.replicas[a]), View(s.replicas[b]))
    {
      OrderMerges(s, a, b);
    }
  }

  /** In a run whose writes all know the last write of their key, two roots never hold
      different envelopes of one key and revision, and merging them by revision is what
      Yjs does. */
  lemma ReplicasConsistent(states: seq<System>, steps: seq<Step>, i: nat, a: Session, b: Session)
    requires AbreastRun(states, steps) && i < |states|
    requires a in states[i].replicas && b in states[i].replicas
    ensures KeyedByOwner(View(states[i].replicas[a]))
    ensures Consistent(View(states[i].replicas[a]), View(states[i].replicas[b]))
    ensures RevisionsMerge(states[i])
  {
    hide Inv, RevisionsOrder, RevisionsMerge, View, Consistent, KeyedByOwner;
    RunOrder(states, steps, i);
    OrderMerges(states[i], a, b);
    OrderMergesAll(states[i]);
  }

  // ----- writes that do not -----

  /** Every write is known to some session. */
  ghost predicate Held(s: System)
  {
    s.replicas != map[] ==> forall p :: p in s.written ==> exists a :: a in s.replicas && p in s.replicas[a].known
  }

  lemma NextHeld(s: System, step: Step, t: System)
    requires Inv(s) && Held(s) && Next(s, step, t)
    ensures Held(t)
  {
    hide Latest, MergeRoots, NewWrite, EnvelopeKey, Placed, Writable, Ordered, Keyed, Sound;
    forall x | x in s.replicas ensures x in t.replicas && s.replicas[x].known <= t.replicas[x].known {
    }
    forall p | p in t.written && t.replicas != map[] ensures exists a :: a in t.replicas && p in t.replicas[a].known {
      if p in s.written {
        var a :| a in s.replicas && p in s.replicas[a].known;
        assert p in t.replicas[a].known;
      } else {
        assert p in t.replicas[step.session].known;
      }
    }
  }

  lemma {:induction false} RunHeld(states: seq<System>, steps: seq<Step>, i: nat)
    requires Run(states, steps) && i < |states|
    ensures Held(states[i])
  {
    if i == 0 {
      var s := states[0];
      forall p, a | p in s.written && a in s.replicas ensures p in s.replicas[a].known {
      }
    } else {
      RunHeld(states, steps, i - 1);
      RunInv(states, steps, i - 1);
      hide Held, Inv;
      NextHeld(states[i - 1], steps[i - 1], states[i]);
    }
  }

  ghost predicate IsLast(ps: set<(Str, Stamped)>, key: Str, p: (Str, Stamped))
  {
    p in ps && p.0 == key && forall q :: q in ps && q.0 == key ==> q.1.place <= p.1.place
  }

  lemma {:induction false} LastExists(ps: set<(Str, Stamped)>, p: (Str, Stamped)) returns (last: (Str, Stamped))
    requires p in ps
    ensures IsLast(ps, p.0, last)
    decreases |ps|
  {
    if q :| q in ps && q != p && q.0 == p.0 {
      var rest := if q.1.place <= p.1.place then ps - {q} else ps - {p};
      assert |rest| < |ps|;
      last := LastExists(rest, if q.1.place <= p.1.place then p else q);
    } else {
      last := p;
    }
  }

  /** Between two places there is a gap without any write. */
  lemma {:induction false} Gap(ps: set<(Str, Stamped)>, lo: real, hi: real) returns (place: real)
    requires lo < hi
    ensures lo < place < hi && forall p :: p in ps ==> p.1.place != place
    decreases |ps|
  {
    var a, b := EmptyStretch(ps, lo, hi);
    place := (a + b) / 2.0;
  }

  lemma {:induction false} EmptyStretch(ps: set<(Str, Stamped)>, lo: real, hi: real) returns (a: real, b: real)
    requires lo < hi
    ensures lo <= a < b <= hi && forall p :: p in ps ==> p.1.place <= a || b <= p.1.place
    decreases |ps|
  {
    a, b := lo, hi;
    if ps != {} {
      var q :| q in ps;
      assert |ps - {q}| < |ps|;
      a, b := EmptyStretch(ps - {q}, lo, hi);
      if a < q.1.place < b {
        b := q.1.place;
      }
    }
  }

  /** A rectangle without extent, as the editor stores it. */
  function Rectangle(id: Str): CanonicalJson
  {
    var h, i, t, w, x, y := Ascii("height"), Ascii("id"), Ascii("type"), Ascii("width"), Ascii("x"), Ascii("y");
    assert h[0] == 104 && i[0] == 105 && t[0] == 116 && w[0] == 119 && x[0] == 120 && y[0] == 121;
    assert Canonical(Num([48])) && Canonical(Json.Str(id)) && Canonical(Json.Str(Ascii("rectangle")));
    Obj([Entry(h, Num([48])), Entry(i, Json.Str(id)), Entry(t, Json.Str(Ascii("rectangle"))), Entry(w, Num([48])),
         Entry(x, Num([48])), Entry(y, Num([48]))])
  }

  lemma {:induction false} FieldAt(fields: seq<Entry<Json>>, i: nat, name: string)
    requires i < |fields| && fields[i].key == Ascii(name) && forall j :: 0 <= j < i ==> fields[j].key != Ascii(name)
    ensures Field(fields, name) == Some(fields[i].value)
  {
    if i > 0 {
      FieldAt(fields[1..], i - 1, name);
    }
  }

  lemma RectangleFields(id: Str)
    ensures var fields := Rectangle(id).fields;
            Field(fields, "id") == Some(Json.Str(id)) && Field(fields, "type") == Some(Json.Str(Ascii("rectangle")))
            && IsNumberField(fields, "x") && IsNumberField(fields, "y")
            && IsNumberField(fields, "width") && IsNumberField(fields, "height")
  {
    hide Field, Canonical, Less;
    var fields := Rectangle(id).fields;
    assert Ascii("id")[0] == 105 && Ascii("type")[0] == 116 && Ascii("x")[0] == 120 && Ascii("y")[0] == 121;
    assert Ascii("width")[0] == 119 && Ascii("height")[0] == 104;
    FieldAt(fields, 0, "height");
    FieldAt(fields, 1, "id");
    FieldAt(fields, 2, "type");
    FieldAt(fields, 3, "width");
    FieldAt(fields, 4, "x");
    FieldAt(fields, 5, "y");
  }

  lemma RectangleIsValid(id: Str)
    requires IsIdentifier(id)
    ensures ElementError(Element(id, Rectangle(id))).None?
  {
    RectangleFields(id);
    hide Field, IsNumberField, IsIdentifier;
    assert Ascii("rectangle")[0] == 114 && Ascii("text")[0] == 116 && Ascii("image")[0] == 105;
    assert Ascii("line")[0] == 108 && Ascii("arrow")[0] == 97;
  }

  /** A write that does not follow the last write of its key and gets a value and a place
      for which the revisions of the two tell the wrong order. */
  lemma Overtaking(s: System, y: Session, elementId: Str, last: (Str, Stamped)) returns (value: Option<CanonicalJson>, place: real)
    requires Inv(s) && y in s.replicas && IsIdentifier(elementId)
    requires IsLast(s.written, EnvelopeKey(s.actors[y], elementId), last)
    requires last.0 in s.replicas[y].root ==> s.replicas[y].root[last.0].place < last.1.place
    ensures Writable(elementId, value) && Placed(s, s.replicas[y], last.0, place)
    ensures var w := NewWrite(View(s.replicas[y]), s.actors[y], elementId, value, place).1;
            if last.1.place < place
            then w.envelope.revision <= last.1.envelope.revision && w.envelope != last.1.envelope
            else place < last.1.place && last.1.envelope.revision < w.envelope.revision
  {
    var r := s.replicas[y];
    assert Sound(s, r);
    RectangleIsValid(elementId);
    hide ElementError, Rectangle;
    var other := if last.1.envelope.value.None? then Some(Rectangle(elementId)) else None;
    var above := last.1.place + 1.0;
    OwnKey(View(r), s.actors[y], elementId, other, above);
    if NewWrite(View(r), s.actors[y], elementId, other, above).1.envelope.revision <= last.1.envelope.revision {
      value, place := other, above;
    } else {
      var floor := if last.0 in r.root then r.root[last.0].place else last.1.place - 1.0;
      value := None;
      place := Gap(s.written, floor, last.1.place);
      OwnKey(View(r), s.actors[y], elementId, None, place);
      SameRevision(View(r), s.actors[y], elementId, other, above, None, place);
    }
  }

  lemma SameRevision(view: Elements, actorId: Str, elementId: Str, v: Option<CanonicalJson>, p: real,
                     w: Option<CanonicalJson>, q: real)
    ensures NewWrite(view, actorId, elementId, v, p).1.envelope.revision
            == NewWrite(view, actorId, elementId, w, q).1.envelope.revision
  {
  }

  lemma WrongOrder(a: Replica, b: Replica, last: (Str, Stamped), w: (Str, Stamped))
    requires last.0 == w.0 && last.0 in a.root && a.root[last.0] == last.1
    requires if last.1.place < w.1.place
             then w.1.envelope.revision <= last.1.envelope.revision && w.1.envelope != last.1.envelope
             else w.1.place < last.1.place && last.1.envelope.revision < w.1.envelope.revision
    ensures View(Joined(a, Extended(b, w))) != Merge(View(a), View(Extended(b, w)))
  {
    var c := Extended(b, w);
    var yjs, revisions := View(Joined(a, c))[w.0], Merge(View(a), View(c))[w.0];
    assert if last.1.place < w.1.place then yjs == w.1.envelope && revisions == last.1.envelope
           else yjs == last.1.envelope && revisions == w.1.envelope;
  }

  lemma NotMerged(s: System, a: Session, b: Session)
    requires a in s.replicas && b in s.replicas
    requires View(Joined(s.replicas[a], s.replicas[b])) != Merge(View(s.replicas[a]), View(s.replicas[b]))
    ensures !RevisionsMerge(s)
  {
  }

  lemma HoldsLast(s: System, r: Replica, last: (Str, Stamped))
    requires Ordered(s) && Sound(s, r) && last in r.known && IsLast(s.written, last.0, last)
    ensures last.0 in r.root && r.root[last.0] == last.1
  {
    assert (last.0, r.root[last.0]) in s.written;
  }

  /** Some session's root holds the last write of a key. */
  lemma HolderOf(s: System, p: (Str, Stamped)) returns (a: Session, last: (Str, Stamped))
    requires Inv(s) && Held(s) && s.replicas != map[] && p in s.written
    ensures IsLast(s.written, p.0, last)
    ensures a in s.replicas && last.0 in s.replicas[a].root && s.replicas[a].root[last.0] == last.1
  {
    hide Sound, Ordered, Keyed;
    last := LastExists(s.written, p);
    a :| a in s.replicas && last in s.replicas[a].known;
    hide Held, IsLast;
    HoldsLast(s, s.replicas[a], last);
  }

  lemma BehindLast(s: System, y: Session, elementId: Str) returns (a: Session, last: (Str, Stamped))
    requires Inv(s) && Held(s) && y in s.replicas && !Abreast(s, y, elementId)
    ensures IsLast(s.written, EnvelopeKey(s.actors[y], elementId), last) && last.0 == EnvelopeKey(s.actors[y], elementId)
    ensures a in s.replicas && last.0 in s.replicas[a].root && s.replicas[a].root[last.0] == last.1
    ensures last.0 in s.replicas[y].root ==> s.replicas[y].root[last.0].place < last.1.place
  {
    var key := EnvelopeKey(s.actors[y], elementId);
    hide EnvelopeKey, Held, Inv;
    var p :| p in s.written && p.0 == key && !(key in s.replicas[y].root && p.1.place <= s.replicas[y].root[key].place);
    a, last := HolderOf(s, p);
  }

  lemma NextWrite(s: System, y: Session, elementId: Str, value: Option<CanonicalJson>, place: real, w: (Str, Stamped))
    requires y in s.replicas && y in s.actors && Writable(elementId, value)
    requires w == NewWrite(View(s.replicas[y]), s.actors[y], elementId, value, place) && Placed(s, s.replicas[y], w.0, place)
    ensures Next(s, LocalWrite(y, elementId, value, place),
                 s.(replicas := s.replicas[y := Extended(s.replicas[y], w)], written := s.written + {w}))
  {
    hide NewWrite, View, Placed, Extended, Writable;
  }

  /** If the session does not hold the last write of the key, some valid write of it
      makes merging by revision go wrong at once. */
  lemma BehindFails(s: System, y: Session, elementId: Str) returns (value: Option<CanonicalJson>, place: real, t: System)
    requires Inv(s) && Held(s) && y in s.replicas && IsIdentifier(elementId) && !Abreast(s, y, elementId)
    ensures Next(s, LocalWrite(y, elementId, value, place), t) && !RevisionsMerge(t)
  {
    assert y in s.actors;
    hide NewWrite, EnvelopeKey, Inv, Held, Writable, Extended, View, Placed, RevisionsMerge, Next, Abreast, IsLast, IsIdentifier;
    var a, last := BehindLast(s, y, elementId);
    value, place := Overtaking(s, y, elementId, last);
    var w := NewWrite(View(s.replicas[y]), s.actors[y], elementId, value, place);
    OwnKey(View(s.replicas[y]), s.actors[y], elementId, value, place);
    t := s.(replicas := s.replicas[y := Extended(s.replicas[y], w)], written := s.written + {w});
    NextWrite(s, y, elementId, value, place, w);
    OvertakenFails(s, t, a, y, last, w);
  }

  lemma OvertakenFails(s: System, t: System, a: Session, y: Session, last: (Str, Stamped), w: (Str, Stamped))
    requires a in s.replicas && y in s.replicas && last.0 == w.0
    requires last.0 in s.replicas[a].root && s.replicas[a].root[last.0] == last.1
    requires last.0 in s.replicas[y].root ==> s.replicas[y].root[last.0].place < last.1.place
    requires t.replicas == s.replicas[y := Extended(s.replicas[y], w)]
    requires if last.1.place < w.1.place
             then w.1.envelope.revision <= last.1.envelope.revision && w.1.envelope != last.1.envelope
             else w.1.place < last.1.place && last.1.envelope.revision < w.1.envelope.revision
    ensures !RevisionsMerge(t)
  {
    hide Extended, Joined, View, Merge, RevisionsMerge;
    assert a != y;
    WrongOrder(s.replicas[a], s.replicas[y], last, w);
    NotMerged(t, a, y);
  }

  /** Whatever valid element it writes, and wherever Yjs places it, the write leaves
      merging by revision right. */
  ghost predicate SafeToWrite(s: System, y: Session, elementId: Str)
  {
    forall value, place, t :: Next(s, LocalWrite(y, elementId, value, place), t) ==> RevisionsMerge(t)
  }

  /** As long as writes have known the last write of their key, the next write of a
      session is safe exactly when its root holds the last write of the key. */
  lemma SafeToWriteIff(states: seq<System>, steps: seq<Step>, i: nat, y: Session, elementId: Str)
    requires AbreastRun(states, steps) && i < |states| && y in states[i].replicas && IsIdentifier(elementId)
    ensures y in states[i].actors && (SafeToWrite(states[i], y, elementId) <==> Abreast(states[i], y, elementId))
  {
    RunOrder(states, steps, i);
    RunHeld(states, steps, i);
    assert y in states[i].actors;
    hide AbreastRun, Inv, Held, RevisionsOrder, RevisionsMerge, Next;
    if Abreast(states[i], y, elementId) {
      forall value, place, t | Next(states[i], LocalWrite(y, elementId, value, place), t) ensures RevisionsMerge(t) {
        NextOrder(states[i], LocalWrite(y, elementId, value, place), t);
        OrderMergesAll(t);
      }
    } else {
      var value, place, t := BehindFails(states[i], y, elementId);
    }
  }

  // ----- one session per actor -----

  predicate OneSessionEach(actors: map<Session, Str>)
  {
    forall a, b :: a in actors && b in actors && actors[a] == actors[b] ==> a == b
  }

  /** Every write is known to its actor's sessions. */
  ghost predicate OwnersKnow(s: System)
  {
    forall p, x :: p in s.written && x in s.replicas && x in s.actors && s.actors[x] == p.1.envelope.actorId ==>
      p in s.replicas[x].known
  }

  lemma OwnersAreAbreast(s: System, x: Session, elementId: Str)
    requires Inv(s) && OwnersKnow(s) && x in s.replicas
    ensures Abreast(s, x, elementId)
  {
    var key, r := EnvelopeKey(s.actors[x], elementId), s.replicas[x];
    assert Sound(s, r);
    forall p | p in s.written && p.0 == key ensures key in r.root && p.1.place <= r.root[key].place {
      EnvelopeKeyInjective(p.1.envelope.actorId, p.1.envelope.elementId, s.actors[x], elementId);
    }
  }

  lemma NextOwners(s: System, step: Step, t: System)
    requires Inv(s) && OneSessionEach(s.actors) && OwnersKnow(s) && Next(s, step, t)
    ensures OwnersKnow(t) && t.actors == s.actors
  {
    hide Latest, MergeRoots, NewWrite, EnvelopeKey, Placed, Writable, Ordered, Keyed, Sound, View;
    forall x | x in s.replicas ensures x in t.replicas && s.replicas[x].known <= t.replicas[x].known {
    }
    if step.LocalWrite? {
      OwnKey(View(s.replicas[step.session]), s.actors[step.session], step.elementId, step.value, step.place);
    }
  }

  lemma InitOwners(s: System)
    requires Init(s)
    ensures OwnersKnow(s)
  {
  }

  lemma {:induction false} RunOwners(states: seq<System>, steps: seq<Step>, i: nat)
    requires Run(states, steps) && i < |states| && OneSessionEach(states[0].actors)
    ensures OwnersKnow(states[i]) && states[i].actors == states[0].actors
  {
    hide Inv, OwnersKnow, OneSessionEach, Next, Init;
    if i == 0 {
      InitOwners(states[0]);
    } else {
      RunOwners(states, steps, i - 1);
      RunInv(states, steps, i - 1);
      NextOwners(states[i - 1], steps[i - 1], states[i]);
    }
  }

  /** With one session per actor, every write knows the last write of its key. */
  lemma SinglesAreAbreast(states: seq<System>, steps: seq<Step>)
    requires Run(states, steps) && OneSessionEach(states[0].actors)
    ensures AbreastRun(states, steps)
  {
    hide Inv, OwnersKnow, OneSessionEach, Abreast, Next;
    forall i | 0 <= i < |steps| ensures AbreastStep(states[i], steps[i]) {
      RunOwners(states, steps, i);
      RunInv(states, steps, i);
      if steps[i].LocalWrite? && steps[i].session in states[i].replicas {
        OwnersAreAbreast(states[i], steps[i].session, steps[i].elementId);
      }
    }
  }

  // ----- two sessions of one actor -----

  function Empty(actors: map<Session, Str>): System
  {
    System(actors, map x | x in actors :: Replica(map[], {}), {}, {})
  }

  const ELEMENT: Str := Ascii("a")

  lemma ElementIsIdentifier()
    ensures IsIdentifier(ELEMENT)
  {
    assert |ELEMENT| == 1 && ELEMENT[0] == 97;
  }

  /** One session deletes an element; another session of the actor, which has not heard
      of it, is behind. */
  lemma DeletedBefore(actors: map<Session, Str>, x: Session, y: Session) returns (states: seq<System>, steps: seq<Step>)
    requires x in actors && y in actors && x != y && actors[x] == actors[y]
    ensures Run(states, steps) && |steps| == 1 && states[0].actors == states[1].actors == actors
    ensures y in states[1].replicas && !Abreast(states[1], y, ELEMENT)
  {
    hide EnvelopeKey, NewWrite;
    var s0, r := Empty(actors), Replica(map[], {});
    var w := NewWrite(View(r), actors[x], ELEMENT, None, 1.0);
    var s1 := s0.(replicas := s0.replicas[x := Extended(r, w)], written := s0.written + {w});
    OwnKey(View(r), actors[x], ELEMENT, None, 1.0);
    states, steps := [s0, s1], [LocalWrite(x, ELEMENT, None, 1.0)];
    assert Next(s0, steps[0], s1);
    assert w in s1.written;
  }

  ghost predicate MergesInAllRuns(actors: map<Session, Str>)
  {
    forall states: seq<System>, steps: seq<Step>, i: nat ::
      Run(states, steps) && states[0].actors == actors && i < |states| ==> RevisionsMerge(states[i])
  }

  lemma RunExtends(states: seq<System>, steps: seq<Step>, step: Step, t: System)
    requires Run(states, steps) && Next(states[|steps|], step, t)
    ensures Run(states + [t], steps + [step])
  {
    hide Next, Init;
  }

  lemma TwoSessionsFail(actors: map<Session, Str>, x: Session, y: Session)
    requires x in actors && y in actors && x != y && actors[x] == actors[y]
    ensures !MergesInAllRuns(actors)
  {
    hide Inv, Held, RevisionsMerge, Next, Abreast, Init;
    var states, steps := DeletedBefore(actors, x, y);
    RunInv(states, steps, 1);
    RunHeld(states, steps, 1);
    ElementIsIdentifier();
    var value, place, t := BehindFails(states[1], y, ELEMENT);
    var step := LocalWrite(y, ELEMENT, value, place);
    RunExtends(states, steps, step, t);
    hide Run;
    assert (states + [t])[2] == t && (states + [t])[0].actors == actors;
  }

  /** Merging by revision is what Yjs does, in all runs of these sessions, exactly when
      no actor has two of them. */
  lemma RevisionsMergeIff(actors: map<Session, Str>)
    ensures MergesInAllRuns(actors) <==> OneSessionEach(actors)
  {
    hide RevisionsMerge;
    if OneSessionEach(actors) {
      forall states: seq<System>, steps: seq<Step>, i: nat | Run(states, steps) && states[0].actors == actors && i < |states|
        ensures RevisionsMerge(states[i])
      {
        SinglesAreAbreast(states, steps);
        hide AbreastRun, Run, OneSessionEach;
        RunOrder(states, steps, i);
        OrderMergesAll(states[i]);
      }
    } else {
      var x, y :| x in actors && y in actors && actors[x] == actors[y] && x != y;
      TwoSessionsFail(actors, x, y);
    }
  }
}
