/** The raised-hand queue: a fold over events that may arrive in any order and more
    than once. */
module HandQueue {
  import opened Text
  import opened ElementStore

  datatype Kind = Raise | Lower
  datatype HandEvent = HandEvent(eventId: Str, participantId: Str, serverSequence: int, kind: Kind)
  datatype RaisedHand = RaisedHand(participantId: Str, raisedSequence: int)
  datatype Projection = Projection(queue: seq<RaisedHand>, lastServerSequence: int, duplicateEventCount: nat)

  // ----- sorting by a number, then by collation -----

  type Key = (int, real)

  predicate Less(a: Key, b: Key)
  {
    a.0 < b.0 || (a.0 == b.0 && a.1 < b.1)
  }

  function Insert<T>(key: T -> Key, x: T, xs: seq<T>): seq<T>
  {
    if xs == [] || Less(key(x), key(xs[0])) then [x] + xs else [xs[0]] + Insert(key, x, xs[1..])
  }

  /** A stable sort. */
  function SortBy<T>(key: T -> Key, xs: seq<T>): seq<T>
  {
    if xs == [] then [] else Insert(key, xs[|xs| - 1], SortBy(key, xs[..|xs| - 1]))
  }

  predicate Ordered<T>(key: T -> Key, xs: seq<T>)
  {
    forall i, j :: 0 <= i < j < |xs| ==> !Less(key(xs[j]), key(xs[i]))
  }

  lemma {:induction false} InsertOrders<T>(key: T -> Key, x: T, xs: seq<T>)
    requires Ordered(key, xs)
    ensures Ordered(key, Insert(key, x, xs)) && multiset(Insert(key, x, xs)) == multiset(xs) + multiset{x}
  {
    if xs == [] || Less(key(x), key(xs[0])) {
    } else {
      assert xs == [xs[0]] + xs[1..];
      InsertOrders(key, x, xs[1..]);
      var r := Insert(key, x, xs[1..]);
      forall i | 0 <= i < |r| ensures !Less(key(r[i]), key(xs[0])) {
        assert r[i] in multiset(xs[1..]) + multiset{x};
      }
    }
  }

  lemma {:induction false} SortSorts<T>(key: T -> Key, xs: seq<T>)
    ensures Ordered(key, SortBy(key, xs)) && multiset(SortBy(key, xs)) == multiset(xs)
  {
    if xs != [] {
      var init, last := xs[..|xs| - 1], xs[|xs| - 1];
      assert xs == init + [last];
      SortSorts(key, init);
      InsertOrders(key, last, SortBy(key, init));
    }
  }

  lemma SortKeeps<T>(key: T -> Key, xs: seq<T>)
    ensures forall x :: x in SortBy(key, xs) <==> x in xs
    ensures |SortBy(key, xs)| == |xs|
  {
    SortSorts(key, xs);
    forall x ensures x in SortBy(key, xs) <==> x in xs {
      assert x in multiset(SortBy(key, xs)) <==> x in multiset(xs);
    }
    assert |multiset(SortBy(key, xs))| == |multiset(xs)|;
  }

  /** Distinct keys, no repetition: the order of a list is forced by its members. */
  lemma {:induction false} SameMembersSameList<T>(key: T -> Key, xs: seq<T>, ys: seq<T>)
    requires Ordered(key, xs) && Ordered(key, ys) && forall x :: x in xs <==> x in ys
    requires forall a, b :: a in xs && b in xs && key(a) == key(b) ==> a == b
    requires NoRepeats(xs) && NoRepeats(ys)
    ensures xs == ys
    decreases |xs|
  {
    if xs == [] {
      assert forall x :: multiset(ys)[x] == 0;
      assert multiset(ys) == multiset{};
    } else {
      assert xs[0] in ys && ys != [];
      assert ys[0] in xs;
      var i :| 0 <= i < |ys| && ys[i] == xs[0];
      var j :| 0 <= j < |xs| && xs[j] == ys[0];
      assert key(xs[0]) == key(ys[0]);
      assert xs[0] == ys[0];
      forall x ensures x in xs[1..] <==> x in ys[1..] {
        if x in xs[1..] {
          var a :| 0 <= a < |xs[1..]| && xs[1..][a] == x;
          assert xs[a + 1] == x && x != xs[0];
          assert x in ys;
          var b :| 0 <= b < |ys| && ys[b] == x;
          assert ys[1..][b - 1] == x;
        }
        if x in ys[1..] {
          var b :| 0 <= b < |ys[1..]| && ys[1..][b] == x;
          assert ys[b + 1] == x && x != ys[0];
          assert x in xs;
          var a :| 0 <= a < |xs| && xs[a] == x;
          assert xs[1..][a - 1] == x;
        }
      }
      SameMembersSameList(key, xs[1..], ys[1..]);
      assert xs == [xs[0]] + xs[1..] && ys == [ys[0]] + ys[1..];
    }
  }

  predicate NoRepeats<T(==)>(xs: seq<T>)
  {
    forall i, j :: 0 <= i < j < |xs| ==> xs[i] != xs[j]
  }

  // ----- the projection -----

  function EventKey(rank: Collation): HandEvent -> Key
  {
    (e: HandEvent) => (e.serverSequence, rank(e.eventId))
  }

  function HandKey(rank: Collation): RaisedHand -> Key
  {
    (h: RaisedHand) => (h.raisedSequence, rank(h.participantId))
  }

  function Max(a: int, b: int): int
  {
    if a < b then b else a
  }

  /** The variables of the loop; `raised` lists the map in insertion order. */
  datatype Fold = Fold(seen: set<Str>, raised: seq<RaisedHand>, last: int, duplicates: nat)

  predicate HasRaised(raised: seq<RaisedHand>, participant: Str)
  {
    exists i :: 0 <= i < |raised| && raised[i].participantId == participant
  }

  function Without(raised: seq<RaisedHand>, participant: Str): seq<RaisedHand>
  {
    if raised == [] then []
    else Without(raised[..|raised| - 1], participant)
         + if raised[|raised| - 1].participantId == participant then [] else [raised[|raised| - 1]]
  }

  function Turn(f: Fold, e: HandEvent): Fold
  {
    if e.eventId in f.seen then f.(duplicates := f.duplicates + 1)
    else
      Fold(f.seen + {e.eventId},
           if e.kind == Raise then
             if HasRaised(f.raised, e.participantId) then f.raised
             else f.raised + [RaisedHand(e.participantId, e.serverSequence)]
           else Without(f.raised, e.participantId),
           Max(f.last, e.serverSequence), f.duplicates)
  }

  function FoldAll(events: seq<HandEvent>): Fold
  {
    if events == [] then Fold({}, [], 0, 0) else Turn(FoldAll(events[..|events| - 1]), events[|events| - 1])
  }

  function Project(rank: Collation, events: seq<HandEvent>): Projection
  {
    var f := FoldAll(SortBy(EventKey(rank), events));
    Projection(SortBy(HandKey(rank), f.raised), f.last, f.duplicates)
  }

  method ProjectHandQueue(rank: Collation, events: seq<HandEvent>) returns (r: Projection)
    ensures r == Project(rank, events)
  {
    var ordered := SortBy(EventKey(rank), events);
    var seen: set<Str> := {};
    var raised: seq<RaisedHand> := [];
    var duplicateEventCount, lastServerSequence := 0, 0;
    var i := 0;
    while i < |ordered|
      invariant i <= |ordered|
      invariant Fold(seen, raised, lastServerSequence, duplicateEventCount) == FoldAll(ordered[..i])
    {
      var event := ordered[i];
      assert ordered[..i + 1][..i] == ordered[..i];
      i := i + 1;
      if event.eventId in seen {
        duplicateEventCount := duplicateEventCount + 1;
      } else {
        seen := seen + {event.eventId};
        lastServerSequence := Max(lastServerSequence, event.serverSequence);
        if event.kind == Raise {
          if !HasRaised(raised, event.participantId) {
            raised := raised + [RaisedHand(event.participantId, event.serverSequence)];
          }
        } else {
          raised := Without(raised, event.participantId);
        }
      }
    }
    assert ordered[..i] == ordered;
    return Projection(SortBy(HandKey(rank), raised), lastServerSequence, duplicateEventCount);
  }

  // ----- what the queue means -----

  predicate Before(rank: Collation, e: HandEvent, f: HandEvent)
  {
    Less(EventKey(rank)(e), EventKey(rank)(f))
  }

  /** Equal event ids carry equal events. */
  ghost predicate Consistent(events: seq<HandEvent>)
  {
    forall e, f :: e in events && f in events && e.eventId == f.eventId ==> e == f
  }

  ghost predicate LowersAfter(rank: Collation, events: seq<HandEvent>, e: HandEvent)
  {
    exists f :: f in events && f.kind == Lower && f.participantId == e.participantId && Before(rank, e, f)
  }

  ghost predicate LowersBetween(rank: Collation, events: seq<HandEvent>, e: HandEvent, g: HandEvent)
  {
    exists f :: f in events && f.kind == Lower && f.participantId == e.participantId
      && Before(rank, e, f) && Before(rank, f, g)
  }

  /** `e` is its participant's first raise after their last lower. */
  ghost predicate FirstRaise(rank: Collation, events: seq<HandEvent>, e: HandEvent)
  {
    && e in events && e.kind == Raise && !LowersAfter(rank, events, e)
    && forall g :: g in events && g.kind == Raise && g.participantId == e.participantId && Before(rank, g, e) ==>
         LowersBetween(rank, events, g, e)
  }

  ghost predicate SameMembers(xs: seq<HandEvent>, ys: seq<HandEvent>)
  {
    forall e :: e in xs <==> e in ys
  }

  lemma MembersDecide(rank: Collation, xs: seq<HandEvent>, ys: seq<HandEvent>, e: HandEvent)
    requires SameMembers(xs, ys)
    ensures FirstRaise(rank, xs, e) <==> FirstRaise(rank, ys, e)
    ensures LowersAfter(rank, xs, e) <==> LowersAfter(rank, ys, e)
  {
    assert LowersAfter(rank, xs, e) <==> LowersAfter(rank, ys, e);
    forall g ensures LowersBetween(rank, xs, g, e) <==> LowersBetween(rank, ys, g, e) {
    }
  }

  // ----- the fold, event by event -----

  /** What the loop knows about one participant after the events `seen`. */
  ghost predicate Knows(rank: Collation, events: seq<HandEvent>, raised: seq<RaisedHand>, p: Str)
  {
    if HasRaised(raised, p) then
      exists e :: FirstRaise(rank, events, e) && e.participantId == p && RaisedHand(p, e.serverSequence) in raised
    else
      forall g :: g in events && g.kind == Raise && g.participantId == p ==> LowersAfter(rank, events, g)
  }

  ghost predicate DistinctHands(raised: seq<RaisedHand>)
  {
    forall h, k :: h in raised && k in raised && h.participantId == k.participantId ==> h == k
  }

  ghost predicate AllBefore(rank: Collation, events: seq<HandEvent>, x: HandEvent)
  {
    forall e :: e in events ==> Before(rank, e, x)
  }

  lemma {:induction false} WithoutMembers(raised: seq<RaisedHand>, p: Str)
    ensures forall h :: h in Without(raised, p) <==> h in raised && h.participantId != p
    ensures NoRepeats(raised) ==> NoRepeats(Without(raised, p))
  {
    if raised != [] {
      var init, last := raised[..|raised| - 1], raised[|raised| - 1];
      assert raised == init + [last];
      WithoutMembers(init, p);
      assert NoRepeats(raised) ==> last !in init;
    }
  }

  lemma RaiseOne(rank: Collation, events: seq<HandEvent>, raised: seq<RaisedHand>, x: HandEvent)
    requires AllBefore(rank, events, x) && x.kind == Raise
    requires Knows(rank, events, raised, x.participantId)
    ensures Knows(rank, events + [x],
                  if HasRaised(raised, x.participantId) then raised
                  else raised + [RaisedHand(x.participantId, x.serverSequence)],
                  x.participantId)
  {
    var p, all := x.participantId, events + [x];
    if HasRaised(raised, p) {
      var e :| FirstRaise(rank, events, e) && e.participantId == p && RaisedHand(p, e.serverSequence) in raised;
      assert !LowersAfter(rank, all, e);
      forall g | g in all && g.kind == Raise && g.participantId == p && Before(rank, g, e)
        ensures LowersBetween(rank, all, g, e)
      {
        assert g in events && LowersBetween(rank, events, g, e);
        var f :| f in events && f.kind == Lower && f.participantId == p && Before(rank, g, f) && Before(rank, f, e);
        assert f in all;
      }
      assert FirstRaise(rank, all, e);
    } else {
      var raised' := raised + [RaisedHand(p, x.serverSequence)];
      assert raised'[|raised|].participantId == p;
      assert x in all && !LowersAfter(rank, all, x);
      forall g | g in all && g.kind == Raise && g.participantId == p && Before(rank, g, x)
        ensures LowersBetween(rank, all, g, x)
      {
        assert g in events && LowersAfter(rank, events, g);
        var f :| f in events && f.kind == Lower && f.participantId == p && Before(rank, g, f);
        assert f in all;
      }
      assert FirstRaise(rank, all, x) && RaisedHand(p, x.serverSequence) in raised';
    }
  }

  lemma LowerOne(rank: Collation, events: seq<HandEvent>, raised: seq<RaisedHand>, x: HandEvent)
    requires AllBefore(rank, events, x) && x.kind == Lower
    ensures Knows(rank, events + [x], Without(raised, x.participantId), x.participantId)
  {
    WithoutMembers(raised, x.participantId);
    var all, raised' := events + [x], Without(raised, x.participantId);
    assert forall i :: 0 <= i < |raised'| ==> raised'[i] in raised';
    assert !HasRaised(raised', x.participantId);
    forall g | g in all && g.kind == Raise && g.participantId == x.participantId ensures LowersAfter(rank, all, g) {
      assert g in events && x in all;
    }
  }

  lemma OthersKeep(rank: Collation, events: seq<HandEvent>, raised: seq<RaisedHand>, raised': seq<RaisedHand>,
                   x: HandEvent, q: Str)
    requires Knows(rank, events, raised, q) && q != x.participantId
    requires forall h: RaisedHand :: h.participantId == q ==> (h in raised <==> h in raised')
    ensures Knows(rank, events + [x], raised', q)
  {
    var all := events + [x];
    HasRaisedMeans(raised, q);
    HasRaisedMeans(raised', q);
    forall g: HandEvent | g.participantId == q ensures LowersAfter(rank, all, g) <==> LowersAfter(rank, events, g) {
      assert forall f :: f in all && f.participantId == q <==> f in events && f.participantId == q;
    }
    if HasRaised(raised, q) {
      var e :| FirstRaise(rank, events, e) && e.participantId == q && RaisedHand(q, e.serverSequence) in raised;
      forall g | g in all && g.kind == Raise && g.participantId == q && Before(rank, g, e)
        ensures LowersBetween(rank, all, g, e)
      {
        assert g in events && LowersBetween(rank, events, g, e);
        var f :| f in events && f.kind == Lower && f.participantId == q && Before(rank, g, f) && Before(rank, f, e);
        assert f in all;
      }
      assert FirstRaise(rank, all, e);
    }
  }

  lemma HasRaisedMeans(raised: seq<RaisedHand>, p: Str)
    ensures HasRaised(raised, p) <==> exists h :: h in raised && h.participantId == p
  {
    if h :| h in raised && h.participantId == p {
      var i :| 0 <= i < |raised| && raised[i] == h;
    }
  }

  ghost predicate Inv(rank: Collation, events: seq<HandEvent>, f: Fold)
  {
    && f.seen == (set e | e in events :: e.eventId)
    && NoRepeats(f.raised) && DistinctHands(f.raised)
    && (forall p :: Knows(rank, events, f.raised, p))
    && f.last >= 0 && (forall e :: e in events ==> e.serverSequence <= f.last)
    && (f.last == 0 || exists e :: e in events && e.serverSequence == f.last)
    && f.duplicates + |f.seen| == |events|
  }

  lemma NewEventHands(rank: Collation, events: seq<HandEvent>, f: Fold, x: HandEvent)
    requires AllBefore(rank, events, x) && NoRepeats(f.raised) && DistinctHands(f.raised)
    requires forall p :: Knows(rank, events, f.raised, p)
    requires x.eventId !in f.seen
    ensures var t := Turn(f, x);
            NoRepeats(t.raised) && DistinctHands(t.raised) && forall p :: Knows(rank, events + [x], t.raised, p)
  {
    var t := Turn(f, x);
    WithoutMembers(f.raised, x.participantId);
    HasRaisedMeans(f.raised, x.participantId);
    forall p ensures Knows(rank, events + [x], t.raised, p) {
      assert Knows(rank, events, f.raised, p);
      if p != x.participantId {
        OthersKeep(rank, events, f.raised, t.raised, x, p);
      } else if x.kind == Raise {
        RaiseOne(rank, events, f.raised, x);
      } else {
        LowerOne(rank, events, f.raised, x);
      }
    }
  }

  lemma RepeatedEventHands(rank: Collation, events: seq<HandEvent>, raised: seq<RaisedHand>, x: HandEvent, p: Str)
    requires x in events && Knows(rank, events, raised, p)
    ensures Knows(rank, events + [x], raised, p)
  {
    var all := events + [x];
    assert SameMembers(events, all);
    forall e ensures FirstRaise(rank, events, e) <==> FirstRaise(rank, all, e)
             ensures LowersAfter(rank, events, e) <==> LowersAfter(rank, all, e)
    {
      MembersDecide(rank, events, all, e);
    }
  }

  lemma TurnInv(rank: Collation, events: seq<HandEvent>, f: Fold, x: HandEvent)
    requires Inv(rank, events, f)
    requires if x.eventId in f.seen then x in events else AllBefore(rank, events, x)
    ensures Inv(rank, events + [x], Turn(f, x))
  {
    hide Knows, AllBefore;
    var all, t := events + [x], Turn(f, x);
    assert t.seen == set e | e in all :: e.eventId;
    if x.eventId in f.seen {
      forall p ensures Knows(rank, all, t.raised, p) {
        RepeatedEventHands(rank, events, f.raised, x, p);
      }
    } else {
      NewEventHands(rank, events, f, x);
      assert x in all;
    }
    if f.last != 0 {
      var e :| e in events && e.serverSequence == f.last;
      assert e in all;
    }
  }

  lemma {:induction false} FoldInv(rank: Collation, events: seq<HandEvent>)
    requires TotalOrder(rank) && Ordered(EventKey(rank), events) && Consistent(events)
    ensures Inv(rank, events, FoldAll(events))
  {
    if events != [] {
      var init, x := events[..|events| - 1], events[|events| - 1];
      assert events == init + [x];
      FoldInv(rank, init);
      var f := FoldAll(init);
      if x.eventId in f.seen {
        var e :| e in init && e.eventId == x.eventId;
        assert e in events && x in events;
      } else {
        forall e | e in init ensures Before(rank, e, x) {
          var i :| 0 <= i < |init| && init[i] == e;
          assert !Less(EventKey(rank)(events[|events| - 1]), EventKey(rank)(events[i]));
          assert e.eventId != x.eventId;
          assert rank(e.eventId) != rank(x.eventId);
        }
      }
      TurnInv(rank, init, f, x);
    }
  }

  // ----- the claims -----

  lemma SortedInv(rank: Collation, events: seq<HandEvent>)
    requires TotalOrder(rank) && Consistent(events)
    ensures SameMembers(events, SortBy(EventKey(rank), events)) && |SortBy(EventKey(rank), events)| == |events|
    ensures Inv(rank, SortBy(EventKey(rank), events), FoldAll(SortBy(EventKey(rank), events)))
  {
    SortSorts(EventKey(rank), events);
    SortKeeps(EventKey(rank), events);
    FoldInv(rank, SortBy(EventKey(rank), events));
  }

  lemma NotBothFirst(rank: Collation, events: seq<HandEvent>, e: HandEvent, g: HandEvent)
    requires FirstRaise(rank, events, e) && FirstRaise(rank, events, g) && e.participantId == g.participantId
    ensures !Before(rank, e, g)
  {
    assert LowersBetween(rank, events, e, g) ==> LowersAfter(rank, events, e);
  }

  lemma OnlyOneFirst(rank: Collation, events: seq<HandEvent>, e: HandEvent, g: HandEvent)
    requires TotalOrder(rank) && Consistent(events)
    requires FirstRaise(rank, events, e) && FirstRaise(rank, events, g) && e.participantId == g.participantId
    ensures e == g
  {
    if e.eventId != g.eventId {
      assert rank(e.eventId) != rank(g.eventId);
      assert Before(rank, e, g) || Before(rank, g, e);
      NotBothFirst(rank, events, e, g);
      NotBothFirst(rank, events, g, e);
    }
  }

  /** A participant is queued at `r` exactly when `r` is their first raise after their
      last lower. */
  lemma QueuedIff(rank: Collation, events: seq<HandEvent>, p: Str, r: int)
    requires TotalOrder(rank) && Consistent(events)
    ensures RaisedHand(p, r) in Project(rank, events).queue <==>
            exists e :: FirstRaise(rank, events, e) && e.participantId == p && e.serverSequence == r
  {
    var sorted := SortBy(EventKey(rank), events);
    var raised := FoldAll(sorted).raised;
    SortedInv(rank, events);
    SortKeeps(HandKey(rank), raised);
    HasRaisedMeans(raised, p);
    assert Knows(rank, sorted, raised, p);
    hide SortBy, FoldAll;
    forall e ensures FirstRaise(rank, events, e) <==> FirstRaise(rank, sorted, e) {
      MembersDecide(rank, events, sorted, e);
    }
    if RaisedHand(p, r) in raised {
      var e :| FirstRaise(rank, sorted, e) && e.participantId == p && RaisedHand(p, e.serverSequence) in raised;
      assert FirstRaise(rank, events, e);
    }
    if e :| FirstRaise(rank, events, e) && e.participantId == p && e.serverSequence == r {
      assert FirstRaise(rank, sorted, e);
      assert HasRaised(raised, p);
      var g :| FirstRaise(rank, sorted, g) && g.participantId == p && RaisedHand(p, g.serverSequence) in raised;
      assert Consistent(sorted);
      OnlyOneFirst(rank, sorted, e, g);
    }
  }

  /** The queue lists every queued participant once, in the order of their raises. */
  lemma QueueIsOrdered(rank: Collation, events: seq<HandEvent>)
    requires TotalOrder(rank) && Consistent(events)
    ensures var queue := Project(rank, events).queue;
            NoRepeats(queue) && DistinctHands(queue) && Ordered(HandKey(rank), queue)
  {
    var raised := FoldAll(SortBy(EventKey(rank), events)).raised;
    SortedInv(rank, events);
    hide FoldAll;
    SortSorts(HandKey(rank), raised);
    SortKeeps(HandKey(rank), raised);
    SortNoRepeats(HandKey(rank), raised);
  }

  lemma {:induction false} InsertNoRepeats<T>(key: T -> Key, x: T, xs: seq<T>)
    requires NoRepeats(xs) && x !in xs
    ensures NoRepeats(Insert(key, x, xs)) && forall y :: y in Insert(key, x, xs) <==> y == x || y in xs
  {
    if xs == [] || Less(key(x), key(xs[0])) {
    } else {
      assert xs == [xs[0]] + xs[1..];
      InsertNoRepeats(key, x, xs[1..]);
      var r := Insert(key, x, xs[1..]);
      assert xs[0] !in xs[1..];
      forall j | 0 <= j < |r| ensures r[j] != xs[0] {
        assert r[j] in r;
      }
    }
  }

  lemma {:induction false} SortNoRepeats<T>(key: T -> Key, xs: seq<T>)
    requires NoRepeats(xs)
    ensures NoRepeats(SortBy(key, xs))
  {
    if xs != [] {
      var init, last := xs[..|xs| - 1], xs[|xs| - 1];
      SortNoRepeats(key, init);
      SortKeeps(key, init);
      InsertNoRepeats(key, last, SortBy(key, init));
    }
  }

  /** Events delivered in any order and any number of times give the same queue and
      the same last sequence. */
  lemma OrderIndependent(rank: Collation, xs: seq<HandEvent>, ys: seq<HandEvent>)
    requires TotalOrder(rank) && Consistent(xs) && SameMembers(xs, ys)
    ensures Project(rank, xs).queue == Project(rank, ys).queue
    ensures Project(rank, xs).lastServerSequence == Project(rank, ys).lastServerSequence
  {
    assert Consistent(ys);
    var q, r := Project(rank, xs).queue, Project(rank, ys).queue;
    QueueIsOrdered(rank, xs);
    QueueIsOrdered(rank, ys);
    LastIsMax(rank, xs);
    LastIsMax(rank, ys);
    hide Project;
    forall h ensures h in q <==> h in r {
      QueuedIff(rank, xs, h.participantId, h.raisedSequence);
      QueuedIff(rank, ys, h.participantId, h.raisedSequence);
      assert h == RaisedHand(h.participantId, h.raisedSequence);
      forall e ensures FirstRaise(rank, xs, e) <==> FirstRaise(rank, ys, e) {
        MembersDecide(rank, xs, ys, e);
      }
    }
    forall a, b | a in q && b in q && HandKey(rank)(a) == HandKey(rank)(b) ensures a == b {
      assert rank(a.participantId) == rank(b.participantId);
    }
    SameMembersSameList(HandKey(rank), q, r);
  }

  lemma LastIsMax(rank: Collation, events: seq<HandEvent>)
    requires TotalOrder(rank) && Consistent(events)
    ensures var last := Project(rank, events).lastServerSequence;
            && last >= 0 && (forall e :: e in events ==> e.serverSequence <= last)
            && (last == 0 || exists e :: e in events && e.serverSequence == last)
  {
    SortedInv(rank, events);
    hide FoldAll, SortBy, Knows;
    var sorted, last := SortBy(EventKey(rank), events), Project(rank, events).lastServerSequence;
    if last != 0 {
      var e :| e in sorted && e.serverSequence == last;
      assert e in events;
    }
  }

  /** The duplicates are the deliveries beyond the first of each event. */
  lemma DuplicatesCounted(rank: Collation, events: seq<HandEvent>)
    requires TotalOrder(rank) && Consistent(events)
    ensures Project(rank, events).duplicateEventCount == |events| - |set e | e in events :: e.eventId|
  {
    SortedInv(rank, events);
    var sorted := SortBy(EventKey(rank), events);
    assert (set e | e in sorted :: e.eventId) == set e | e in events :: e.eventId;
  }
}
