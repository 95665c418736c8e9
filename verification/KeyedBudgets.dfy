/** Rolling budgets kept per key: tenant operations and actor reconnects. Every
    call prunes the events of all keys. */
module KeyedBudgets {
  import opened Wrappers
  import opened Text
  import opened KeyParts
  import opened RollingWindow

  type Events = map<Str, seq<Event>>

  /** The recent events of every key that has any. */
  function PrunedAll(m: Events, cutoff: int): Events
  {
    map k | k in m && Since(m[k], cutoff) != [] :: Since(m[k], cutoff)
  }

  predicate Behind(es: seq<Event>, now: int)
  {
    es != [] && now < es[|es| - 1].at
  }

  /** The clock is behind an event that is still kept. */
  predicate ClockBehind(m: Events, now: int)
  {
    exists k :: k in m && Behind(m[k], now)
  }

  /** Some keys of `was` have been pruned and the others are as they were. */
  ghost predicate PartlyPruned(was: Events, m: Events, cutoff: int)
  {
    && (forall k :: k in m ==> k in was && (m[k] == was[k] || m[k] == Since(was[k], cutoff)))
    && (forall k :: k in was && k !in m ==> Since(was[k], cutoff) == [])
  }

  /** Prunes key by key, in any order, and stops at the first key that has an event
      later than `now`. */
  method PruneKeys(m: Events, now: int, cutoff: int) returns (r: Events, behind: bool)
    ensures behind == ClockBehind(m, now)
    ensures !behind ==> r == PrunedAll(m, cutoff)
    ensures behind ==> PartlyPruned(m, r, cutoff)
  {
    r, behind := m, false;
    var todo := m.Keys;
    while todo != {}
      invariant todo <= m.Keys && todo <= r.Keys <= m.Keys
      invariant forall k :: k in todo ==> r[k] == m[k]
      invariant forall k :: k in m && k !in todo ==> !Behind(m[k], now)
      invariant forall k :: k in m && k !in todo ==> (k in r <==> Since(m[k], cutoff) != [])
      invariant forall k :: k in r && k !in todo ==> r[k] == Since(m[k], cutoff)
      decreases |todo|
    {
      hide Since;
      var k :| k in todo;
      if Behind(r[k], now) {
        behind := true;
        return;
      }
      var recent, _ := Prune(r[k], Sum(r[k], 0, |r[k]|), cutoff);
      r := if recent == [] then r - {k} else r[k := recent];
      todo := todo - {k};
    }
  }

  function EventsOf(m: Events, key: Str): seq<Event>
  {
    if key in m then m[key] else []
  }

  /** One call whose clock is not behind: prune, then charge if the rest fits. */
  function Spent(m: Events, key: Str, n: nat, limit: int, now: int, window: nat): (Events, bool)
  {
    var p := PrunedAll(m, now - window);
    var es := EventsOf(p, key);
    if Sum(es, 0, |es|) + n > limit then (p, false) else (p[key := es + [Event(now, n)]], true)
  }

  datatype BudgetDenial = InputInvalid | ClockInvalid | QuotaExceeded

  // ----- the whole history -----

  /** One request: `limit` is what the policy and the caller's scope allow together. */
  datatype Call = Call(key: Str, amount: nat, limit: int, now: int)

  /** What the policy keeps, and everything that it ever accepted, both per key. */
  datatype Ledger = Ledger(kept: Events, log: Events)

  /** What one call does: a clock that is seen to be behind may leave some keys pruned. */
  ghost predicate Charged(m: Events, c: Call, window: nat, m': Events, accepted: bool)
  {
    if ClockBehind(m, c.now) then !accepted && PartlyPruned(m, m', c.now - window)
    else (m', accepted) == Spent(m, c.key, c.amount, c.limit, c.now, window)
  }

  function Logged(log: Events, c: Call, accepted: bool): Events
  {
    if accepted then log[c.key := EventsOf(log, c.key) + [Event(c.now, c.amount)]] else log
  }

  ghost predicate Step(s: Ledger, c: Call, window: nat, t: Ledger)
  {
    || (Charged(s.kept, c, window, t.kept, true) && t.log == Logged(s.log, c, true))
    || (Charged(s.kept, c, window, t.kept, false) && t.log == s.log)
  }

  /** Some run of these calls, from an empty policy, ends in `s`. */
  ghost predicate Reaches(calls: seq<Call>, window: nat, s: Ledger)
    decreases |calls|
  {
    if calls == [] then s == Ledger(map[], map[])
    else
      var init, c := calls[..|calls| - 1], calls[|calls| - 1];
      exists r :: Reaches(init, window, r) && Step(r, c, window, s)
  }

  /** Positive amounts of at most `most`, limits of at most `maximum`. */
  ghost predicate Reasonable(calls: seq<Call>, maximum: nat, most: nat)
  {
    forall i :: 0 <= i < |calls| ==> 0 < calls[i].amount <= most && calls[i].limit <= maximum
  }

  /** No reading lies more than `drift` below an earlier one. */
  ghost predicate Steady(calls: seq<Call>, drift: nat)
  {
    && (forall i :: 0 <= i < |calls| ==> ValidClock(calls[i].now))
    && (forall i, j :: 0 <= i <= j < |calls| ==> calls[i].now - drift <= calls[j].now)
  }

  ghost predicate Heavy(es: seq<Event>)
  {
    forall i :: 0 <= i < |es| ==> es[i].weight > 0
  }

  /** What is kept of a log: its end, without some events that were out of the window
      at the highest reading so far. */
  ghost predicate Kept(log: seq<Event>, kept: seq<Event>, high: int, window: nat)
  {
    && |kept| <= |log| && SuffixAt(log, kept, |log| - |kept|)
    && forall i :: 0 <= i < |log| - |kept| ==> log[i].at <= high - window
  }

  /** No stretch of length `span` overruns the limit, and nothing of it is forgotten. */
  ghost predicate LogInv(log: seq<Event>, kept: seq<Event>, high: int, window: nat, span: nat, maximum: nat)
  {
    Sorted(log) && UpTo(log, high) && Heavy(log) && Within(log, span, maximum, maximum) && Kept(log, kept, high, window)
  }

  ghost predicate Inv(s: Ledger, high: int, window: nat, span: nat, maximum: nat)
  {
    forall k :: LogInv(EventsOf(s.log, k), EventsOf(s.kept, k), high, window, span, maximum)
  }

  function Lower(a: int, b: int): int
  {
    if a < b then a else b
  }

  function Higher(a: int, b: int): int
  {
    if a < b then b else a
  }

  /** The highest reading so far. */
  function High(calls: seq<Call>): int
  {
    if calls == [] then 0 else Higher(High(calls[..|calls| - 1]), calls[|calls| - 1].now)
  }

  lemma {:induction false} CountBelowWeight(es: seq<Event>, i: nat, j: nat)
    requires Heavy(es) && i <= j <= |es|
    ensures j - i <= Sum(es, i, j)
  {
    if i < j {
      CountBelowWeight(es, i, j - 1);
    }
  }

  /** Pruning drops what is out of the window now, and nothing else. */
  lemma PrunedKept(log: seq<Event>, kept: seq<Event>, high: int, window: nat, now: int)
    requires Sorted(log) && Kept(log, kept, high, window)
    ensures Kept(log, Since(kept, now - window), Higher(high, now), window)
  {
    var k, p := First(kept, now - window, 0), |log| - |kept|;
    forall i | 0 <= i < p + k ensures log[i].at <= Higher(high, now) - window {
      if i >= p { assert kept[k - 1] == log[p + (k - 1)]; }
    }
  }

  lemma SameKept(log: seq<Event>, kept: seq<Event>, high: int, window: nat, now: int)
    requires Kept(log, kept, high, window)
    ensures Kept(log, kept, Higher(high, now), window)
  {
  }

  /** The recent end of the kept events weighs what the log weighs there. */
  lemma KeptWeight(log: seq<Event>, kept: seq<Event>, high: int, window: nat, lo: int)
    requires Sorted(log) && Kept(log, kept, high, window) && high - window <= lo
    ensures |log| - |kept| <= First(log, lo, 0)
    ensures WeightSince(kept, lo) == WeightSince(log, lo)
  {
    var p, f := |log| - |kept|, First(kept, lo, 0);
    assert f < |kept| ==> kept[f] == log[p + f];
    assert f > 0 ==> kept[f - 1] == log[p + (f - 1)];
    FirstIs(log, lo, p + f);
    SumOfSuffix(log, kept, p, f, |kept|);
  }

  lemma LaterIsLess(es: seq<Event>, lo: int, lo': int)
    requires Sorted(es) && lo <= lo'
    ensures WeightSince(es, lo') <= WeightSince(es, lo)
  {
    FirstTwice(es, lo, lo');
    SumSplit(es, First(es, lo, 0), First(es, lo', 0), |es|);
  }

  lemma RecentWeight(es: seq<Event>, lo: int)
    ensures Sum(Since(es, lo), 0, |Since(es, lo)|) == WeightSince(es, lo)
  {
    SumTwice(es, First(es, lo, 0), 0);
  }

  /** What a call weighs against its limit lies between the log's weights of the window
      and of the window shortened by the drift. */
  lemma UsedBetween(log: seq<Event>, kept: seq<Event>, high: int, window: nat, drift: nat, now: int)
    requires Sorted(log) && Kept(log, kept, high, window) && high - drift <= now
    ensures var recent := Since(kept, now - window);
            WeightSince(log, now - (window - drift)) <= Sum(recent, 0, |recent|) <= WeightSince(log, now - window)
  {
    var p := |log| - |kept|;
    RecentWeight(kept, now - window);
    hide Sorted, Since;
    KeptWeight(log, kept, high, window, now - window + drift);
    KeptSorted(log, kept, p);
    LaterIsLess(kept, now - window, now - window + drift);
    KeptBelow(log, kept, p, now - window);
  }

  lemma KeptSorted(log: seq<Event>, kept: seq<Event>, p: nat)
    requires Sorted(log) && SuffixAt(log, kept, p)
    ensures Sorted(kept)
  {
    assert forall i :: 0 <= i < |kept| ==> kept[i] == log[p + i];
  }

  lemma KeptBelow(log: seq<Event>, kept: seq<Event>, p: nat, lo: int)
    requires Sorted(log) && SuffixAt(log, kept, p)
    ensures WeightSince(kept, lo) <= WeightSince(log, lo)
  {
    var f, g := First(kept, lo, 0), First(log, lo, 0);
    SumOfSuffix(log, kept, p, f, |kept|);
    assert f > 0 ==> kept[f - 1] == log[p + (f - 1)];
    assert f < |kept| ==> kept[f] == log[p + f];
    assert forall i :: 0 <= i < g ==> log[i].at <= lo;
    SumSplit(log, g, p + f, |log|);
  }

  /** An accepted call comes after everything accepted for its key. */
  lemma AcceptedIsLast(log: seq<Event>, kept: seq<Event>, high: int, window: nat, drift: nat, now: int)
    requires Sorted(log) && Kept(log, kept, high, window) && high - drift <= now && drift < window
    requires !Behind(kept, now)
    ensures UpTo(log, now)
  {
    if kept != [] {
      assert kept[|kept| - 1] == log[|log| - |kept| + (|kept| - 1)];
    }
  }

  lemma AcceptedInv(log: seq<Event>, kept: seq<Event>, high: int, window: nat, drift: nat, maximum: nat, c: Call)
    requires drift < window && LogInv(log, kept, high, window, window - drift, maximum)
    requires high - drift <= c.now && !Behind(kept, c.now) && 0 < c.amount && c.limit <= maximum
    requires var recent := Since(kept, c.now - window); Sum(recent, 0, |recent|) + c.amount <= c.limit
    ensures var e := Event(c.now, c.amount);
            LogInv(log + [e], Since(kept, c.now - window) + [e], Higher(high, c.now), window, window - drift, maximum)
  {
    var e, recent := Event(c.now, c.amount), Since(kept, c.now - window);
    hide Since, Sum, First, Kept, SuffixAt;
    AcceptedIsLast(log, kept, high, window, drift, c.now);
    UsedBetween(log, kept, high, window, drift, c.now);
    CountBelowWeight(log, First(log, c.now - (window - drift), 0), |log|);
    AppendSorted(log, e);
    hide Sorted, Within;
    AppendKeepsWithin(log, e, window - drift, maximum, maximum);
    PrunedKept(log, kept, high, window, c.now);
    AppendKept(log, recent, Higher(high, c.now), window, e);
  }

  lemma AppendKept(log: seq<Event>, kept: seq<Event>, high: int, window: nat, e: Event)
    requires Kept(log, kept, high, window)
    ensures Kept(log + [e], kept + [e], high, window)
  {
  }

  lemma PrunedEvents(m: Events, cutoff: int, k: Str)
    ensures EventsOf(PrunedAll(m, cutoff), k) == Since(EventsOf(m, k), cutoff)
  {
  }

  lemma PartlyPrunedEvents(m: Events, m': Events, cutoff: int, k: Str)
    requires PartlyPruned(m, m', cutoff)
    ensures EventsOf(m', k) == EventsOf(m, k) || EventsOf(m', k) == Since(EventsOf(m, k), cutoff)
  {
  }

  lemma RefusedInv(log: seq<Event>, kept: seq<Event>, high: int, window: nat, span: nat, maximum: nat, now: int)
    requires LogInv(log, kept, high, window, span, maximum)
    ensures LogInv(log, Since(kept, now - window), Higher(high, now), window, span, maximum)
    ensures LogInv(log, kept, Higher(high, now), window, span, maximum)
  {
    hide Since, Within, Heavy;
    PrunedKept(log, kept, high, window, now);
    SameKept(log, kept, high, window, now);
    UpToLater(log, high, Higher(high, now));
  }

  lemma StepInv(s: Ledger, c: Call, t: Ledger, high: int, window: nat, drift: nat, maximum: nat)
    requires drift < window && Inv(s, high, window, window - drift, maximum) && Step(s, c, window, t)
    requires high - drift <= c.now && 0 < c.amount && c.limit <= maximum
    ensures Inv(t, Higher(high, c.now), window, window - drift, maximum)
  {
    hide LogInv, Since, Sum, PrunedAll, PartlyPruned;
    var span, cutoff := window - drift, c.now - window;
    forall k
      ensures LogInv(EventsOf(t.log, k), EventsOf(t.kept, k), Higher(high, c.now), window, span, maximum)
    {
      RefusedInv(EventsOf(s.log, k), EventsOf(s.kept, k), high, window, span, maximum, c.now);
      PrunedEvents(s.kept, cutoff, k);
      if ClockBehind(s.kept, c.now) {
        PartlyPrunedEvents(s.kept, t.kept, cutoff, k);
      } else if k == c.key && t.log != s.log {
        AcceptedInv(EventsOf(s.log, k), EventsOf(s.kept, k), high, window, drift, maximum, c);
      }
    }
  }

  lemma CallsPrefix(calls: seq<Call>, maximum: nat, most: nat, drift: nat)
    requires calls != [] && Reasonable(calls, maximum, most) && Steady(calls, drift)
    ensures Reasonable(calls[..|calls| - 1], maximum, most) && Steady(calls[..|calls| - 1], drift)
  {
  }

  lemma {:induction false} HighBound(calls: seq<Call>, drift: nat, now: nat)
    requires forall i :: 0 <= i < |calls| ==> calls[i].now - drift <= now
    ensures High(calls) - drift <= now
  {
    if calls != [] {
      HighBound(calls[..|calls| - 1], drift, now);
    }
  }

  // ----- a budget over a window is one over the window less the drift -----

  lemma NothingInv(window: nat, span: nat, maximum: nat)
    ensures Inv(Ledger(map[], map[]), 0, window, span, maximum)
  {
  }

  /** In every run, however far a clock with this drift falls back, the kept events
      stand for the log, and no stretch of the shortened window overruns the limit. */
  lemma {:induction false} RunInv(calls: seq<Call>, s: Ledger, window: nat, drift: nat, maximum: nat, most: nat)
    requires drift < window && Reasonable(calls, maximum, most) && Steady(calls, drift) && Reaches(calls, window, s)
    ensures Inv(s, High(calls), window, window - drift, maximum)
    decreases |calls|
  {
    hide Inv, Step;
    if calls == [] {
      NothingInv(window, window - drift, maximum);
    } else {
      var init, c := calls[..|calls| - 1], calls[|calls| - 1];
      var r :| Reaches(init, window, r) && Step(r, c, window, s);
      CallsPrefix(calls, maximum, most, drift);
      RunInv(init, r, window, drift, maximum, most);
      HighBound(init, drift, c.now);
      hide Reasonable, Steady, Reaches;
      StepInv(r, c, s, High(init), window, drift, maximum);
    }
  }

  /** The rule over everything ever accepted for the key. */
  predicate Allowed(log: Events, c: Call, window: int)
  {
    WeightSince(EventsOf(log, c.key), c.now - window) + c.amount <= c.limit
  }

  /** After any such run a call that the whole history of the window allows is accepted
      unless the clock is seen to be behind, and an accepted call is allowed by the
      whole history of the shortened window. Without drift the two are one rule, and
      the clock is never seen to be behind. */
  lemma WholeHistoryDecides(calls: seq<Call>, s: Ledger, c: Call, window: nat, drift: nat, maximum: nat, most: nat)
    requires drift < window && Reasonable(calls + [c], maximum, most) && Steady(calls + [c], drift)
    requires Reaches(calls, window, s)
    ensures Allowed(s.log, c, window) ==> Spent(s.kept, c.key, c.amount, c.limit, c.now, window).1
    ensures Spent(s.kept, c.key, c.amount, c.limit, c.now, window).1 ==> Allowed(s.log, c, window - drift)
    ensures drift == 0 ==> !ClockBehind(s.kept, c.now)
    ensures forall k :: k in s.log ==> Within(s.log[k], window - drift, maximum, maximum)
  {
    var all := calls + [c];
    assert all[|calls|] == c && all[..|all| - 1] == calls;
    assert forall i :: 0 <= i < |calls| ==> all[i] == calls[i];
    CallsPrefix(all, maximum, most, drift);
    RunInv(calls, s, window, drift, maximum, most);
    HighBound(calls, drift, c.now);
    hide Reaches, Reasonable, Steady, Inv, Spent, Allowed, ClockBehind;
    InvDecides(s, High(calls), c, window, drift, maximum);
  }

  lemma InvDecides(s: Ledger, high: int, c: Call, window: nat, drift: nat, maximum: nat)
    requires drift < window && Inv(s, high, window, window - drift, maximum) && high - drift <= c.now
    ensures Allowed(s.log, c, window) ==> Spent(s.kept, c.key, c.amount, c.limit, c.now, window).1
    ensures Spent(s.kept, c.key, c.amount, c.limit, c.now, window).1 ==> Allowed(s.log, c, window - drift)
    ensures drift == 0 ==> !ClockBehind(s.kept, c.now)
    ensures forall k :: k in s.log ==> Within(s.log[k], window - drift, maximum, maximum)
  {
    hide Sum, Since, WeightSince, Sorted, Within, Heavy, Kept, UpTo, PrunedAll;
    forall k
      ensures Sorted(EventsOf(s.log, k)) && UpTo(EventsOf(s.log, k), high)
      ensures Within(EventsOf(s.log, k), window - drift, maximum, maximum)
      ensures Kept(EventsOf(s.log, k), EventsOf(s.kept, k), high, window)
    {
      assert LogInv(EventsOf(s.log, k), EventsOf(s.kept, k), high, window, window - drift, maximum);
    }
    UsedBetween(EventsOf(s.log, c.key), EventsOf(s.kept, c.key), high, window, drift, c.now);
    PrunedEvents(s.kept, c.now - window, c.key);
    forall k | k in s.kept && high <= c.now ensures !Behind(s.kept[k], c.now) {
      KeptUpTo(EventsOf(s.log, k), s.kept[k], high, window, c.now);
    }
    forall k | k in s.log ensures Within(s.log[k], window - drift, maximum, maximum) {
      assert EventsOf(s.log, k) == s.log[k];
    }
    hide Behind, EventsOf;
  }

  lemma KeptUpTo(log: seq<Event>, kept: seq<Event>, high: int, window: nat, now: int)
    requires Kept(log, kept, high, window) && UpTo(log, high) && high <= now
    ensures !Behind(kept, now)
  {
    if kept != [] {
      assert kept[|kept| - 1] == log[|log| - |kept| + (|kept| - 1)];
    }
  }

  // ----- and no longer one -----

  /** `n` calls of amount one at one instant. */
  function Burst(t: int, n: nat): (r: seq<Event>)
    ensures |r| == n && forall i :: 0 <= i < n ==> r[i] == Event(t, 1)
  {
    seq(n, i => Event(t, 1))
  }

  lemma {:induction false} BurstSum(t: int, n: nat, m: nat)
    requires m <= n
    ensures Sum(Burst(t, n), 0, m) == m
  {
    if m > 0 {
      BurstSum(t, n, m - 1);
    }
  }

  lemma BurstSince(t: int, n: nat, lo: int)
    ensures Since(Burst(t, n), lo) == if lo < t then Burst(t, n) else []
  {
    FirstIs(Burst(t, n), lo, if lo < t then 0 else n);
  }

  function Repeat(c: Call, n: nat): seq<Call>
  {
    seq(n, i => c)
  }

  function Put(m: Events, k: Str, es: seq<Event>): Events
  {
    if es == [] then m else m[k := es]
  }

  /** No key has an event that pruning at `t` drops, or that lies after `t`. */
  ghost predicate Recent(m: Events, t: int, window: nat)
  {
    forall j :: j in m ==> !Behind(m[j], t) && m[j] != [] && Since(m[j], t - window) == m[j]
  }

  lemma StepReaches(calls: seq<Call>, r: Ledger, c: Call, window: nat, s: Ledger)
    requires Reaches(calls, window, r) && Step(r, c, window, s)
    ensures Reaches(calls + [c], window, s)
  {
    assert (calls + [c])[..|calls|] == calls;
  }

  /** A policy with nothing kept for a key accepts as many calls at once as the limit. */
  lemma {:induction false} Fill(calls: seq<Call>, s: Ledger, c: Call, window: nat, n: nat)
    requires Reaches(calls, window, s) && window > 0 && c.amount == 1 && n <= c.limit
    requires Recent(s.kept, c.now, window) && c.key !in s.kept && c.key !in s.log
    ensures Reaches(calls + Repeat(c, n), window,
                    Ledger(Put(s.kept, c.key, Burst(c.now, n)), Put(s.log, c.key, Burst(c.now, n))))
  {
    if n == 0 {
      assert calls + Repeat(c, 0) == calls;
    } else {
      hide Recent, Burst, Step, Put, Reaches;
      Fill(calls, s, c, window, n - 1);
      var r := Ledger(Put(s.kept, c.key, Burst(c.now, n - 1)), Put(s.log, c.key, Burst(c.now, n - 1)));
      var t := Ledger(Put(s.kept, c.key, Burst(c.now, n)), Put(s.log, c.key, Burst(c.now, n)));
      OneMore(s, c, window, n);
      StepReaches(calls + Repeat(c, n - 1), r, c, window, t);
      assert calls + Repeat(c, n - 1) + [c] == calls + Repeat(c, n);
    }
  }

  lemma RecentBurst(m: Events, k: Str, t: int, n: nat, window: nat)
    requires Recent(m, t, window) && window > 0
    ensures Recent(Put(m, k, Burst(t, n)), t, window)
  {
    BurstSince(t, n, t - window);
    hide Since;
  }

  lemma ChargedRecent(m: Events, c: Call, window: nat)
    requires Recent(m, c.now, window)
    requires Sum(EventsOf(m, c.key), 0, |EventsOf(m, c.key)|) + c.amount <= c.limit
    ensures Charged(m, c, window, m[c.key := EventsOf(m, c.key) + [Event(c.now, c.amount)]], true)
  {
    hide Since, Sum;
    assert PrunedAll(m, c.now - window) == m;
  }

  lemma OneMore(s: Ledger, c: Call, window: nat, n: nat)
    requires 0 < n <= c.limit && window > 0 && c.amount == 1
    requires Recent(s.kept, c.now, window) && c.key !in s.kept && c.key !in s.log
    ensures Step(Ledger(Put(s.kept, c.key, Burst(c.now, n - 1)), Put(s.log, c.key, Burst(c.now, n - 1))), c, window,
                 Ledger(Put(s.kept, c.key, Burst(c.now, n)), Put(s.log, c.key, Burst(c.now, n))))
  {
    hide Since, Sum, Burst, Recent, Charged, Step;
    var before, after := Burst(c.now, n - 1), Burst(c.now, n);
    var m, log := Put(s.kept, c.key, before), Put(s.log, c.key, before);
    RecentBurst(s.kept, c.key, c.now, n - 1, window);
    BurstSum(c.now, n - 1, n - 1);
    BurstGrows(c.now, n);
    PutOver(s.kept, c.key, before, after);
    PutOver(s.log, c.key, before, after);
    hide Put, EventsOf;
    ChargedRecent(m, c, window);
    StepOf(Ledger(m, log), c, window, Ledger(m[c.key := after], log[c.key := after]));
  }

  lemma StepOf(s: Ledger, c: Call, window: nat, t: Ledger)
    requires Charged(s.kept, c, window, t.kept, true) && t.log == Logged(s.log, c, true)
    ensures Step(s, c, window, t)
  {
  }

  lemma BurstGrows(t: int, n: nat)
    requires n > 0
    ensures Burst(t, n - 1) + [Event(t, 1)] == Burst(t, n)
  {
  }

  lemma PutOver(m: Events, k: Str, before: seq<Event>, after: seq<Event>)
    requires k !in m && after != []
    ensures EventsOf(Put(m, k, before), k) == before
    ensures Put(m, k, before)[k := after] == Put(m, k, after)
  {
  }

  const A: Str := [97]
  const B: Str := [98]

  /** One key fills its budget and another one a moment later; a call that is refused
      when the first key has just left the window forgets it; then the clock falls back. */
  function Fallback(window: nat, drift: nat, limit: nat): seq<Call>
  {
    Repeat(Call(A, 1, limit, 0), limit) + Repeat(Call(B, 1, limit, 1), limit)
    + [Call(B, 1, limit, window)] + [Call(A, 1, limit, window - drift)]
  }

  lemma FallbackIsSteady(window: nat, drift: nat, limit: nat, most: nat)
    requires drift < window && ValidClock(window) && most > 0
    ensures Reasonable(Fallback(window, drift, limit), limit, most) && Steady(Fallback(window, drift, limit), drift)
  {
    var calls := Fallback(window, drift, limit);
    assert |calls| == 2 * limit + 2;
    forall i | 0 <= i < |calls|
      ensures calls[i].now == if i < limit then 0 else if i < 2 * limit then 1
                              else if i == 2 * limit then window else window - drift
      ensures calls[i].amount == 1 && calls[i].limit == limit
    {
    }
  }

  function Filled(limit: nat): Events
  {
    map[A := Burst(0, limit), B := Burst(1, limit)]
  }

  lemma FallbackFills(window: nat, limit: nat)
    requires window > 1 && limit > 0
    ensures Reaches(Repeat(Call(A, 1, limit, 0), limit) + Repeat(Call(B, 1, limit, 1), limit), window,
                    Ledger(Filled(limit), Filled(limit)))
  {
    var a, b := Call(A, 1, limit, 0), Call(B, 1, limit, 1);
    var one: Events := map[A := Burst(0, limit)];
    BurstSince(0, limit, 1 - window);
    hide Since, Step;
    assert Reaches([], window, Ledger(map[], map[]));
    assert Recent(one, 1, window);
    assert Recent(map[], 0, window);
    assert Burst(0, limit) != [] && Burst(1, limit) != [];
    hide Reaches, Recent, Burst;
    Fill([], Ledger(map[], map[]), a, window, limit);
    assert [] + Repeat(a, limit) == Repeat(a, limit);
    Fill(Repeat(a, limit), Ledger(one, one), b, window, limit);
    assert one[B := Burst(1, limit)] == Filled(limit);
  }

  lemma RefusalForgets(window: nat, limit: nat)
    requires window > 1 && limit > 0
    ensures Charged(Filled(limit), Call(B, 1, limit, window), window, map[B := Burst(1, limit)], false)
  {
    BurstSince(0, limit, 0);
    BurstSince(1, limit, 0);
    BurstSum(1, limit, limit);
    hide Since, Sum;
    assert PrunedAll(Filled(limit), 0) == map[B := Burst(1, limit)];
  }

  /** The accepted calls of the first key after the fallback. */
  function Overrun(window: nat, drift: nat, limit: nat): seq<Event>
    requires drift <= window
  {
    Burst(0, limit) + [Event(window - drift, 1)]
  }

  lemma FallbackReaches(window: nat, drift: nat, limit: nat) returns (s: Ledger)
    requires drift < window && window > 1 && limit > 0
    ensures Reaches(Fallback(window, drift, limit), window, s)
    ensures A in s.log && s.log[A] == Overrun(window, drift, limit)
  {
    hide Since, Sum, Reaches, Step, Charged;
    var refused, back := Call(B, 1, limit, window), Call(A, 1, limit, window - drift);
    var filled := Repeat(Call(A, 1, limit, 0), limit) + Repeat(Call(B, 1, limit, 1), limit);
    var q, r := Ledger(Filled(limit), Filled(limit)), Ledger(map[B := Burst(1, limit)], Filled(limit));
    s := Ledger(r.kept[A := [Event(back.now, 1)]], Logged(r.log, back, true));
    FallbackFills(window, limit);
    RefusalForgets(window, limit);
    FallbackAccepted(window, drift, limit);
    RefusedStep(q, refused, window, r);
    StepOf(r, back, window, s);
    StepReaches(filled, q, refused, window, r);
    StepReaches(filled + [refused], r, back, window, s);
  }

  lemma RefusedStep(s: Ledger, c: Call, window: nat, t: Ledger)
    requires Charged(s.kept, c, window, t.kept, false) && t.log == s.log
    ensures Step(s, c, window, t)
  {
  }

  lemma FallbackAccepted(window: nat, drift: nat, limit: nat)
    requires drift < window && limit > 0
    ensures var m, back := map[B := Burst(1, limit)], Call(A, 1, limit, window - drift);
            Charged(m, back, window, m[A := [Event(back.now, 1)]], true)
  {
    var m: Events, back := map[B := Burst(1, limit)], Call(A, 1, limit, window - drift);
    BurstSince(1, limit, 0 - drift);
    hide Since;
    assert Recent(m, back.now, window);
    assert Sum([], 0, 0) == 0;
    ChargedRecent(m, back, window);
    hide Charged;
    assert [] + [Event(back.now, 1)] == [Event(back.now, 1)];
  }

  lemma OverrunIsOver(window: nat, drift: nat, limit: nat, span: nat)
    requires drift < window && window - drift < span
    ensures !Within(Overrun(window, drift, limit), span, limit, limit)
  {
    var es := Overrun(window, drift, limit);
    assert OneWindow(es, span, 0, limit + 1);
  }

  // ----- exactly -----

  /** Every run of such calls, on a clock of that drift, keeps every stretch of length
      `span` of every key within the limit. */
  ghost predicate Holds(window: nat, maximum: nat, most: nat, drift: nat, span: nat)
  {
    forall calls, s :: Reasonable(calls, maximum, most) && Steady(calls, drift) && Reaches(calls, window, s) ==>
      forall k :: k in s.log ==> Within(s.log[k], span, maximum, maximum)
  }

  lemma ShorterIsWithin(es: seq<Event>, span: nat, span': nat, maximum: nat)
    requires Within(es, span, maximum, maximum) && span' <= span
    ensures Within(es, span', maximum, maximum)
  {
    forall i: nat, j: nat | i < j <= |es| && OneWindow(es, span', i, j)
      ensures j - i <= maximum && Sum(es, i, j) <= maximum
    {
      assert OneWindow(es, span, i, j);
    }
  }

  lemma ShorterHolds(window: nat, maximum: nat, most: nat, drift: nat, span: nat)
    requires drift < window && span <= window - drift
    ensures Holds(window, maximum, most, drift, span)
  {
    hide Reasonable, Steady, Reaches, Within, Inv;
    forall calls, s | Reasonable(calls, maximum, most) && Steady(calls, drift) && Reaches(calls, window, s)
      ensures forall k :: k in s.log ==> Within(s.log[k], span, maximum, maximum)
    {
      RunInv(calls, s, window, drift, maximum, most);
      InvWithin(s, High(calls), window, window - drift, maximum, span);
    }
  }

  lemma InvWithin(s: Ledger, high: int, window: nat, span: nat, maximum: nat, span': nat)
    requires Inv(s, high, window, span, maximum) && span' <= span
    ensures forall k :: k in s.log ==> Within(s.log[k], span', maximum, maximum)
  {
    hide Within, Sorted, Heavy, Kept, UpTo;
    forall k | k in s.log ensures Within(s.log[k], span', maximum, maximum) {
      assert LogInv(EventsOf(s.log, k), EventsOf(s.kept, k), high, window, span, maximum);
      ShorterIsWithin(s.log[k], span, span', maximum);
    }
  }

  lemma LongerFails(window: nat, maximum: nat, most: nat, drift: nat, span: nat)
    requires drift < window && 1 < window && ValidClock(window) && maximum > 0 && most > 0
    requires window - drift < span
    ensures !Holds(window, maximum, most, drift, span)
  {
    hide Reasonable, Steady, Reaches, Within, Fallback;
    FallbackIsSteady(window, drift, maximum, most);
    var s := FallbackReaches(window, drift, maximum);
    OverrunIsOver(window, drift, maximum, span);
  }

  /** A budget over a window, on a clock that may fall back by `drift`, is a budget over
      the window less the drift, and over nothing longer. */
  lemma BudgetSpansWindowLessDrift(window: nat, maximum: nat, most: nat, drift: nat, span: nat)
    requires drift < window && 1 < window && ValidClock(window) && maximum > 0 && most > 0
    ensures Holds(window, maximum, most, drift, span) <==> span <= window - drift
  {
    hide Holds;
    if span <= window - drift {
      ShorterHolds(window, maximum, most, drift, span);
    } else {
      LongerFails(window, maximum, most, drift, span);
    }
  }

  lemma SteadierHolds(window: nat, maximum: nat, most: nat, drift: nat, drift': nat, span: nat)
    requires Holds(window, maximum, most, drift, span) && drift' <= drift
    ensures Holds(window, maximum, most, drift', span)
  {
    hide Reasonable, Reaches, Within;
    forall calls, s | Reasonable(calls, maximum, most) && Steady(calls, drift') && Reaches(calls, window, s)
      ensures forall k :: k in s.log ==> Within(s.log[k], span, maximum, maximum)
    {
      assert Steady(calls, drift);
    }
  }

  /** The budget holds over its own window exactly when the clock never goes back. */
  lemma BudgetHoldsIff(window: nat, maximum: nat, most: nat, drift: nat)
    requires 1 < window && ValidClock(window) && maximum > 0 && most > 0
    ensures Holds(window, maximum, most, drift, window) <==> drift == 0
  {
    hide Holds;
    BudgetSpansWindowLessDrift(window, maximum, most, 0, window);
    if drift > 0 && Holds(window, maximum, most, drift, window) {
      SteadierHolds(window, maximum, most, drift, 1, window);
      BudgetSpansWindowLessDrift(window, maximum, most, 1, window);
      assert false;
    }
  }

  const MINUTE: nat := 60_000

  /** The tenant budget, also if every call spends one operation, as the update hook does. */
  lemma TenantBudgetHoldsIff(maximumOperationsPerMinute: nat, most: nat, drift: nat)
    requires PositiveSafe(maximumOperationsPerMinute) && most > 0
    ensures Holds(MINUTE, maximumOperationsPerMinute, most, drift, MINUTE) <==> drift == 0
  {
    BudgetHoldsIff(MINUTE, maximumOperationsPerMinute, most, drift);
  }

  class RuntimeTenantOperationPolicy {
    const maximumOperationsPerMinute: int
    var tenants: Events

    constructor (maximumOperationsPerMinute: int)
      requires PositiveSafe(maximumOperationsPerMinute)
      ensures this.maximumOperationsPerMinute == maximumOperationsPerMinute && tenants == map[]
    {
      this.maximumOperationsPerMinute, tenants := maximumOperationsPerMinute, map[];
    }

    method Consume(tenantId: Str, maxOperationsPerMinute: int, operations: int, now: int) returns (denial: Option<BudgetDenial>)
      modifies this
      ensures denial == Some(InputInvalid) <==>
              !ValidKeyPart(tenantId, 256) || !PositiveSafe(maxOperationsPerMinute) || !PositiveSafe(operations)
      ensures denial == Some(ClockInvalid) <==>
              denial != Some(InputInvalid) && (!ValidClock(now) || ClockBehind(old(tenants), now))
      ensures denial == Some(InputInvalid) || !ValidClock(now) ==> tenants == old(tenants)
      ensures denial != Some(InputInvalid) && ValidClock(now) ==>
              operations > 0
              && Charged(old(tenants), Call(tenantId, operations, Lower(maximumOperationsPerMinute, maxOperationsPerMinute), now),
                         MINUTE, tenants, denial.None?)
    {
      if !ValidKeyPart(tenantId, 256) || !PositiveSafe(maxOperationsPerMinute) || !PositiveSafe(operations) {
        return Some(InputInvalid);
      }
      if !ValidClock(now) {
        return Some(ClockInvalid);
      }
      var pruned, behind := PruneKeys(tenants, now, now - MINUTE);
      tenants := pruned;
      if behind {
        return Some(ClockInvalid);
      }
      var events := EventsOf(tenants, tenantId);
      var used := Sum(events, 0, |events|);
      var limit := Lower(maximumOperationsPerMinute, maxOperationsPerMinute);
      if used + operations > limit {
        return Some(QuotaExceeded);
      }
      tenants := tenants[tenantId := events + [Event(now, operations)]];
      return None;
    }
  }
}
