/** Budgets over a sliding window: what a list of recent events says about the
    whole history it was pruned from. */
module RollingWindow {

  datatype Event = Event(at: int, weight: nat)

  /** In the order of their times. */
  predicate Sorted(es: seq<Event>)
  {
    forall i, j :: 0 <= i <= j < |es| ==> es[i].at <= es[j].at
  }

  predicate UpTo(es: seq<Event>, t: int)
  {
    es != [] ==> es[|es| - 1].at <= t
  }

  /** The weight of the events from `i` up to `j`. */
  function Sum(es: seq<Event>, i: nat, j: nat): nat
    requires i <= j <= |es|
  {
    if i == j then 0 else Sum(es, i, j - 1) + es[j - 1].weight
  }

  /** From `from` on, where the events later than `lo` begin. */
  function First(es: seq<Event>, lo: int, from: nat): (k: nat)
    requires from <= |es|
    ensures from <= k <= |es|
    ensures k > from ==> es[k - 1].at <= lo
    ensures k < |es| ==> es[k].at > lo
    decreases |es| - from
  {
    if from < |es| && es[from].at <= lo then First(es, lo, from + 1) else from
  }

  /** The events later than `lo`, their number and their weight. */
  function Since(es: seq<Event>, lo: int): seq<Event>
  {
    es[First(es, lo, 0)..]
  }

  function CountSince(es: seq<Event>, lo: int): nat
  {
    |es| - First(es, lo, 0)
  }

  lemma CountIsLength(es: seq<Event>, lo: int)
    ensures |Since(es, lo)| == CountSince(es, lo)
  {
  }

  function WeightSince(es: seq<Event>, lo: int): nat
  {
    Sum(es, First(es, lo, 0), |es|)
  }

  /** Events `i` up to `j` fall into one window that is open at its older end. */
  predicate OneWindow(es: seq<Event>, window: nat, i: nat, j: nat)
    requires i < j <= |es|
  {
    es[j - 1].at - es[i].at < window
  }

  /** No window of length `window`, wherever it lies, holds more than the limits. */
  ghost predicate Within(es: seq<Event>, window: nat, maxCount: nat, maxWeight: nat)
  {
    forall i: nat, j: nat :: i < j <= |es| && OneWindow(es, window, i, j) ==>
      j - i <= maxCount && Sum(es, i, j) <= maxWeight
  }

  // ----- sorted lists -----

  /** In a sorted list the split is unique: `k` is where the later events begin. */
  lemma FirstIs(es: seq<Event>, lo: int, k: nat)
    requires Sorted(es) && k <= |es|
    requires k > 0 ==> es[k - 1].at <= lo
    requires k < |es| ==> es[k].at > lo
    ensures First(es, lo, 0) == k
  {
    var f := First(es, lo, 0);
  }

  lemma {:induction false} SumSplit(es: seq<Event>, i: nat, k: nat, j: nat)
    requires i <= k <= j <= |es|
    ensures Sum(es, i, j) == Sum(es, i, k) + Sum(es, k, j)
  {
    if k < j {
      SumSplit(es, i, k, j - 1);
    }
  }

  predicate SuffixAt(es: seq<Event>, suffix: seq<Event>, k: nat)
  {
    k + |suffix| == |es| && forall i :: 0 <= i < |suffix| ==> suffix[i] == es[k + i]
  }

  lemma {:induction false} SumOfSuffix(es: seq<Event>, suffix: seq<Event>, k: nat, i: nat, j: nat)
    requires SuffixAt(es, suffix, k) && i <= j <= |suffix|
    ensures Sum(suffix, i, j) == Sum(es, k + i, k + j)
  {
    if i < j {
      SumOfSuffix(es, suffix, k, i, j - 1);
    }
  }

  lemma {:induction false} SumOfPrefix(es: seq<Event>, e: Event, i: nat, j: nat)
    requires i <= j <= |es|
    ensures Sum(es + [e], i, j) == Sum(es, i, j)
  {
    if i < j {
      SumOfPrefix(es, e, i, j - 1);
    }
  }

  lemma AppendSorted(es: seq<Event>, e: Event)
    requires Sorted(es) && UpTo(es, e.at)
    ensures Sorted(es + [e]) && UpTo(es + [e], e.at)
  {
  }

  // ----- pruning -----

  lemma FirstTwice(es: seq<Event>, lo: int, lo': int)
    requires Sorted(es) && lo <= lo'
    ensures First(es, lo', 0) == First(es, lo, 0) + First(Since(es, lo), lo', 0)
  {
    var k := First(es, lo, 0);
    var m := First(es[k..], lo', 0);
    FirstIs(es, lo', k + m);
  }

  lemma SumTwice(es: seq<Event>, k: nat, m: nat)
    requires k + m <= |es|
    ensures Sum(es[k..], m, |es[k..]|) == Sum(es, k + m, |es|)
  {
    SumOfSuffix(es, es[k..], k, m, |es| - k);
  }

  lemma DropTwice(es: seq<Event>, k: nat, m: nat)
    requires k + m <= |es|
    ensures es[k..][m..] == es[k + m..]
  {
  }

  /** Pruning what was pruned before, at a later cutoff, is pruning it all then. */
  lemma PruneTwice(es: seq<Event>, lo: int, lo': int)
    requires Sorted(es) && lo <= lo'
    ensures Since(Since(es, lo), lo') == Since(es, lo')
    ensures CountSince(Since(es, lo), lo') == CountSince(es, lo')
    ensures WeightSince(Since(es, lo), lo') == WeightSince(es, lo')
  {
    hide Sorted, First, Sum;
    FirstTwice(es, lo, lo');
    SumTwice(es, First(es, lo, 0), First(Since(es, lo), lo', 0));
    DropTwice(es, First(es, lo, 0), First(Since(es, lo), lo', 0));
  }

  /** An event accepted now is recent now. */
  lemma AppendRecent(es: seq<Event>, e: Event, lo: int)
    requires Sorted(es) && UpTo(es, e.at) && lo < e.at
    ensures Since(es + [e], lo) == Since(es, lo) + [e]
    ensures CountSince(es + [e], lo) == CountSince(es, lo) + 1
    ensures WeightSince(es + [e], lo) == WeightSince(es, lo) + e.weight
  {
    var k, all := First(es, lo, 0), es + [e];
    AppendSorted(es, e);
    assert k > 0 ==> all[k - 1] == es[k - 1];
    FirstIs(all, lo, k);
    SumOfPrefix(es, e, k, |es|);
    assert all[k..] == es[k..] + [e];
  }

  /** Shifting old events off the front leaves exactly the recent ones. */
  method Prune(events: seq<Event>, bytes: nat, cutoff: int) returns (recent: seq<Event>, left: nat)
    requires bytes == Sum(events, 0, |events|)
    ensures recent == Since(events, cutoff) && left == WeightSince(events, cutoff)
  {
    ghost var k := 0;
    var remaining: int := bytes;
    recent := events;
    while recent != [] && recent[0].at <= cutoff
      invariant k <= |events| && recent == events[k..]
      invariant remaining == Sum(events, k, |events|)
      invariant First(events, cutoff, k) == First(events, cutoff, 0)
      decreases |recent|
    {
      SumSplit(events, k, k + 1, |events|);
      remaining := if remaining < recent[0].weight then 0 else remaining - recent[0].weight;
      recent := recent[1..];
      k := k + 1;
    }
    left := remaining;
  }

  // ----- windows -----

  lemma LastWindow(es: seq<Event>, e: Event, window: nat, i: nat)
    requires Sorted(es) && i <= |es| && OneWindow(es + [e], window, i, |es| + 1)
    ensures i < |es| ==> First(es, e.at - window, 0) <= i
    ensures |es| + 1 - i <= CountSince(es, e.at - window) + 1
    ensures Sum(es + [e], i, |es| + 1) <= WeightSince(es, e.at - window) + e.weight
  {
    var k := First(es, e.at - window, 0);
    SumOfPrefix(es, e, i, |es|);
    assert i < |es| ==> (es + [e])[i] == es[i];
    if k <= i {
      SumSplit(es, k, i, |es|);
    }
  }

  /** A budget checked at each event against the window that ends there holds in
      every window. */
  lemma AppendKeepsWithin(es: seq<Event>, e: Event, window: nat, maxCount: nat, maxWeight: nat)
    requires Sorted(es) && UpTo(es, e.at) && Within(es, window, maxCount, maxWeight)
    requires CountSince(es, e.at - window) < maxCount
    requires WeightSince(es, e.at - window) + e.weight <= maxWeight
    ensures Within(es + [e], window, maxCount, maxWeight)
  {
    var all := es + [e];
    forall i: nat, j: nat | i < j <= |all| && OneWindow(all, window, i, j)
      ensures j - i <= maxCount && Sum(all, i, j) <= maxWeight
    {
      if j <= |es| {
        assert OneWindow(es, window, i, j);
        SumOfPrefix(es, e, i, j);
      } else {
        LastWindow(es, e, window, i);
      }
    }
  }

  /** Everything that accepting one more event keeps. */
  lemma AppendChecked(es: seq<Event>, e: Event, lo: int, window: nat, maxCount: nat, maxWeight: nat)
    requires Sorted(es) && UpTo(es, e.at) && Within(es, window, maxCount, maxWeight)
    requires window > 0 && lo == e.at - window
    requires CountSince(es, lo) < maxCount && WeightSince(es, lo) + e.weight <= maxWeight
    ensures Sorted(es + [e]) && UpTo(es + [e], e.at) && Within(es + [e], window, maxCount, maxWeight)
    ensures Since(es + [e], lo) == Since(es, lo) + [e]
    ensures WeightSince(es + [e], lo) == WeightSince(es, lo) + e.weight
  {
    AppendSorted(es, e);
    hide Since, CountSince, WeightSince, Sorted, UpTo, Within;
    AppendRecent(es, e, lo);
    AppendKeepsWithin(es, e, window, maxCount, maxWeight);
  }

  lemma UpToLater(es: seq<Event>, t: int, t': int)
    requires UpTo(es, t) && t <= t'
    ensures UpTo(es, t')
  {
  }
}
