/** The work-stack walk over a decoded awareness state, as both decoders run it. */
module JsonDepth {
  import opened Wrappers

  /** What `JSON.parse` returns, as far as the walk can tell: numbers too large for a
      double parse to an infinity, which is not a JSON value. */
  datatype State =
    | Null
    | Scalar
    | Infinite
    | ListOf(items: seq<State>)
    | ObjectOf(values: seq<State>)

  datatype WalkError = TooManyNodes | TooDeep | NotJson

  datatype Item = Item(depth: nat, value: State)

  function Max(a: nat, b: nat): nat
  {
    if a < b then b else a
  }

  function Children(s: State): seq<State>
  {
    match s
    case ListOf(items) => items
    case ObjectOf(values) => values
    case _ => []
  }

  function Items(depth: nat, values: seq<State>): (r: seq<Item>)
    ensures |r| == |values| && forall i :: 0 <= i < |r| ==> r[i] == Item(depth, values[i])
  {
    seq(|values|, i requires 0 <= i < |values| => Item(depth, values[i]))
  }

  // ----- the meaning of a state -----

  function Nodes(s: State): (n: nat)
    ensures n >= 1
    decreases s, 1
  {
    match s
    case ListOf(items) => 1 + NodesOf(items)
    case ObjectOf(values) => 1 + NodesOf(values)
    case _ => 1
  }

  function NodesOf(ss: seq<State>): nat
    decreases ss, 0
  {
    if ss == [] then 0 else NodesOf(ss[..|ss| - 1]) + Nodes(ss[|ss| - 1])
  }

  /** The depth of the deepest node below `depth`. */
  function Deepest(s: State, depth: nat): nat
    decreases s, 1
  {
    match s
    case ListOf(items) => Max(depth, DeepestOf(items, depth + 1))
    case ObjectOf(values) => Max(depth, DeepestOf(values, depth + 1))
    case _ => depth
  }

  function DeepestOf(ss: seq<State>, depth: nat): nat
    decreases ss, 0
  {
    if ss == [] then 0 else Max(DeepestOf(ss[..|ss| - 1], depth), Deepest(ss[|ss| - 1], depth))
  }

  predicate IsJson(s: State)
    decreases s, 1
  {
    match s
    case Infinite => false
    case ListOf(items) => AllJson(items)
    case ObjectOf(values) => AllJson(values)
    case _ => true
  }

  predicate AllJson(ss: seq<State>)
    decreases ss, 0
  {
    ss == [] || (AllJson(ss[..|ss| - 1]) && IsJson(ss[|ss| - 1]))
  }

  // ----- the same of a stack -----

  function StackNodes(p: seq<Item>): nat
  {
    if p == [] then 0 else StackNodes(p[..|p| - 1]) + Nodes(p[|p| - 1].value)
  }

  function StackDeepest(p: seq<Item>): nat
  {
    if p == [] then 0 else Max(StackDeepest(p[..|p| - 1]), Deepest(p[|p| - 1].value, p[|p| - 1].depth))
  }

  predicate StackJson(p: seq<Item>)
  {
    p == [] || (StackJson(p[..|p| - 1]) && IsJson(p[|p| - 1].value))
  }

  lemma PushOne(p: seq<Item>, item: Item)
    ensures StackNodes(p + [item]) == StackNodes(p) + Nodes(item.value)
    ensures StackDeepest(p + [item]) == Max(StackDeepest(p), Deepest(item.value, item.depth))
    ensures StackJson(p + [item]) <==> StackJson(p) && IsJson(item.value)
  {
    assert (p + [item])[..|p|] == p;
  }

  lemma {:induction false} Push(p: seq<Item>, depth: nat, values: seq<State>)
    ensures StackNodes(p + Items(depth, values)) == StackNodes(p) + NodesOf(values)
    ensures StackDeepest(p + Items(depth, values)) == Max(StackDeepest(p), DeepestOf(values, depth))
    ensures StackJson(p + Items(depth, values)) <==> StackJson(p) && AllJson(values)
    decreases |values|
  {
    if values == [] {
      assert p + Items(depth, values) == p;
    } else {
      var init, last := values[..|values| - 1], values[|values| - 1];
      Push(p, depth, init);
      assert p + Items(depth, values) == (p + Items(depth, init)) + [Item(depth, last)];
      PushOne(p + Items(depth, init), Item(depth, last));
    }
  }

  /** What a visit replaces on the stack. */
  lemma Visit(p: seq<Item>)
    requires p != []
    ensures var top, rest := p[|p| - 1], p[..|p| - 1];
            var next := rest + Items(top.depth + 1, Children(top.value));
            && StackNodes(p) == 1 + StackNodes(next)
            && StackDeepest(p) == Max(top.depth, StackDeepest(next))
            && (top.value != Infinite ==> (StackJson(p) <==> StackJson(next)))
            && (top.value == Infinite ==> !StackJson(p))
  {
    var top, rest := p[|p| - 1], p[..|p| - 1];
    Push(rest, top.depth + 1, Children(top.value));
  }

  // ----- the loop -----

  function Walk(p: seq<Item>, observed: nat, deepest: nat, maxDepth: nat, maxNodes: nat): Result<nat, WalkError>
    decreases StackNodes(p)
  {
    if p == [] then Ok(deepest)
    else
      var top := p[|p| - 1];
      if observed + 1 > maxNodes then Err(TooManyNodes)
      else if top.depth > maxDepth then Err(TooDeep)
      else if top.value == Infinite then Err(NotJson)
      else
        Visit(p);
        Walk(p[..|p| - 1] + Items(top.depth + 1, Children(top.value)), observed + 1, Max(deepest, top.depth),
             maxDepth, maxNodes)
  }

  /** The walk succeeds exactly when nothing is too much, and then it has seen the
      deepest node. */
  lemma {:induction false} WalkIff(p: seq<Item>, observed: nat, deepest: nat, maxDepth: nat, maxNodes: nat)
    requires deepest <= maxDepth && observed <= maxNodes
    ensures var r := Walk(p, observed, deepest, maxDepth, maxNodes);
            && (r.Ok? <==> observed + StackNodes(p) <= maxNodes && StackDeepest(p) <= maxDepth && StackJson(p))
            && (r.Ok? ==> r.value == Max(deepest, StackDeepest(p)))
    decreases StackNodes(p)
  {
    if p != [] {
      var top := p[|p| - 1];
      Visit(p);
      hide StackJson, StackDeepest, StackNodes, Nodes, Deepest, IsJson;
      if observed + 1 <= maxNodes && top.depth <= maxDepth && top.value != Infinite {
        WalkIff(p[..|p| - 1] + Items(top.depth + 1, Children(top.value)), observed + 1, Max(deepest, top.depth),
                maxDepth, maxNodes);
      }
    }
  }

  method RunWalk(roots: seq<State>, maxDepth: nat, maxNodes: nat) returns (r: Result<nat, WalkError>)
    ensures r == Walk(Items(0, roots), 0, 0, maxDepth, maxNodes)
  {
    var pending := Items(0, roots);
    var deepest, observed := 0, 0;
    while pending != []
      invariant Walk(pending, observed, deepest, maxDepth, maxNodes) == Walk(Items(0, roots), 0, 0, maxDepth, maxNodes)
      decreases StackNodes(pending)
    {
      var current := pending[|pending| - 1];
      Visit(pending);
      pending := pending[..|pending| - 1];
      observed := observed + 1;
      if observed > maxNodes {
        return Err(TooManyNodes);
      }
      if current.depth > maxDepth {
        return Err(TooDeep);
      }
      deepest := Max(deepest, current.depth);
      if current.value == Infinite {
        return Err(NotJson);
      }
      pending := pending + Items(current.depth + 1, Children(current.value));
    }
    return Ok(deepest);
  }

  /** For one state: no more than `maxNodes` nodes, none deeper than `maxDepth`. */
  lemma OneStateIff(s: State, maxDepth: nat, maxNodes: nat)
    ensures var r := Walk(Items(0, [s]), 0, 0, maxDepth, maxNodes);
            && (r.Ok? <==> Nodes(s) <= maxNodes && Deepest(s, 0) <= maxDepth && IsJson(s))
            && (r.Ok? ==> r.value == Deepest(s, 0))
  {
    WalkIff(Items(0, [s]), 0, 0, maxDepth, maxNodes);
    assert Items(0, [s]) == [] + [Item(0, s)];
    PushOne([], Item(0, s));
  }
}
