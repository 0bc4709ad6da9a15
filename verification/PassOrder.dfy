/** The order of build passes: dependencies first, ties broken lexicographically, and the
    selection of the passes that a filter needs. */
module PassOrder {
  import opened Text
  import opened Graph

  /** The dependencies of each pass are the edges of the graph. */
  function Deps(g: Calls, n: string): set<string> { Elements(Targets(g, n)) }

  /** An order of `nodes` in which every dependency comes before what depends on it. */
  ghost predicate Order(g: Calls, nodes: seq<string>, o: seq<string>)
  {
    && Distinct(o) && Elements(o) == Elements(nodes)
    && forall k :: 0 <= k < |o| ==> Deps(g, o[k]) <= Elements(o[..k])
  }

  /** The first difference decides. */
  ghost predicate LexAtMost(a: seq<string>, b: seq<string>)
  {
    a == b || exists k :: 0 <= k < |a| && k < |b| && a[..k] == b[..k] && Less(a[k], b[k])
  }

  /** `v` depends on itself, directly or not. */
  ghost predicate OnCycle(g: Calls, v: string)
  {
    exists d :: Edge(g, v, d) && Reach(g, d, v)
  }

  predicate Declared(g: Calls, nodes: seq<string>)
  {
    forall n :: n in nodes ==> Deps(g, n) <= Elements(nodes)
  }

  // ----- what the algorithm keeps -----

  /** What may come next. */
  function Available(g: Calls, nodes: seq<string>, done: seq<string>): set<string>
  {
    set n | n in nodes && n !in done && Deps(g, n) <= Elements(done)
  }

  /** Each pass was the least that could come next. */
  ghost predicate Greedy(g: Calls, nodes: seq<string>, o: seq<string>)
  {
    forall k :: 0 <= k < |o| ==> IsLeast(o[k], Available(g, nodes, o[..k]))
  }

  /** Every pass of `stuck` waits for another, or for one that does not exist. */
  ghost predicate Blocked(g: Calls, nodes: seq<string>, stuck: seq<string>)
  {
    && stuck != [] && Elements(stuck) <= Elements(nodes)
    && forall n :: n in stuck ==> Waits(g, nodes, stuck, n)
  }

  ghost predicate Waits(g: Calls, nodes: seq<string>, stuck: seq<string>, n: string)
  {
    exists d :: d in Deps(g, n) && (d in stuck || d !in nodes)
  }

  lemma {:induction false} DistinctSize(s: seq<string>)
    requires Distinct(s)
    ensures |Elements(s)| == |s|
  {
    if s != [] {
      var n := |s| - 1;
      DistinctSize(s[..n]);
      assert Elements(s) == Elements(s[..n]) + {s[n]};
    }
  }

  lemma {:induction false} SubsetSize(a: set<string>, b: set<string>)
    requires a <= b
    ensures |a| <= |b| && (|a| == |b| ==> a == b)
  {
    if a != b {
      Smaller(a, b);
    }
  }

  lemma {:induction false} GreedyDistinct(g: Calls, nodes: seq<string>, o: seq<string>)
    requires Greedy(g, nodes, o)
    ensures Distinct(o) && Elements(o) <= Elements(nodes)
    ensures forall k :: 0 <= k < |o| ==> Deps(g, o[k]) <= Elements(o[..k])
  {
    forall i, j | 0 <= i < j < |o| ensures o[i] != o[j] {
      assert o[..j][i] == o[i];
      assert IsLeast(o[j], Available(g, nodes, o[..j]));
    }
  }

  lemma {:induction false} GreedyNext(g: Calls, nodes: seq<string>, o: seq<string>, n: string)
    requires Greedy(g, nodes, o) && IsLeast(n, Available(g, nodes, o))
    ensures Greedy(g, nodes, o + [n])
  {
    hide Available;
    var o' := o + [n];
    forall k | 0 <= k < |o'| ensures IsLeast(o'[k], Available(g, nodes, o'[..k])) {
      assert o'[..k] == if k < |o| then o[..k] else o;
    }
  }

  // ----- the algorithm -----

  datatype Sorting = Ordered(order: seq<string>) | Cycle(unresolved: seq<string>)

  /** `remaining` holds, of every pass, the dependencies that have not been ordered. */
  ghost predicate Remains(g: Calls, nodes: seq<string>, remaining: map<string, set<string>>, done: seq<string>)
  {
    remaining.Keys == Elements(nodes) && forall n :: n in remaining ==> remaining[n] == Deps(g, n) - Elements(done)
  }

  /** What the ordering of `current` means for one pass. */
  lemma {:induction false} OneReleased(g: Calls, nodes: seq<string>, ordered: seq<string>, current: string, n: string)
    requires n in nodes && current !in ordered
    ensures var done, left := ordered + [current], Deps(g, n) - Elements(ordered);
            && Deps(g, n) - Elements(done) == left - {current}
            && (current in left ==>
                  n !in Available(g, nodes, ordered) &&
                  (n in Available(g, nodes, done) <==> left - {current} == {} && n !in done))
            && (current !in left ==>
                  (n in Available(g, nodes, done) <==> n in Available(g, nodes, ordered) && n != current))
  {
    var done := ordered + [current];
    assert Elements(done) == Elements(ordered) + {current};
    assert Deps(g, n) <= Elements(done) <==> Deps(g, n) - Elements(done) == {};
  }

  /** Takes `current`, which has just been ordered, out of all remaining dependencies; what
      has none left becomes ready. */
  method Release(g: Calls, nodes: seq<string>, remaining: map<string, set<string>>, waiting: seq<string>,
                 ordered: seq<string>, current: string)
    returns (remaining': map<string, set<string>>, ready: seq<string>)
    requires Distinct(nodes) && Remains(g, nodes, remaining, ordered) && Sorted(waiting)
    requires Elements(waiting) == Available(g, nodes, ordered) - {current} && current !in ordered
    ensures Remains(g, nodes, remaining', ordered + [current]) && Sorted(ready)
    ensures Elements(ready) == Available(g, nodes, ordered + [current])
  {
    hide Available, Deps, Sorted, SortedKeys, Distinct;
    ghost var done := ordered + [current];
    remaining', ready := remaining, waiting;
    for i := 0 to |nodes|
      invariant remaining'.Keys == Elements(nodes) && Sorted(ready)
      invariant forall n :: n in nodes[..i] ==> remaining'[n] == Deps(g, n) - Elements(done)
      invariant forall n :: n in nodes[i..] ==> remaining'[n] == Deps(g, n) - Elements(ordered)
      invariant forall n :: n in nodes[..i] ==> (n in ready <==> n in Available(g, nodes, done))
      invariant forall n :: n !in nodes[..i] ==> (n in ready <==> n in waiting)
    {
      var node := nodes[i];
      Splits(nodes, i);
      OneReleased(g, nodes, ordered, current, node);
      if current in remaining'[node] {
        var deps := remaining'[node] - {current};
        remaining' := remaining'[node := deps];
        if deps == {} && node !in ordered + [current] && node !in ready {
          ready := SortedKeys(Elements(ready + [node]));
        }
      }
    }
    assert nodes[..|nodes|] == nodes;
    OnlyNodes(g, nodes, ordered);
    OnlyNodes(g, nodes, done);
  }

  lemma {:induction false} Splits(nodes: seq<string>, i: nat)
    requires i < |nodes| && Distinct(nodes)
    ensures nodes[i] !in nodes[..i] && nodes[i] !in nodes[i + 1..] && nodes[i] in nodes[i..]
    ensures forall n :: n in nodes[..i + 1] <==> n in nodes[..i] || n == nodes[i]
    ensures forall n :: n in nodes[i..] <==> n in nodes[i + 1..] || n == nodes[i]
    ensures forall n :: n in nodes <==> n in nodes[..i] || n in nodes[i..]
    ensures forall n :: n in nodes[..i] ==> n !in nodes[i..]
  {
    assert nodes[..i + 1] == nodes[..i] + [nodes[i]];
    assert nodes[i..] == [nodes[i]] + nodes[i + 1..];
    assert nodes == nodes[..i] + nodes[i..];
  }

  lemma {:induction false} OnlyNodes(g: Calls, nodes: seq<string>, done: seq<string>)
    ensures Available(g, nodes, done) <= Elements(nodes)
  {
  }

  lemma {:induction false} FirstIsLeast(s: seq<string>)
    requires Sorted(s) && s != []
    ensures IsLeast(s[0], Elements(s)) && Sorted(s[1..]) && Elements(s[1..]) == Elements(s) - {s[0]}
  {
    LessIrreflexive(s[0]);
    assert s == [s[0]] + s[1..];
  }

  method InitialDeps(nodes: seq<string>, g: Calls) returns (remaining: map<string, set<string>>)
    ensures Remains(g, nodes, remaining, [])
  {
    remaining := map[];
    for i := 0 to |nodes|
      invariant remaining.Keys == Elements(nodes[..i])
      invariant forall n :: n in remaining ==> remaining[n] == Deps(g, n)
    {
      assert nodes[..i + 1] == nodes[..i] + [nodes[i]];
      remaining := remaining[nodes[i] := Deps(g, nodes[i])];
    }
    assert nodes[..|nodes|] == nodes;
  }

  /** Passes that were not ordered. */
  function Unresolved(nodes: seq<string>, ordered: seq<string>): (r: seq<string>)
    ensures forall n :: n in r <==> n in nodes && n !in ordered
  {
    if nodes == [] then []
    else
      var n := |nodes| - 1;
      Unresolved(nodes[..n], ordered) + (if nodes[n] in ordered then [] else [nodes[n]])
  }

  /** The least order of the passes, or the passes that cannot be ordered. It succeeds
      exactly when there is an order, which, with all dependencies declared, is when no
      pass depends on itself. */
  method TopoSort(nodes: seq<string>, g: Calls) returns (r: Sorting)
    requires Distinct(nodes)
    ensures r.Ordered? <==> exists o :: Order(g, nodes, o)
    ensures r.Ordered? ==> Order(g, nodes, r.order) && forall o :: Order(g, nodes, o) ==> LexAtMost(r.order, o)
    ensures r.Cycle? ==> Blocked(g, nodes, r.unresolved)
    ensures Declared(g, nodes) ==> (r.Cycle? <==> exists v :: v in nodes && OnCycle(g, v))
  {
    hide Available, Deps, Sorted, SortedKeys, Remains, Greedy, Order, OnCycle, Blocked, LexAtMost;
    var remaining := InitialDeps(nodes, g);
    var ordered: seq<string> := [];
    var ready := SortedKeys(NoDeps(nodes, remaining, g));
    GreedyNone(g, nodes);
    while ready != []
      invariant Greedy(g, nodes, ordered) && Remains(g, nodes, remaining, ordered)
      invariant Sorted(ready) && Elements(ready) == Available(g, nodes, ordered)
      invariant |ordered| <= |nodes|
      decreases |nodes| - |ordered|
    {
      var current := ready[0];
      FirstIsLeast(ready);
      GreedyNext(g, nodes, ordered, current);
      GreedyFits(g, nodes, ordered);
      GreedyFits(g, nodes, ordered + [current]);
      AvailableIsNew(g, nodes, ordered, current);
      remaining, ready := Release(g, nodes, remaining, ready[1..], ordered, current);
      ordered := ordered + [current];
    }
    GreedyFits(g, nodes, ordered);
    if |ordered| != |nodes| {
      r := Cycle(Unresolved(nodes, ordered));
      StuckIsBlocked(g, nodes, ordered, r.unresolved);
      forall o ensures !Order(g, nodes, o) {
        BlockedHasNoOrder(g, nodes, r.unresolved, o);
      }
      if Declared(g, nodes) {
        BlockedHasCycle(g, nodes, r.unresolved);
      }
    } else {
      r := Ordered(ordered);
      GreedyIsOrder(g, nodes, ordered);
      forall o | Order(g, nodes, o) ensures LexAtMost(ordered, o) {
        GreedyIsLeast(g, nodes, ordered, o);
      }
      forall v | v in nodes ensures !OnCycle(g, v) {
        OrderHasNoCycle(g, nodes, ordered, v);
      }
    }
  }

  /** The passes that are ready at the beginning. */
  function NoDeps(nodes: seq<string>, remaining: map<string, set<string>>, ghost g: Calls): (r: set<string>)
    requires Remains(g, nodes, remaining, [])
    ensures r == Available(g, nodes, [])
  {
    forall n ensures Deps(g, n) - Elements([]) == {} <==> Deps(g, n) <= Elements([]) {
      NoneLeft(Deps(g, n), Elements([]));
    }
    set n | n in nodes && n in remaining && remaining[n] == {}
  }

  lemma {:induction false} NoneLeft<T>(a: set<T>, b: set<T>)
    ensures a - b == {} <==> a <= b
  {
    if a - b == {} {
      forall x | x in a ensures x in b {
        assert x !in a - b;
      }
    }
  }

  lemma {:induction false} GreedyNone(g: Calls, nodes: seq<string>)
    ensures Greedy(g, nodes, [])
  {
  }

  lemma {:induction false} AvailableIsNew(g: Calls, nodes: seq<string>, done: seq<string>, n: string)
    requires n in Available(g, nodes, done)
    ensures n !in done
  {
  }

  lemma {:induction false} GreedyFits(g: Calls, nodes: seq<string>, o: seq<string>)
    requires Greedy(g, nodes, o) && Distinct(nodes)
    ensures |o| <= |nodes| && Elements(o) <= Elements(nodes) && Distinct(o)
    ensures |o| == |nodes| ==> Elements(o) == Elements(nodes)
  {
    GreedyDistinct(g, nodes, o);
    DistinctSize(o);
    DistinctSize(nodes);
    SubsetSize(Elements(o), Elements(nodes));
  }

  // ----- success -----

  lemma {:induction false} GreedyIsOrder(g: Calls, nodes: seq<string>, o: seq<string>)
    requires Greedy(g, nodes, o) && Elements(o) == Elements(nodes)
    ensures Order(g, nodes, o)
  {
    GreedyDistinct(g, nodes, o);
  }

  /** What an order has at place `k` could have been chosen there. */
  lemma {:induction false} ChosenOrLarger(g: Calls, nodes: seq<string>, a: seq<string>, b: seq<string>, k: nat)
    requires Greedy(g, nodes, a) && Order(g, nodes, b)
    requires k < |a| && k < |b| && a[..k] == b[..k]
    ensures AtMost(a[k], b[k])
  {
    hide Deps;
    assert b[k] in Elements(b);
    assert b[k] !in b[..k];
    assert b[k] in Available(g, nodes, a[..k]);
    assert IsLeast(a[k], Available(g, nodes, a[..k]));
  }

  lemma {:induction false} FirstDifference(a: seq<string>, b: seq<string>) returns (k: nat)
    requires |a| == |b|
    ensures k <= |a| && a[..k] == b[..k] && if k == |a| then a == b else a[k] != b[k]
  {
    k := 0;
    while k < |a| && a[k] == b[k]
      invariant k <= |a| && a[..k] == b[..k]
    {
      assert a[..k + 1] == a[..k] + [a[k]] && b[..k + 1] == b[..k] + [b[k]];
      k := k + 1;
    }
    assert k == |a| ==> a == a[..k] && b == b[..k];
  }

  lemma {:induction false} OrderSize(g: Calls, nodes: seq<string>, o: seq<string>)
    requires Order(g, nodes, o) && Distinct(nodes)
    ensures |o| == |nodes|
  {
    DistinctSize(o);
    DistinctSize(nodes);
  }

  /** In any order, at the first difference, the greedy choice was the smaller. */
  lemma {:induction false} GreedyIsLeast(g: Calls, nodes: seq<string>, a: seq<string>, b: seq<string>)
    requires Distinct(nodes) && Greedy(g, nodes, a) && Elements(a) == Elements(nodes) && Order(g, nodes, b)
    ensures LexAtMost(a, b)
  {
    hide Greedy, Order, Distinct, Less;
    GreedyIsOrder(g, nodes, a);
    OrderSize(g, nodes, a);
    OrderSize(g, nodes, b);
    var k := FirstDifference(a, b);
    if k < |a| {
      ChosenOrLarger(g, nodes, a, b, k);
    }
  }

  // ----- failure -----

  lemma {:induction false} StuckIsBlocked(g: Calls, nodes: seq<string>, ordered: seq<string>, stuck: seq<string>)
    requires Available(g, nodes, ordered) == {} && Elements(ordered) <= Elements(nodes)
    requires Distinct(ordered) && Distinct(nodes) && |ordered| != |nodes|
    requires forall n :: n in stuck <==> n in nodes && n !in ordered
    ensures Blocked(g, nodes, stuck)
  {
    DistinctSize(ordered);
    DistinctSize(nodes);
    assert |Elements(ordered)| != |Elements(nodes)|;
    assert Elements(ordered) != Elements(nodes) && Elements(ordered) <= Elements(nodes);
    var missing :| missing in Elements(nodes) && missing !in Elements(ordered);
    assert missing in stuck;
    forall n | n in stuck ensures Waits(g, nodes, stuck, n) {
      assert n !in Available(g, nodes, ordered);
      var d :| d in Deps(g, n) && d !in Elements(ordered);
    }
  }

  lemma {:induction false} WaitsFor(g: Calls, nodes: seq<string>, stuck: seq<string>, n: string) returns (d: string)
    requires Blocked(g, nodes, stuck) && n in stuck
    ensures n in nodes && d in Deps(g, n) && (d in nodes ==> d in stuck)
  {
    assert Waits(g, nodes, stuck, n);
    assert n in Elements(stuck);
    d :| d in Deps(g, n) && (d in stuck || d !in nodes);
  }

  /** Blocked passes have no order: the first of them would come before what it waits for. */
  lemma {:induction false} BlockedHasNoOrder(g: Calls, nodes: seq<string>, stuck: seq<string>, o: seq<string>)
    requires Blocked(g, nodes, stuck)
    ensures !Order(g, nodes, o)
  {
    hide Blocked, Deps;
    if Order(g, nodes, o) {
      var d := FirstStuck(g, nodes, stuck);
      assert d in Elements(o);
      var k :| 0 <= k < |o| && o[k] in stuck;
      while true
        invariant 0 <= k < |o| && o[k] in stuck
        decreases k
      {
        d := WaitsFor(g, nodes, stuck, o[k]);
        assert d in Elements(o[..k]);
        var j :| 0 <= j < k && o[..k][j] == d;
        assert o[j] in Elements(nodes);
        k := j;
      }
    }
  }

  lemma {:induction false} FirstStuck(g: Calls, nodes: seq<string>, stuck: seq<string>) returns (d: string)
    requires Blocked(g, nodes, stuck)
    ensures d in stuck && d in nodes
  {
    d := stuck[0];
    assert d in Elements(stuck);
  }

  /** A walk through blocked passes, each depending on the next, comes back to itself. */
  lemma {:induction false} BlockedHasCycle(g: Calls, nodes: seq<string>, stuck: seq<string>)
    requires Blocked(g, nodes, stuck) && Declared(g, nodes)
    ensures exists v :: v in nodes && OnCycle(g, v)
  {
    hide Blocked, OnCycle;
    var d := FirstStuck(g, nodes, stuck);
    var p := [d];
    while |p| <= |nodes|
      invariant 1 <= |p| && IsPath(g, p) && p[|p| - 1] in stuck
      invariant Elements(p) <= Elements(nodes)
      decreases |nodes| - |p|
    {
      var n := p[|p| - 1];
      d := WaitsFor(g, nodes, stuck, n);
      assert Edge(g, n, d) && d in Elements(nodes);
      p := p + [d];
    }
    if Distinct(p) {
      DistinctSize(p);
      SubsetSize(Elements(p), Elements(nodes));
      ElementsSize(nodes);
    }
    var i, j :| 0 <= i < j < |p| && p[i] == p[j];
    assert p[i] in Elements(p);
    PathCycle(g, p, i, j);
  }

  lemma {:induction false} ElementsSize(s: seq<string>)
    ensures |Elements(s)| <= |s|
  {
    if s != [] {
      var n := |s| - 1;
      ElementsSize(s[..n]);
      assert Elements(s) == Elements(s[..n]) + {s[n]};
    }
  }

  lemma {:induction false} PathCycle(g: Calls, p: seq<string>, i: nat, j: nat)
    requires IsPath(g, p) && i < j < |p| && p[i] == p[j]
    ensures OnCycle(g, p[i])
  {
    var q := p[i + 1..j + 1];
    assert IsPath(g, q) by {
      forall k | 0 <= k < |q| - 1 ensures Edge(g, q[k], q[k + 1]) {
        assert Edge(g, p[i + 1 + k], p[i + 1 + k + 1]);
      }
    }
    assert q[0] == p[i + 1] && q[|q| - 1] == p[j];
    assert Edge(g, p[i], p[i + 1]) && Reach(g, p[i + 1], p[i]);
  }

  lemma {:induction false} EarlyClosed(g: Calls, o: seq<string>, k: nat, x: string, y: string)
    requires k <= |o| && x in o[..k] && Edge(g, x, y)
    requires forall i :: 0 <= i < |o| ==> Deps(g, o[i]) <= Elements(o[..i])
    ensures y in o[..k]
  {
    var i :| 0 <= i < k && o[..k][i] == x;
    assert o[i] == x && y in Deps(g, o[i]);
    assert y in o[..i];
    assert o[..k] == o[..i] + o[i..k];
  }

  /** Dependencies lie strictly earlier, so no pass is before itself. */
  lemma {:induction false} OrderHasNoCycle(g: Calls, nodes: seq<string>, o: seq<string>, v: string)
    requires Order(g, nodes, o) && v in nodes
    ensures !OnCycle(g, v)
  {
    hide Reach, Edge;
    if OnCycle(g, v) {
      assert v in Elements(o);
      var k :| 0 <= k < |o| && o[k] == v;
      var d :| Edge(g, v, d) && Reach(g, d, v);
      assert d in o[..k] by { EdgeIsDep(g, v, d); }
      var early := o[..k];
      var s := iset x | x in early;
      forall x, y | x in s && Edge(g, x, y) ensures y in s {
        EarlyClosed(g, o, k, x, y);
      }
      ClosedReach(g, s, d, v);
    }
  }

  lemma {:induction false} EdgeIsDep(g: Calls, v: string, d: string)
    ensures Edge(g, v, d) <==> d in Deps(g, v)
  {
  }

  // ----- selection -----

  datatype Selection = Selected(passes: set<string>) | UnknownPass

  /** All passes, or those the filter needs. */
  method SelectPasses(ordered: seq<string>, g: Calls, filter: string) returns (r: Selection)
    ensures filter == "" ==> r == Selected(Elements(ordered))
    ensures filter != "" && filter !in ordered ==> r == UnknownPass
    ensures filter != "" && filter in ordered ==>
              r.Selected? && forall n :: n in r.passes <==> Reach(g, filter, n)
  {
    if filter == "" {
      return Selected(Elements(ordered));
    }
    if filter !in ordered {
      return UnknownPass;
    }
    ReachSelf(g, filter);
    ghost var all := Elements(ordered) + Called(g);
    forall n ensures Deps(g, n) <= all {
      DepsCalled(g, n);
    }
    var selected := Visit(g, filter, {}, filter, all);
    forall n | Reach(g, filter, n) ensures n in selected {
      ClosedReach(g, (iset x | x in selected), filter, n);
    }
    r := Selected(selected);
  }

  lemma {:induction false} DepsCalled(g: Calls, n: string)
    ensures Deps(g, n) <= Called(g)
  {
    forall d | d in Deps(g, n) ensures d in Called(g) {
      EdgeIsDep(g, n, d);
    }
  }

  /** Depth-first: `name` and what it needs are added to what has been visited. */
  method Visit(g: Calls, name: string, visited: set<string>, ghost from: string, ghost all: set<string>)
    returns (selected: set<string>)
    requires visited <= all && name in all && forall n :: n in all ==> Deps(g, n) <= all
    requires Reach(g, from, name)
    ensures visited <= selected <= all && name in selected
    ensures forall n :: n in selected && n !in visited ==> Reach(g, from, n) && Deps(g, n) <= selected
    decreases all - visited
  {
    hide Reach;
    if name in visited {
      return visited;
    }
    selected := visited + {name};
    ReachFrom(g, from, name);
    var deps := Targets(g, name);
    for i := 0 to |deps|
      invariant visited + {name} <= selected <= all
      invariant forall n :: n in selected && n !in visited ==> Reach(g, from, n)
      invariant forall n :: n in selected && n !in visited && n != name ==> Deps(g, n) <= selected
      invariant Elements(deps[..i]) <= selected
    {
      assert deps[i] in Deps(g, name);
      selected := Visit(g, deps[i], selected, from, all);
    }
    assert deps[..|deps|] == deps;
  }

  lemma {:induction false} ReachFrom(g: Calls, from: string, name: string)
    requires Reach(g, from, name)
    ensures forall d :: d in Deps(g, name) ==> Reach(g, from, d)
  {
    forall d | d in Deps(g, name) ensures Reach(g, from, d) {
      ReachEdge(g, name, d);
      ReachTransitive(g, from, name, d);
    }
  }

  // ----- a filtered build -----

  /** The passes that run, in the order in which they run. */
  function Running(ordered: seq<string>, selected: set<string>): (r: seq<string>)
    ensures forall n :: n in r <==> n in ordered && n in selected
  {
    if ordered == [] then []
    else
      var n := |ordered| - 1;
      Running(ordered[..n], selected) + (if ordered[n] in selected then [ordered[n]] else [])
  }

  /** Each pass once, after all of its dependencies. */
  ghost predicate DepsFirst(g: Calls, o: seq<string>)
  {
    Distinct(o) && forall k :: 0 <= k < |o| ==> Deps(g, o[k]) <= Elements(o[..k])
  }

  lemma {:induction false} DepsFirstNext(g: Calls, o: seq<string>, n: string)
    requires DepsFirst(g, o) && n !in o && Deps(g, n) <= Elements(o)
    ensures DepsFirst(g, o + [n])
  {
    hide Deps;
    var o' := o + [n];
    forall k | 0 <= k < |o'| ensures Deps(g, o'[k]) <= Elements(o'[..k]) {
      assert o'[..k] == if k < |o| then o[..k] else o;
    }
  }

  lemma {:induction false} DepsFirstBefore(g: Calls, o: seq<string>)
    requires DepsFirst(g, o) && o != []
    ensures DepsFirst(g, o[..|o| - 1])
  {
    hide Deps;
    var before := o[..|o| - 1];
    forall k | 0 <= k < |before| ensures Deps(g, before[k]) <= Elements(before[..k]) {
      assert before[..k] == o[..k];
    }
  }

  /** A filtered build runs each pass that the filter needs, once, after all of its
      dependencies. */
  lemma {:induction false} FilteredBuild(g: Calls, ordered: seq<string>, selected: set<string>)
    requires DepsFirst(g, ordered)
    requires forall n :: n in selected ==> Deps(g, n) <= selected
    ensures DepsFirst(g, Running(ordered, selected))
    decreases |ordered|
  {
    hide DepsFirst, Deps;
    if ordered == [] {
      NothingRuns(g);
    } else {
      var n, before := ordered[|ordered| - 1], ordered[..|ordered| - 1];
      DepsFirstBefore(g, ordered);
      FilteredBuild(g, before, selected);
      LastDeps(g, ordered);
      if n in selected {
        assert Deps(g, n) <= Elements(Running(before, selected));
        DepsFirstNext(g, Running(before, selected), n);
      } else {
        assert Running(before, selected) + [] == Running(before, selected);
      }
    }
  }

  lemma {:induction false} NothingRuns(g: Calls)
    ensures DepsFirst(g, [])
  {
  }

  lemma {:induction false} LastDeps(g: Calls, o: seq<string>)
    requires DepsFirst(g, o) && o != []
    ensures Deps(g, o[|o| - 1]) <= Elements(o[..|o| - 1]) && o[|o| - 1] !in o[..|o| - 1]
  {
  }
}
