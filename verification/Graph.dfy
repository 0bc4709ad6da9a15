/** Call graphs: paths, reachability, strong connection, and the worklist that computes what
    is reachable from the entrypoints. */
module Graph {

  /** The calls of each symbol, in the order in which they are found. A symbol without an
      entry has none. */
  type Calls = map<string, seq<string>>

  function Targets(g: Calls, v: string): seq<string> { if v in g then g[v] else [] }

  predicate Edge(g: Calls, v: string, w: string) { w in Targets(g, v) }

  predicate IsPath(g: Calls, p: seq<string>)
  {
    p != [] && forall i :: 0 <= i < |p| - 1 ==> Edge(g, p[i], p[i + 1])
  }

  ghost predicate Reach(g: Calls, v: string, w: string)
  {
    exists p :: IsPath(g, p) && p[0] == v && p[|p| - 1] == w
  }

  /** Each reaches the other: the same strongly connected component. */
  ghost predicate Strong(g: Calls, v: string, w: string)
  {
    Reach(g, v, w) && Reach(g, w, v)
  }

  lemma {:induction false} ReachSelf(g: Calls, v: string)
    ensures Reach(g, v, v)
  {
    assert IsPath(g, [v]) && [v][0] == v && [v][|[v]| - 1] == v;
  }

  lemma {:induction false} ReachEdge(g: Calls, v: string, w: string)
    requires Edge(g, v, w)
    ensures Reach(g, v, w)
  {
    var p := [v, w];
    assert IsPath(g, p) && p[0] == v && p[|p| - 1] == w;
  }

  lemma {:induction false} ReachTransitive(g: Calls, u: string, v: string, w: string)
    requires Reach(g, u, v) && Reach(g, v, w)
    ensures Reach(g, u, w)
  {
    var p :| IsPath(g, p) && p[0] == u && p[|p| - 1] == v;
    var q :| IsPath(g, q) && q[0] == v && q[|q| - 1] == w;
    var r := p + q[1..];
    forall i | 0 <= i < |r| - 1 ensures Edge(g, r[i], r[i + 1]) {
      if i < |p| - 1 {
        assert Edge(g, p[i], p[i + 1]);
      } else {
        assert Edge(g, q[i - |p| + 1], q[i - |p| + 2]);
      }
    }
    assert IsPath(g, r) && r[0] == u && r[|r| - 1] == w;
  }

  /** A set that no edge leaves is left by no path. */
  lemma {:induction false} ClosedReach(g: Calls, s: iset<string>, v: string, w: string)
    requires v in s && Reach(g, v, w)
    requires forall x, y :: x in s && Edge(g, x, y) ==> y in s
    ensures w in s
  {
    var p :| IsPath(g, p) && p[0] == v && p[|p| - 1] == w;
    var i := 0;
    while i < |p| - 1
      invariant 0 <= i < |p| && p[i] in s
    {
      assert Edge(g, p[i], p[i + 1]);
      i := i + 1;
    }
  }

  // ----- reachability -----

  function Elements(s: seq<string>): (r: set<string>)
    ensures forall x :: x in r <==> x in s
  {
    set x | x in s
  }

  /** All symbols that are called anywhere. */
  ghost function Called(g: Calls): (r: set<string>)
    ensures forall v, w :: Edge(g, v, w) ==> w in r
  {
    set v, w | v in g.Keys && w in g[v] :: w
  }

  ghost predicate FromEntry(g: Calls, entrypoints: seq<string>, w: string)
  {
    exists e :: e in entrypoints && Reach(g, e, w)
  }

  /** The worklist closure: exactly what can be reached from an entrypoint. */
  method ComputeReachability(entrypoints: seq<string>, g: Calls) returns (reachable: set<string>)
    ensures forall w :: w in reachable <==> FromEntry(g, entrypoints, w)
  {
    hide FromEntry, Edge, Called, Reach;
    ghost var all := Elements(entrypoints) + Called(g);
    var worklist := entrypoints;
    reachable := Elements(entrypoints);
    forall e | e in entrypoints ensures FromEntry(g, entrypoints, e) {
      EntryItself(g, entrypoints, e);
    }
    while worklist != []
      invariant Elements(entrypoints) <= reachable <= all && Elements(worklist) <= reachable
      invariant forall w :: w in reachable ==> FromEntry(g, entrypoints, w)
      invariant forall v, w :: v in reachable && v !in worklist && Edge(g, v, w) ==> w in reachable
      decreases |all - reachable|, |worklist|
    {
      var key := worklist[|worklist| - 1];
      ghost var had, listed := reachable, worklist;
      worklist := worklist[..|worklist| - 1];
      assert forall w :: w in listed ==> w in worklist || w == key;
      assert FromEntry(g, entrypoints, key);
      worklist, reachable := AddTargets(g, key, entrypoints, all, worklist, reachable);
      if reachable != had {
        FewerLeft(all, had, reachable);
      }
    }
    forall w | FromEntry(g, entrypoints, w) ensures w in reachable {
      EntryOf(g, entrypoints, w);
      var e :| e in entrypoints && Reach(g, e, w);
      ClosedReach(g, (iset x | x in reachable), e, w);
    }
  }

  /** The targets of one symbol that have not been seen go on the worklist. */
  method AddTargets(g: Calls, key: string, ghost entrypoints: seq<string>, ghost all: set<string>,
                    list: seq<string>, seen: set<string>)
    returns (worklist: seq<string>, reachable: set<string>)
    requires seen <= all && FromEntry(g, entrypoints, key)
    requires forall v, w :: Edge(g, v, w) ==> w in all
    requires forall w :: w in seen ==> FromEntry(g, entrypoints, w)
    ensures seen <= reachable <= all && list <= worklist && (reachable == seen ==> worklist == list)
    ensures forall w :: w in reachable ==> FromEntry(g, entrypoints, w)
    ensures forall w :: w in reachable <==> w in seen || w in worklist[|list|..]
    ensures forall w :: Edge(g, key, w) ==> w in reachable
  {
    hide FromEntry;
    worklist, reachable := list, seen;
    var targets := Targets(g, key);
    for i := 0 to |targets|
      invariant seen <= reachable <= all && list <= worklist && (reachable == seen ==> worklist == list)
      invariant forall w :: w in reachable ==> FromEntry(g, entrypoints, w)
      invariant forall w :: w in reachable <==> w in seen || w in worklist[|list|..]
      invariant forall w :: w in targets[..i] ==> w in reachable
    {
      var target := targets[i];
      if target !in reachable {
        assert Edge(g, key, target);
        ReachFromEntry(g, entrypoints, key, target);
        reachable := reachable + {target};
        assert (worklist + [target])[|list|..] == worklist[|list|..] + [target];
        worklist := worklist + [target];
      }
    }
    assert targets[..|targets|] == targets;
  }

  lemma {:induction false} FewerLeft(all: set<string>, had: set<string>, reachable: set<string>)
    requires had < reachable <= all
    ensures |all - reachable| < |all - had|
  {
    var x :| x in reachable && x !in had;
    assert x in all - had && x !in all - reachable;
    assert all - reachable <= all - had;
    Smaller(all - reachable, all - had);
  }

  lemma {:induction false} EntryItself(g: Calls, entrypoints: seq<string>, e: string)
    requires e in entrypoints
    ensures FromEntry(g, entrypoints, e)
  {
    ReachSelf(g, e);
  }

  lemma {:induction false} EntryOf(g: Calls, entrypoints: seq<string>, w: string)
    requires FromEntry(g, entrypoints, w)
    ensures exists e :: e in entrypoints && Reach(g, e, w)
  {
  }

  lemma {:induction false} ReachFromEntry(g: Calls, entrypoints: seq<string>, v: string, w: string)
    requires Edge(g, v, w) && FromEntry(g, entrypoints, v)
    ensures FromEntry(g, entrypoints, w)
  {
    var e :| e in entrypoints && Reach(g, e, v);
    ReachEdge(g, v, w);
    ReachTransitive(g, e, v, w);
  }

  lemma {:induction false} Smaller(a: set<string>, b: set<string>)
    requires a < b
    ensures |a| < |b|
  {
    var rest := b - a;
    assert b == a + rest;
    assert rest != {};
  }
}
