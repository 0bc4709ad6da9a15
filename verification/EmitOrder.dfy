/** The emission order of compiled symbols: strongly connected components by Tarjan's
    algorithm, each sorted, callers before callees. */
module EmitOrder {
  import opened Text
  import opened Graph

  // ----- the state of the search -----

  /** A snapshot of the search. `sccs` is in the order in which components are found. */
  datatype Search = Search(index: map<string, nat>, low: map<string, nat>, stack: seq<string>,
                           sccs: seq<seq<string>>, next: nat)

  ghost predicate Found(sccs: seq<seq<string>>, v: string)
  {
    exists i :: 0 <= i < |sccs| && v in sccs[i]
  }

  /** The numbering: a symbol that has a number is on the stack or in a component, not both. */
  ghost predicate Numbered(s: Search)
  {
    && s.low.Keys == s.index.Keys
    && (forall v :: v in s.index ==> s.index[v] < s.next)
    && (forall v :: v in s.index <==> v in s.stack || Found(s.sccs, v))
    && (forall v :: v in s.stack ==> !Found(s.sccs, v))
    && (forall i, j :: 0 <= i < j < |s.stack| ==> s.index[s.stack[i]] < s.index[s.stack[j]])
  }

  /** Going up the stack there are paths; going down, from each symbol to an active one. */
  ghost predicate Climbs(g: Calls, stack: seq<string>)
  {
    forall i, j :: 0 <= i <= j < |stack| ==> Reach(g, stack[i], stack[j])
  }

  ghost predicate Returns(g: Calls, active: set<string>, index: map<string, nat>, stack: seq<string>, y: string)
  {
    exists x :: x in active && x in stack && x in index && y in index && index[x] <= index[y] && Reach(g, y, x)
  }

  /** The components found so far: sorted, mutually connected, disjoint, and left only
      towards earlier ones. */
  ghost predicate Components(g: Calls, sccs: seq<seq<string>>)
  {
    && (forall i :: 0 <= i < |sccs| ==> sccs[i] != [] && Sorted(sccs[i]))
    && (forall i, x, y :: 0 <= i < |sccs| && x in sccs[i] && y in sccs[i] ==> Reach(g, x, y))
    && (forall i, j, x :: 0 <= i < j < |sccs| && x in sccs[i] ==> x !in sccs[j])
    && (forall i, x, y :: 0 <= i < |sccs| && x in sccs[i] && Edge(g, x, y) ==> Found(sccs[..i + 1], y))
  }

  ghost predicate Inv(g: Calls, active: set<string>, s: Search)
  {
    && Numbered(s) && Climbs(g, s.stack) && Components(g, s.sccs)
    && active <= Elements(s.stack)
    && (forall y :: y in s.stack ==> Returns(g, active, s.index, s.stack, y))
    && (forall y, z :: y in s.index && y !in active && Edge(g, y, z) ==> z in s.index)
  }

  /** What a search started later keeps of an earlier state. */
  ghost predicate Extends(s: Search, s': Search)
  {
    && s.stack <= s'.stack && s.sccs <= s'.sccs && s.next <= s'.next
    && (forall v :: v in s.index ==> v in s'.index && s'.index[v] == s.index[v])
    && (forall v :: v in s.index ==> v in s.low && v in s'.low && s'.low[v] == s.low[v])
    && (forall v :: v in s'.index && v !in s.index ==> s'.index[v] >= s.next)
  }

  /** Edges from the stack above `base` to the stack below it lead no deeper than `low`. */
  ghost predicate Bounded(g: Calls, s: Search, base: nat, low: nat)
  {
    forall i, j :: base <= i < |s.stack| && 0 <= j < base && j < |s.stack| && Edge(g, s.stack[i], s.stack[j]) ==>
      s.stack[j] in s.index && low <= s.index[s.stack[j]]
  }

  /** `low` is the number of a symbol on the stack that `v` reaches. */
  ghost predicate Attained(g: Calls, index: map<string, nat>, stack: seq<string>, v: string, low: nat)
  {
    exists y :: y in stack && y in index && index[y] == low && Reach(g, v, y)
  }

  /** The outcome of the search from `v`, begun in `s`. */
  ghost predicate Searched(g: Calls, active: set<string>, s: Search, s': Search, v: string)
  {
    && Inv(g, active, s') && Extends(s, s')
    && v in s'.index && v in s'.low && s'.index[v] == s.next
    && s'.low[v] <= s'.index[v]
    && Bounded(g, s', |s.stack|, s'.low[v])
    && (if v in s'.stack then Attained(g, s'.index, s'.stack, v, s'.low[v]) && s'.low[v] < s.next
        else s'.stack == s.stack && s'.low[v] == s'.index[v])
  }

  /** The state while the calls of `v` are followed: the first `i` have been. */
  ghost predicate Following(g: Calls, active: set<string>, s: Search, s': Search, v: string, i: nat)
  {
    && Open(g, active, s, s', v) && i <= |Targets(g, v)|
    && v in s'.low && Tight(g, s, s', v, i, s'.low[v])
  }

  /** `v` has been put on top of the stack of `s`. */
  ghost predicate Open(g: Calls, active: set<string>, s: Search, s': Search, v: string)
  {
    && Inv(g, active + {v}, s') && Extends(s, s')
    && v !in s.index && v in s'.index && s'.index[v] == s.next < s'.next
    && |s.stack| < |s'.stack| && s'.stack[|s.stack|] == v
  }

  /** `low` is the lowest number that the first `i` calls of `v` lead back to. */
  ghost predicate Tight(g: Calls, s: Search, s': Search, v: string, i: nat, low: nat)
    requires v in s'.index
  {
    && low <= s'.index[v] && Attained(g, s'.index, s'.stack, v, low)
    && BoundedAbove(g, s', |s.stack|, low)
    && Followed(g, s, s', v, i, low)
  }

  /** The first `i` calls of `v` lead to numbered symbols, no deeper than `low`. */
  ghost predicate Followed(g: Calls, s: Search, s': Search, v: string, i: nat, low: nat)
  {
    forall k :: 0 <= k < i && k < |Targets(g, v)| ==>
      Targets(g, v)[k] in s'.index &&
      (Targets(g, v)[k] in s.stack ==> low <= s'.index[Targets(g, v)[k]])
  }

  /** As `Bounded`, leaving out the symbol at `base` itself. */
  ghost predicate BoundedAbove(g: Calls, s: Search, base: nat, low: nat)
  {
    forall i, j :: base < i < |s.stack| && 0 <= j < base && Edge(g, s.stack[i], s.stack[j]) ==>
      s.stack[j] in s.index && low <= s.index[s.stack[j]]
  }

  /** Where a search may start: everything on the stack reaches `v`, which is new. */
  ghost predicate CanStart(g: Calls, active: set<string>, s: Search, v: string)
  {
    && Inv(g, active, s) && v !in s.index
    && (forall y :: y in s.stack ==> Reach(g, y, v))
  }

  function Numbering(s: Search, v: string): Search
  {
    Search(s.index[v := s.next], s.low[v := s.next], s.stack + [v], s.sccs, s.next + 1)
  }

  // ----- the steps -----

  lemma {:induction false} StackIndexed(s: Search, i: nat)
    requires Numbered(s) && i < |s.stack|
    ensures s.stack[i] in s.index && s.stack[i] in s.low && s.index[s.stack[i]] < s.next
  {
  }

  lemma {:induction false} Begin(g: Calls, active: set<string>, s: Search, v: string)
    requires CanStart(g, active, s, v)
    ensures Following(g, active, s, Numbering(s, v), v, 0)
  {
    hide Components, Reach, Edge, Numbered, Extends, Climbs, Returns;
    var s' := Numbering(s, v);
    ReachSelf(g, v);
    NumberingNumbered(s, v);
    NumberingClimbs(g, s, v);
    forall y | y in s'.stack ensures Returns(g, active + {v}, s'.index, s'.stack, y) {
      NumberingReturns(g, active, s, v, y);
    }
    assert s'.stack[|s.stack|] == v;
    forall y, z | y in s'.index && y !in active + {v} && Edge(g, y, z) ensures z in s'.index {
      assert y in s.index;
    }
  }

  lemma {:induction false} NumberingClimbs(g: Calls, s: Search, v: string)
    requires Climbs(g, s.stack) && forall y :: y in s.stack ==> Reach(g, y, v)
    ensures Climbs(g, Numbering(s, v).stack)
  {
    hide Reach;
    ReachSelf(g, v);
    var s' := Numbering(s, v);
    forall i, j | 0 <= i <= j < |s'.stack| ensures Reach(g, s'.stack[i], s'.stack[j]) {
      if j < |s.stack| {
        assert Reach(g, s.stack[i], s.stack[j]);
      }
    }
  }

  lemma {:induction false} NumberingReturns(g: Calls, active: set<string>, s: Search, v: string, y: string)
    requires v !in s.index && (y in s.stack ==> Returns(g, active, s.index, s.stack, y)) && (y in s.stack || y == v)
    ensures Returns(g, active + {v}, Numbering(s, v).index, Numbering(s, v).stack, y)
  {
    hide Reach;
    ReachSelf(g, v);
    var s' := Numbering(s, v);
    assert v in s'.stack;
    if y in s.stack {
      var x :| x in active && x in s.stack && x in s.index && s.index[x] <= s.index[y] && Reach(g, y, x);
      assert x in s'.stack;
    } else {
      assert v in active + {v};
    }
  }

  lemma {:induction false} NumberingNumbered(s: Search, v: string)
    requires Numbered(s) && v !in s.index
    ensures Numbered(Numbering(s, v)) && Extends(s, Numbering(s, v))
  {
    var s' := Numbering(s, v);
    assert forall i :: 0 <= i < |s.stack| ==> s.stack[i] in s.index;
    forall i, j | 0 <= i < j < |s'.stack| ensures s'.index[s'.stack[i]] < s'.index[s'.stack[j]] {
      assert s'.stack[i] == s.stack[i];
    }
  }

  // ----- following one call -----

  /** From everything on the stack `v` is reached: first down to an active symbol, then up. */
  lemma {:induction false} AllReach(g: Calls, active: set<string>, s: Search, s': Search, v: string, y: string)
    requires active <= Elements(s.stack) && y in s'.stack
    requires s.stack <= s'.stack && |s.stack| < |s'.stack| && s'.stack[|s.stack|] == v
    requires Climbs(g, s'.stack) && Returns(g, active + {v}, s'.index, s'.stack, y)
    ensures Reach(g, y, v)
  {
    hide Reach;
    var x :| x in active + {v} && x in s'.stack && x in s'.index && Reach(g, y, x);
    if x != v {
      var m :| 0 <= m < |s.stack| && s.stack[m] == x;
      assert s'.stack[m] == x && Reach(g, s'.stack[m], s'.stack[|s.stack|]);
      ReachTransitive(g, y, x, v);
    }
  }

  lemma {:induction false} CallStarts(g: Calls, active: set<string>, s: Search, s': Search, v: string, i: nat)
    requires active <= Elements(s.stack) && Following(g, active, s, s', v, i) && i < |Targets(g, v)|
    requires Targets(g, v)[i] !in s'.index
    ensures CanStart(g, active + {v}, s', Targets(g, v)[i])
  {
    hide Numbered, Components, Climbs, Returns, Reach, Edge, Attained, BoundedAbove, Followed;
    var w := Targets(g, v)[i];
    EdgeAt(g, v, i);
    assert Edge(g, v, w);
    ReachEdge(g, v, w);
    forall y | y in s'.stack ensures Reach(g, y, w) {
      AllReach(g, active, s, s', v, y);
      ReachTransitive(g, y, v, w);
    }
  }

  function WithLow(s: Search, v: string, low: nat): Search { s.(low := s.low[v := low]) }

  lemma {:induction false} LowFree(g: Calls, active: set<string>, s: Search, v: string, low: nat)
    requires Inv(g, active, s) && v in s.index
    ensures Inv(g, active, WithLow(s, v, low))
  {
    hide Components, Reach, Edge, Numbered, Returns, Climbs;
    NumberedLow(s, v, low);
  }

  lemma {:induction false} NumberedLow(s: Search, v: string, low: nat)
    requires Numbered(s) && v in s.index
    ensures Numbered(WithLow(s, v, low))
  {
    hide Found;
    assert WithLow(s, v, low).low.Keys == s.low.Keys;
  }

  lemma {:induction false} ExtendsTransitive(a: Search, b: Search, d: Search)
    requires Extends(a, b) && Extends(b, d)
    ensures Extends(a, d)
  {
  }

  lemma {:induction false} ExtendsLow(a: Search, b: Search, v: string, low: nat)
    requires Extends(a, b) && v !in a.index
    ensures Extends(a, WithLow(b, v, low))
  {
  }

  /** A call that leads to a symbol with a number: `low` is lowered, or stays, as attained. */
  lemma {:induction false} CallSeen(g: Calls, active: set<string>, s: Search, s': Search, v: string, i: nat, low: nat)
    requires v in s'.low && low <= s'.low[v] && i < |Targets(g, v)| && Targets(g, v)[i] in s'.index
    requires Targets(g, v)[i] in s.stack ==> low <= s'.index[Targets(g, v)[i]]
    requires Following(g, active, s, s', v, i) && Attained(g, s'.index, s'.stack, v, low)
    ensures Following(g, active, s, WithLow(s', v, low), v, i + 1)
  {
    hide Inv, Reach, Extends, Edge;
    LowFree(g, active + {v}, s', v, low);
    ExtendsLow(s, s', v, low);
  }

  lemma {:induction false} CallOnStack(g: Calls, s: Search, v: string, w: string)
    requires Numbered(s) && w in s.stack && Edge(g, v, w)
    ensures w in s.index && Attained(g, s.index, s.stack, v, s.index[w])
  {
    ReachEdge(g, v, w);
  }

  /** A call that starts a search of its own. */
  lemma {:induction false} CallDone(g: Calls, active: set<string>, s: Search, s': Search, s'': Search, v: string,
                                    i: nat, low: nat)
    requires i < |Targets(g, v)| && Targets(g, v)[i] !in s'.index
    requires v in s''.low && Targets(g, v)[i] in s''.low
    requires low == (if s''.low[Targets(g, v)[i]] < s''.low[v] then s''.low[Targets(g, v)[i]] else s''.low[v])
    requires Following(g, active, s, s', v, i)
    requires Searched(g, active + {v}, s', s'', Targets(g, v)[i])
    ensures Following(g, active, s, WithLow(s'', v, low), v, i + 1)
  {
    hide Inv, Reach, Edge, Attained, Bounded, BoundedAbove, Followed, Extends;
    var w := Targets(g, v)[i];
    assert Edge(g, v, w) by { EdgeAt(g, v, i); }
    ExtendsTransitive(s, s', s'');
    ExtendsAt(s', s'', v);
    OpenStays(g, active, s, s', s'', v);
    LowFree(g, active + {v}, s'', v, low);
    ExtendsLow(s, s'', v, low);
    if w in s''.stack && s''.low[w] < s''.low[v] {
      AttainedThrough(g, s'', v, w, low);
    } else {
      InvNext(g, active + {v}, s', v);
      AttainedStays(g, s', s'', v, s'.low[v]);
    }
    BoundedJoins(g, s, s', s'', v, w, low);
    FollowedNext(g, active, s, s', s'', v, i, low);
  }

  lemma {:induction false} EdgeAt(g: Calls, v: string, i: nat)
    requires i < |Targets(g, v)|
    ensures Edge(g, v, Targets(g, v)[i])
  {
  }

  lemma {:induction false} ExtendsAt(s: Search, s': Search, v: string)
    requires Extends(s, s') && v in s.index
    ensures v in s'.index && s'.index[v] == s.index[v] && v in s.low && v in s'.low && s'.low[v] == s.low[v]
    ensures s.stack <= s'.stack && s.next <= s'.next
  {
  }

  lemma {:induction false} InvNext(g: Calls, active: set<string>, s: Search, v: string)
    requires Inv(g, active, s) && v in s.index
    ensures s.index[v] < s.next
  {
  }

  lemma {:induction false} OpenStays(g: Calls, active: set<string>, s: Search, s': Search, s'': Search, v: string)
    requires Open(g, active, s, s', v) && Extends(s', s'') && Inv(g, active + {v}, s'')
    ensures Open(g, active, s, s'', v)
  {
    hide Inv;
    ExtendsTransitive(s, s', s'');
    assert s''.stack[|s.stack|] == s'.stack[|s.stack|];
  }

  lemma {:induction false} AttainedThrough(g: Calls, s: Search, v: string, w: string, low: nat)
    requires Edge(g, v, w) && Attained(g, s.index, s.stack, w, low)
    ensures Attained(g, s.index, s.stack, v, low)
  {
    hide Reach;
    var y :| y in s.stack && y in s.index && s.index[y] == low && Reach(g, w, y);
    ReachEdge(g, v, w);
    ReachTransitive(g, v, w, y);
  }

  lemma {:induction false} AttainedStays(g: Calls, s: Search, s': Search, v: string, low: nat)
    requires Attained(g, s.index, s.stack, v, low) && Extends(s, s')
    ensures Attained(g, s'.index, s'.stack, v, low)
  {
    hide Reach;
    var y :| y in s.stack && y in s.index && s.index[y] == low && Reach(g, v, y);
    assert y in s'.stack;
  }

  /** What lay above `v` and what the new search left there are both bounded. */
  lemma {:induction false} BoundedJoins(g: Calls, s: Search, s': Search, s'': Search, v: string, w: string, low: nat)
    requires |s.stack| < |s'.stack| && Extends(s', s'') && w in s''.low
    requires v in s'.low && BoundedAbove(g, s', |s.stack|, s'.low[v]) && low <= s'.low[v]
    requires Bounded(g, s'', |s'.stack|, s''.low[w]) && low <= s''.low[w]
    ensures BoundedAbove(g, WithLow(s'', v, low), |s.stack|, low)
  {
    hide Reach, Edge;
    forall i, j | |s.stack| < i < |s''.stack| && 0 <= j < |s.stack| && Edge(g, s''.stack[i], s''.stack[j])
      ensures s''.stack[j] in s''.index && low <= s''.index[s''.stack[j]]
    {
      assert s''.stack[j] == s'.stack[j];
      if i < |s'.stack| {
        assert s''.stack[i] == s'.stack[i];
      }
    }
  }

  lemma {:induction false} FollowedNext(g: Calls, active: set<string>, s: Search, s': Search, s'': Search, v: string,
                                        i: nat, low: nat)
    requires Open(g, active, s, s', v) && Extends(s', s'') && i < |Targets(g, v)|
    requires v in s'.low && Followed(g, s, s', v, i, s'.low[v]) && low <= s'.low[v]
    requires Targets(g, v)[i] !in s'.index && Targets(g, v)[i] in s''.index
    ensures Followed(g, s, WithLow(s'', v, low), v, i + 1, low)
  {
    hide Reach, Edge, Components, Climbs, Returns;
    forall k | 0 <= k < i + 1
      ensures Targets(g, v)[k] in s''.index
      ensures Targets(g, v)[k] in s.stack ==> low <= s''.index[Targets(g, v)[k]]
    {
      StackKept(s, s', Targets(g, v)[k]);
    }
  }

  lemma {:induction false} StackKept(s: Search, s': Search, y: string)
    requires Numbered(s') && s.stack <= s'.stack
    ensures y in s.stack ==> y in s'.index
  {
    hide Found;
    if y in s.stack {
      var j :| 0 <= j < |s.stack| && s.stack[j] == y;
      assert s'.stack[j] == y;
    }
  }

  // ----- the end of a search -----

  /** Every call of `v` has a number once all have been followed. */
  lemma {:induction false} AllFollowed(g: Calls, s: Search, s': Search, v: string, low: nat, z: string)
    requires Followed(g, s, s', v, |Targets(g, v)|, low) && Edge(g, v, z)
    ensures z in s'.index && (z in s.stack ==> low <= s'.index[z])
  {
    var k :| 0 <= k < |Targets(g, v)| && Targets(g, v)[k] == z;
  }

  /** An edge from `v` or from above it leads to a numbered symbol, and if that lies below
      `v`, no deeper than `low`. */
  lemma {:induction false} EdgeFrom(g: Calls, active: set<string>, s: Search, s': Search, v: string, y: string,
                                    z: string)
    requires active <= Elements(s.stack) && v in s'.low
    requires Following(g, active, s, s', v, |Targets(g, v)|)
    requires y in s'.stack[|s.stack|..] && Edge(g, y, z)
    ensures z in s'.index && (z in s.stack ==> s'.low[v] <= s'.index[z])
  {
    hide Inv, Open, Numbered, Components, Reach, Attained, Followed, Edge, BoundedAbove;
    var base := |s.stack|;
    OpenAt(g, active, s, s', v, |Targets(g, v)|);
    var i :| base <= i < |s'.stack| && s'.stack[i] == y;
    if i == base {
      AllFollowed(g, s, s', v, s'.low[v], z);
    } else {
      assert s'.stack[..base] == s.stack && s'.stack[base] == v;
      NotActive(s', active, base, i);
      StackIndexed(s', i);
      EdgesIndexed(g, active + {v}, s', y, z);
      if z in s.stack {
        var j :| 0 <= j < base && s.stack[j] == z;
        assert s'.stack[j] == z;
        BoundedAt(g, s', base, s'.low[v], i, j);
      }
    }
  }

  lemma {:induction false} EdgesIndexed(g: Calls, active: set<string>, s: Search, y: string, z: string)
    requires Inv(g, active, s) && y in s.index && y !in active && Edge(g, y, z)
    ensures z in s.index
  {
    hide Numbered, Components, Climbs, Returns;
  }

  lemma {:induction false} BoundedAt(g: Calls, s: Search, base: nat, low: nat, i: nat, j: nat)
    requires BoundedAbove(g, s, base, low) && base < i < |s.stack| && j < base && Edge(g, s.stack[i], s.stack[j])
    ensures s.stack[j] in s.index && low <= s.index[s.stack[j]]
  {
    hide Edge;
  }

  lemma {:induction false} NotActive(s: Search, active: set<string>, base: nat, i: nat)
    requires Numbered(s) && base < i < |s.stack| && active <= Elements(s.stack[..base])
    ensures s.stack[i] !in active + {s.stack[base]}
  {
    hide Found;
    forall x | x in active ensures x != s.stack[i] {
      var j :| 0 <= j < base && s.stack[..base][j] == x;
      assert s.index[s.stack[j]] < s.index[s.stack[i]];
    }
    assert s.index[s.stack[base]] < s.index[s.stack[i]];
  }

  /** Below `v` the numbers are smaller, and nothing below `v` is `v`. */
  lemma {:induction false} BelowTop(s: Search, s': Search, v: string, y: string)
    requires Numbered(s') && s.stack <= s'.stack && |s.stack| < |s'.stack| && s'.stack[|s.stack|] == v
    requires y in s.stack
    ensures v in s'.index && y in s'.index && s'.index[y] < s'.index[v] && y != v && y in s'.stack
  {
    hide Found;
    var j :| 0 <= j < |s.stack| && s.stack[j] == y;
    assert s'.stack[j] == y;
  }

  lemma {:induction false} ReturnsTo(g: Calls, active: set<string>, s: Search, y: string) returns (x: string)
    requires Returns(g, active, s.index, s.stack, y)
    ensures x in active && x in s.stack && x in s.index && y in s.index && s.index[x] <= s.index[y] && Reach(g, y, x)
  {
    hide Reach;
    x :| x in active && x in s.stack && x in s.index && y in s.index && s.index[x] <= s.index[y] && Reach(g, y, x);
  }

  /** Without `v`, which reaches below itself, everything still returns to an active symbol. */
  lemma {:induction false} ReturnsPast(g: Calls, active: set<string>, s: Search, v: string, y: string, low: nat)
    requires v in s.index && y in s.index && y in s.stack
    requires Attained(g, s.index, s.stack, v, low) && low < s.index[v]
    requires forall x :: x in s.stack ==> Returns(g, active + {v}, s.index, s.stack, x)
    ensures Returns(g, active, s.index, s.stack, y)
  {
    hide Reach, Returns;
    var x := ReturnsTo(g, active + {v}, s, y);
    if x == v {
      var y0 :| y0 in s.stack && y0 in s.index && s.index[y0] == low && Reach(g, v, y0);
      x := ReturnsTo(g, active + {v}, s, y0);
      ReachTransitive(g, y, v, y0);
      ReachTransitive(g, y, y0, x);
    }
    ReturnsBy(g, active, s, y, x);
  }

  lemma {:induction false} ReturnsBy(g: Calls, active: set<string>, s: Search, y: string, x: string)
    requires x in active && x in s.stack && x in s.index && y in s.index && s.index[x] <= s.index[y] && Reach(g, y, x)
    ensures Returns(g, active, s.index, s.stack, y)
  {
    hide Reach;
  }

  lemma {:induction false} StaysBounded(g: Calls, active: set<string>, s: Search, s': Search, v: string)
    requires v in s'.low && s.stack <= s'.stack && active <= Elements(s.stack)
    requires Following(g, active, s, s', v, |Targets(g, v)|)
    ensures Bounded(g, s', |s.stack|, s'.low[v])
  {
    hide Following, Edge;
    var base := |s.stack|;
    forall i, j | base <= i < |s'.stack| && 0 <= j < base && Edge(g, s'.stack[i], s'.stack[j])
      ensures s'.stack[j] in s'.index && s'.low[v] <= s'.index[s'.stack[j]]
    {
      assert s'.stack[j] == s.stack[j];
      assert s'.stack[i] == s'.stack[base..][i - base];
      EdgeFrom(g, active, s, s', v, s'.stack[i], s'.stack[j]);
    }
  }

  lemma {:induction false} StaysInv(g: Calls, active: set<string>, s: Search, s': Search, v: string)
    requires active <= Elements(s.stack) && v in s'.low && v in s'.index && s'.low[v] < s'.index[v]
    requires Following(g, active, s, s', v, |Targets(g, v)|)
    ensures Inv(g, active, s')
  {
    hide Numbered, Components, Reach, Climbs, Returns, Attained, Edge, Followed, BoundedAbove, Extends;
    OpenAt(g, active, s, s', v, |Targets(g, v)|);
    forall y | y in s'.stack ensures Returns(g, active, s'.index, s'.stack, y) {
      Place(s', y);
      IndexedOnStack(s', y);
      ReturnsPast(g, active, s', v, y, s'.low[v]);
    }
    forall y, z | y in s'.index && y !in active && Edge(g, y, z) ensures z in s'.index {
      if y == v {
        AllFollowed(g, s, s', v, s'.low[v], z);
      }
    }
    assert forall x :: x in s.stack ==> x in s'.stack;
  }

  lemma {:induction false} IndexedOnStack(s: Search, y: string)
    requires Numbered(s) && y in s.stack
    ensures y in s.index
  {
    hide Found;
  }

  /** `v` reaches below itself: it stays on the stack. */
  lemma {:induction false} StaysOpen(g: Calls, active: set<string>, s: Search, s': Search, v: string)
    requires active <= Elements(s.stack) && v in s'.low && v in s'.index && s'.low[v] < s'.index[v]
    requires Following(g, active, s, s', v, |Targets(g, v)|)
    ensures Searched(g, active, s, s', v)
  {
    hide Inv, Attained, Edge, Followed, Bounded, BoundedAbove;
    OpenAt(g, active, s, s', v, |Targets(g, v)|);
    StaysInv(g, active, s, s', v);
    StaysBounded(g, active, s, s', v);
    assert s'.stack[|s.stack|] in s'.stack;
  }

  /** The state after the component of `v`, which lies on the stack above `base`, is taken off. */
  function TakeOff(s: Search, base: nat): Search
    requires base <= |s.stack|
  {
    s.(stack := s.stack[..base], sccs := s.sccs + [SortedKeys(Elements(s.stack[base..]))])
  }

  lemma {:induction false} FoundNext(sccs: seq<seq<string>>, c: seq<string>, v: string)
    ensures Found(sccs + [c], v) <==> Found(sccs, v) || v in c
  {
    if Found(sccs, v) {
      var i :| 0 <= i < |sccs| && v in sccs[i];
      assert v in (sccs + [c])[i];
    }
    if v in c {
      assert v in (sccs + [c])[|sccs|];
    }
  }

  lemma {:induction false} NumberedOff(s: Search, base: nat)
    requires Numbered(s) && base <= |s.stack|
    ensures Numbered(TakeOff(s, base))
  {
    hide Found;
    var s' := TakeOff(s, base);
    var c := SortedKeys(Elements(s.stack[base..]));
    forall v
      ensures Found(s'.sccs, v) <==> Found(s.sccs, v) || v in s.stack[base..]
      ensures v in s.stack <==> v in s'.stack || v in s.stack[base..]
      ensures v in s'.stack ==> v !in s.stack[base..]
    {
      FoundNext(s.sccs, c, v);
      assert s.stack == s.stack[..base] + s.stack[base..];
      StackApart(s, base, v);
    }
  }

  lemma {:induction false} StackApart(s: Search, base: nat, v: string)
    requires Numbered(s) && base <= |s.stack|
    ensures v in s.stack[..base] ==> v !in s.stack[base..]
  {
    hide Found;
    if v in s.stack[..base] {
      var i :| 0 <= i < base && s.stack[..base][i] == v;
      forall j | base <= j < |s.stack| ensures s.stack[j] != v {
        assert s.index[s.stack[i]] < s.index[s.stack[j]];
      }
    }
  }

  lemma {:induction false} OpenAt(g: Calls, active: set<string>, s: Search, s': Search, v: string, i: nat)
    requires Following(g, active, s, s', v, i)
    ensures Open(g, active, s, s', v) && Inv(g, active + {v}, s') && Numbered(s') && Components(g, s'.sccs)
    ensures s.stack <= s'.stack && |s.stack| < |s'.stack| && s'.stack[|s.stack|..][0] == v
  {
    hide Numbered, Components, Climbs, Returns, Edge, Tight;
  }

  lemma {:induction false} Place(s: Search, z: string)
    requires Numbered(s)
    ensures z in s.index ==> z in s.stack || Found(s.sccs, z)
    ensures z in s.stack ==> !Found(s.sccs, z)
  {
  }

  /** What lies on the stack from `v` upwards is one component, and no edge leaves it but to
      earlier components. */
  lemma {:induction false} ComponentsOff(g: Calls, active: set<string>, s: Search, s': Search, v: string)
    requires v in s'.low && v in s'.index && s'.low[v] == s'.index[v]
    requires active <= Elements(s.stack) && Following(g, active, s, s', v, |Targets(g, v)|)
    ensures |s.stack| <= |s'.stack| && Components(g, TakeOff(s', |s.stack|).sccs)
  {
    hide Reach, Edge, Found, Components, Numbered, Following, Open, Inv, Sorted;
    OpenAt(g, active, s, s', v, |Targets(g, v)|);
    var top := s'.stack[|s.stack|..];
    var c := SortedKeys(Elements(top));
    assert s'.stack == s.stack + top;
    assert v in c;
    forall x, y | x in c && y in c ensures Reach(g, x, y) {
      TopReaches(g, active, s, s', v, x, y);
    }
    forall x | x in c ensures !Found(s'.sccs, x) {
      Place(s', x);
    }
    forall x, z | x in c && Edge(g, x, z) ensures Found(s'.sccs, z) || z in c {
      EdgeFrom(g, active, s, s', v, x, z);
      Place(s', z);
      if z in s.stack {
        BelowTop(s, s', v, z);
      }
    }
    ComponentsNext(g, s'.sccs, c);
  }

  lemma {:induction false} TopReaches(g: Calls, active: set<string>, s: Search, s': Search, v: string, x: string,
                                      y: string)
    requires active <= Elements(s.stack) && Open(g, active, s, s', v)
    requires x in s'.stack[|s.stack|..] && y in s'.stack[|s.stack|..]
    ensures Reach(g, x, y)
  {
    hide Reach, Components, Numbered, Returns;
    AllReach(g, active, s, s', v, x);
    var j :| |s.stack| <= j < |s'.stack| && s'.stack[j] == y;
    assert Reach(g, s'.stack[|s.stack|], s'.stack[j]);
    ReachTransitive(g, x, v, y);
  }

  lemma {:induction false} ComponentsNext(g: Calls, sccs: seq<seq<string>>, c: seq<string>)
    requires Components(g, sccs) && c != [] && Sorted(c)
    requires forall x, y :: x in c && y in c ==> Reach(g, x, y)
    requires forall x :: x in c ==> !Found(sccs, x)
    requires forall x, z :: x in c && Edge(g, x, z) ==> Found(sccs, z) || z in c
    ensures Components(g, sccs + [c])
  {
    hide Reach, Edge, Sorted;
    var more := sccs + [c];
    forall i, x, y | 0 <= i < |more| && x in more[i] && Edge(g, x, y) ensures Found(more[..i + 1], y) {
      if i < |sccs| {
        assert more[..i + 1] == sccs[..i + 1];
      } else {
        assert more[..i + 1] == sccs + [c];
        FoundNext(sccs, c, y);
      }
    }
  }

  lemma {:induction false} TakesOff(g: Calls, active: set<string>, s: Search, s': Search, v: string)
    requires v in s'.low && v in s'.index && s'.low[v] == s'.index[v] && |s.stack| <= |s'.stack|
    requires active <= Elements(s.stack) && Following(g, active, s, s', v, |Targets(g, v)|)
    ensures Searched(g, active, s, TakeOff(s', |s.stack|), v)
  {
    hide Reach, Edge, Found, Returns, Attained, BoundedAbove, Components, Numbered, Followed;
    var base := |s.stack|;
    var s'' := TakeOff(s', base);
    assert s''.stack == s.stack;
    NumberedOff(s', base);
    ComponentsOff(g, active, s, s', v);
    forall y | y in s.stack ensures Returns(g, active, s''.index, s''.stack, y) && y != v {
      BelowTop(s, s', v, y);
      ReturnsBelow(g, active, s, s', v, y);
    }
    forall y, z | y in s''.index && y !in active && Edge(g, y, z) ensures z in s''.index {
      if y == v {
        AllFollowed(g, s, s', v, s'.low[v], z);
      }
    }
    ClimbsBelow(g, s'.stack, base);
    ExtendsOff(s, s');
  }

  lemma {:induction false} ExtendsOff(s: Search, s': Search)
    requires Extends(s, s')
    ensures Extends(s, TakeOff(s', |s.stack|))
  {
  }

  lemma {:induction false} ClimbsBelow(g: Calls, stack: seq<string>, base: nat)
    requires Climbs(g, stack) && base <= |stack|
    ensures Climbs(g, stack[..base])
  {
    hide Reach;
  }

  lemma {:induction false} ReturnsBelow(g: Calls, active: set<string>, s: Search, s': Search, v: string, y: string)
    requires active <= Elements(s.stack) && Returns(g, active + {v}, s'.index, s'.stack, y)
    requires v in s'.index && y in s'.index && s'.index[y] < s'.index[v]
    ensures Returns(g, active, s'.index, s.stack, y)
  {
    hide Reach;
    var x :| x in active + {v} && x in s'.stack && x in s'.index && s'.index[x] <= s'.index[y] && Reach(g, y, x);
  }

  // ----- the algorithm -----

  lemma {:induction false} StartFacts(g: Calls, active: set<string>, s: Search, v: string)
    requires CanStart(g, active, s, v)
    ensures active <= Elements(s.stack) && v !in s.index
  {
  }

  ghost predicate Usable(g: Calls, s: Search, s': Search, v: string)
  {
    && v in s'.index && v in s'.low && s'.low[v] <= s'.index[v]
    && Numbered(s') && s'.low.Keys == s'.index.Keys && Attained(g, s'.index, s'.stack, v, s'.low[v])
    && |s.stack| < |s'.stack| && s'.stack[|s.stack|] == v
    && (forall y :: y in s.stack ==> y in s'.stack)
    && (forall i, j :: 0 <= i < j < |s'.stack| ==> s'.stack[i] != s'.stack[j])
  }

  lemma {:induction false} FollowingFacts(g: Calls, active: set<string>, s: Search, s': Search, v: string, i: nat)
    requires Following(g, active, s, s', v, i)
    ensures Usable(g, s, s', v)
  {
    hide Components, Climbs, Returns, Edge, Attained, BoundedAbove, Followed, Found;
  }

  lemma {:induction false} SearchedFacts(g: Calls, active: set<string>, s: Search, s': Search, v: string)
    requires Searched(g, active, s, s', v)
    ensures Extends(s, s') && s.index.Keys <= s'.index.Keys && v in s'.index && v in s'.low
    ensures s'.low.Keys == s'.index.Keys
  {
    hide Components, Climbs, Returns, Edge, Attained, Bounded, Found;
  }

  class Tarjan {
    const adj: Calls
    var index: map<string, nat>
    var lowlink: map<string, nat>
    var onStack: set<string>
    var stack: seq<string>
    var nextIndex: nat
    var sccs: seq<seq<string>>

    ghost function Now(): Search
      reads this
    {
      Search(index, lowlink, stack, sccs, nextIndex)
    }

    constructor (calls: Calls)
      ensures adj == calls && onStack == {} && Now() == Search(map[], map[], [], [], 0)
    {
      adj := calls;
      index, lowlink, onStack, stack, nextIndex, sccs := map[], map[], {}, [], 0, [];
    }

    /** Takes the component of `v` off the stack, sorts it and records it. */
    method PopComponent(v: string, ghost base: nat)
      requires base < |stack| && stack[base] == v && onStack == Elements(stack)
      requires forall i, j :: 0 <= i < j < |stack| ==> stack[i] != stack[j]
      modifies this
      ensures Now() == TakeOff(old(Now()), base) && onStack == Elements(stack)
    {
      hide SortedKeys;
      ghost var was := stack;
      var w := stack[|stack| - 1];
      stack, onStack := stack[..|stack| - 1], onStack - {w};
      var scc := [w];
      while w != v
        invariant base <= |stack| < |was| && stack == was[..|stack|] && w == was[|stack|]
        invariant onStack == Elements(stack) && Elements(scc) == Elements(was[|stack|..])
        invariant Now() == old(Now()).(stack := stack)
        decreases |stack|
      {
        w := stack[|stack| - 1];
        assert w == was[|stack| - 1];
        assert was[|stack| - 1..] == [w] + was[|stack|..];
        stack, onStack := stack[..|stack| - 1], onStack - {w};
        scc := scc + [w];
      }
      sccs := sccs + [SortedKeys(Elements(scc))];
    }

    /** One call of `v`: a symbol without a number is searched, one on the stack lowers the
        link of `v`, one in a component changes nothing. */
    method FollowCall(v: string, i: nat, ghost s: Search, ghost active: set<string>, ghost all: set<string>)
      requires active <= Elements(s.stack) && Following(adj, active, s, Now(), v, i) && onStack == Elements(stack)
      requires i < |Targets(adj, v)| && s.index.Keys + {v} <= index.Keys <= all
      requires forall x, y :: Edge(adj, x, y) ==> y in all
      modifies this
      ensures Following(adj, active, s, Now(), v, i + 1) && onStack == Elements(stack)
      ensures s.index.Keys + {v} <= index.Keys <= all
      decreases all - index.Keys, 1
    {
      hide Inv, Searched, Following, Edge, Attained, Reach, CanStart, Extends;
      var w := Targets(adj, v)[i];
      ghost var s' := Now();
      EdgeAt(adj, v, i);
      FollowingFacts(adj, active, s, s', v, i);
      if w !in index {
        CallStarts(adj, active, s, s', v, i);
        StrongConnect(w, active + {v}, all);
        SearchedFacts(adj, active + {v}, s', Now(), w);
        ghost var s'' := Now();
        ExtendsAt(s', s'', v);
        var low := if lowlink[w] < lowlink[v] then lowlink[w] else lowlink[v];
        CallDone(adj, active, s, s', s'', v, i, low);
        lowlink := lowlink[v := low];
      } else if w in onStack {
        CallOnStack(adj, s', v, w);
        var low := if index[w] < lowlink[v] then index[w] else lowlink[v];
        CallSeen(adj, active, s, s', v, i, low);
        lowlink := lowlink[v := low];
      } else {
        CallSeen(adj, active, s, s', v, i, lowlink[v]);
        assert lowlink[v := lowlink[v]] == lowlink;
      }
    }

    /** The search from `v`, among the symbols of `all`, while those of `active` are being
        searched. */
    method StrongConnect(v: string, ghost active: set<string>, ghost all: set<string>)
      requires CanStart(adj, active, Now(), v) && onStack == Elements(stack)
      requires v in all && index.Keys <= all && forall x, y :: Edge(adj, x, y) ==> y in all
      modifies this
      ensures Searched(adj, active, old(Now()), Now(), v) && onStack == Elements(stack)
      ensures index.Keys <= all
      decreases all - index.Keys, 0
    {
      hide Inv, Searched, Following, Edge, Attained, Reach, CanStart, Extends;
      ghost var s := Now();
      Begin(adj, active, s, v);
      StartFacts(adj, active, s, v);
      index := index[v := nextIndex];
      lowlink := lowlink[v := nextIndex];
      nextIndex := nextIndex + 1;
      stack := stack + [v];
      onStack := onStack + {v};
      assert Now() == Numbering(s, v);
      var targets := Targets(adj, v);
      for i := 0 to |targets|
        invariant Following(adj, active, s, Now(), v, i) && onStack == Elements(stack)
        invariant s.index.Keys + {v} <= index.Keys <= all
      {
        FollowCall(v, i, s, active, all);
      }
      ghost var s' := Now();
      FollowingFacts(adj, active, s, s', v, |targets|);
      if lowlink[v] == index[v] {
        TakesOff(adj, active, s, s', v);
        PopComponent(v, |s.stack|);
      } else {
        StaysOpen(adj, active, s, s', v);
      }
    }

    /** Searches from every symbol, in lexicographic order. */
    method Run(ghost all: set<string>, sortedKeys: seq<string>)
      requires forall v :: v in sortedKeys <==> v in all
      requires Now() == Search(map[], map[], [], [], 0) && onStack == {}
      requires forall x, y :: Edge(adj, x, y) ==> y in all
      modifies this
      ensures Components(adj, sccs) && forall v :: v in all <==> Found(sccs, v)
    {
      hide Inv, Searched, Edge, Reach, Components, CanStart, Found;
      NothingYet(adj);
      for i := 0 to |sortedKeys|
        invariant Inv(adj, {}, Now()) && onStack == Elements(stack) && index.Keys <= all
        invariant forall k :: 0 <= k < i ==> sortedKeys[k] in index
      {
        var key := sortedKeys[i];
        if key !in index {
          NoneActive(adj, Now());
          ghost var s := Now();
          AloneStarts(adj, s, key);
          StrongConnect(key, {}, all);
          SearchedFacts(adj, {}, s, Now(), key);
          SearchedInv(adj, {}, s, Now(), key);
        }
      }
      NoneActive(adj, Now());
      forall v ensures v in all <==> Found(sccs, v) {
        FoundIsIndexed(Now(), v);
      }
    }
  }

  lemma {:induction false} NothingYet(g: Calls)
    ensures Inv(g, {}, Search(map[], map[], [], [], 0))
  {
    hide Reach, Edge;
  }

  /** While nothing is active the stack is empty. */
  lemma {:induction false} NoneActive(g: Calls, s: Search)
    requires Inv(g, {}, s)
    ensures s.stack == [] && Numbered(s) && Components(g, s.sccs)
  {
    hide Numbered, Components, Climbs, Edge, Reach, Returns;
    if s.stack != [] {
      NoReturn(g, s, s.stack[0]);
    }
  }

  lemma {:induction false} NoReturn(g: Calls, s: Search, y: string)
    ensures !Returns(g, {}, s.index, s.stack, y)
  {
  }

  lemma {:induction false} AloneStarts(g: Calls, s: Search, v: string)
    requires Inv(g, {}, s) && s.stack == [] && v !in s.index
    ensures CanStart(g, {}, s, v)
  {
    hide Inv;
  }

  lemma {:induction false} SearchedInv(g: Calls, active: set<string>, s: Search, s': Search, v: string)
    requires Searched(g, active, s, s', v)
    ensures Inv(g, active, s')
  {
    hide Inv, Extends, Bounded, Attained;
  }

  lemma {:induction false} FoundIsIndexed(s: Search, v: string)
    requires Numbered(s) && s.stack == []
    ensures v in s.index <==> Found(s.sccs, v)
  {
  }

  // ----- the order -----

  function Reversed<T>(s: seq<T>): (r: seq<T>)
    ensures |r| == |s| && forall i :: 0 <= i < |s| ==> r[i] == s[|s| - 1 - i]
  {
    if s == [] then [] else [s[|s| - 1]] + Reversed(s[..|s| - 1])
  }

  function Flatten(groups: seq<seq<string>>): seq<string>
  {
    if groups == [] then [] else Flatten(groups[..|groups| - 1]) + groups[|groups| - 1]
  }

  /** Groups in emission order: sorted components, and paths lead forward only. */
  ghost predicate Layers(g: Calls, groups: seq<seq<string>>)
  {
    && (forall a :: 0 <= a < |groups| ==> Sorted(groups[a]))
    && (forall a, x, y :: 0 <= a < |groups| && x in groups[a] && y in groups[a] ==> Reach(g, x, y))
    && (forall a, b, x, y ::
          0 <= a < |groups| && 0 <= b < |groups| && x in groups[a] && y in groups[b] && Reach(g, x, y) ==> a <= b)
  }

  /** A path from a component leads to it or to earlier ones. */
  lemma {:induction false} PathsGoBack(g: Calls, sccs: seq<seq<string>>, a: nat, b: nat, x: string, y: string)
    requires Components(g, sccs) && a < |sccs| && b < |sccs| && x in sccs[a] && y in sccs[b] && Reach(g, x, y)
    ensures b <= a
  {
    hide Edge, Reach;
    var early := sccs[..a + 1];
    var s := iset v | Found(early, v);
    assert x in early[a];
    forall u, v | u in s && Edge(g, u, v) ensures v in s {
      var i :| 0 <= i < a + 1 && u in sccs[..a + 1][i];
      assert Found(sccs[..i + 1], v);
      var k :| 0 <= k < i + 1 && v in sccs[..i + 1][k];
      assert v in sccs[..a + 1][k];
    }
    ClosedReach(g, s, x, y);
    var i :| 0 <= i < a + 1 && y in sccs[..a + 1][i];
    assert y in sccs[i];
  }

  lemma {:induction false} ComponentsLayers(g: Calls, sccs: seq<seq<string>>)
    requires Components(g, sccs)
    ensures Layers(g, Reversed(sccs))
  {
    hide Components, Edge, Reach, Sorted;
    var n, groups := |sccs|, Reversed(sccs);
    assert forall a :: 0 <= a < n ==> Sorted(sccs[a]) by { ComponentsParts(g, sccs); }
    forall a, x, y | 0 <= a < n && x in groups[a] && y in groups[a] ensures Reach(g, x, y) {
      ComponentsParts(g, sccs);
      assert x in sccs[n - 1 - a];
    }
    forall a, b, x, y | 0 <= a < n && 0 <= b < n && x in groups[a] && y in groups[b] && Reach(g, x, y)
      ensures a <= b
    {
      PathsGoBack(g, sccs, n - 1 - a, n - 1 - b, x, y);
    }
  }

  lemma {:induction false} ComponentsParts(g: Calls, sccs: seq<seq<string>>)
    requires Components(g, sccs)
    ensures forall i :: 0 <= i < |sccs| ==> Sorted(sccs[i])
    ensures forall i, x, y :: 0 <= i < |sccs| && x in sccs[i] && y in sccs[i] ==> Reach(g, x, y)
  {
    hide Edge, Reach, Found, Sorted;
  }

  /** Earlier positions lie in earlier groups, or earlier in the same one. */
  lemma {:induction false} FlattenOrder(groups: seq<seq<string>>, i: nat, j: nat) returns (a: nat, b: nat)
    requires i < j < |Flatten(groups)| && forall a :: 0 <= a < |groups| ==> Sorted(groups[a])
    ensures a <= b < |groups| && Flatten(groups)[i] in groups[a] && Flatten(groups)[j] in groups[b]
    ensures a == b ==> Less(Flatten(groups)[i], Flatten(groups)[j])
    decreases |groups|
  {
    var n := |groups| - 1;
    var before := Flatten(groups[..n]);
    if j < |before| {
      a, b := FlattenOrder(groups[..n], i, j);
    } else if i >= |before| {
      a, b := n, n;
    } else {
      b := n;
      a := FlattenAt(groups[..n], i);
    }
  }

  lemma {:induction false} FlattenAt(groups: seq<seq<string>>, i: nat) returns (a: nat)
    requires i < |Flatten(groups)|
    ensures a < |groups| && Flatten(groups)[i] in groups[a]
    decreases |groups|
  {
    var n := |groups| - 1;
    if i < |Flatten(groups[..n])| {
      a := FlattenAt(groups[..n], i);
    } else {
      a := n;
    }
  }

  lemma {:induction false} FlattenFound(groups: seq<seq<string>>, v: string)
    ensures v in Flatten(groups) <==> Found(groups, v)
    decreases |groups|
  {
    if groups != [] {
      var n := |groups| - 1;
      FlattenFound(groups[..n], v);
      FoundNext(groups[..n], groups[n], v);
      assert groups[..n] + [groups[n]] == groups;
    }
  }

  /** `v` leads to another component, that of `w`. */
  ghost predicate OneWay(g: Calls, v: string, w: string) { Reach(g, v, w) && !Reach(g, w, v) }

  /** The emission order of `symbols`: each once; strongly connected symbols next to each
      other, in lexicographic order; every path between components leads forward. */
  ghost predicate EmissionOrder(g: Calls, symbols: set<string>, ordered: seq<string>)
  {
    && (forall v :: v in ordered <==> v in symbols)
    && (forall i, j :: 0 <= i < j < |ordered| ==> ordered[i] != ordered[j])
    && (forall i, j :: 0 <= i < j < |ordered| && Strong(g, ordered[i], ordered[j]) ==> Less(ordered[i], ordered[j]))
    && (forall i, j, k :: 0 <= i < j < k < |ordered| && Strong(g, ordered[i], ordered[k]) ==>
          Strong(g, ordered[i], ordered[j]))
    && (forall i, j :: 0 <= i < |ordered| && 0 <= j < |ordered| && OneWay(g, ordered[i], ordered[j]) ==> i < j)
  }

  lemma {:induction false} LayersOrder(g: Calls, symbols: set<string>, groups: seq<seq<string>>)
    requires Layers(g, groups) && forall v :: v in symbols <==> Found(groups, v)
    ensures EmissionOrder(g, symbols, Flatten(groups))
  {
    hide Reach, Found, Sorted, Flatten;
    var ordered := Flatten(groups);
    forall v ensures v in ordered <==> v in symbols {
      FlattenFound(groups, v);
    }
    forall i, j | 0 <= i < j < |ordered|
      ensures ordered[i] != ordered[j]
      ensures Strong(g, ordered[i], ordered[j]) ==> Less(ordered[i], ordered[j])
      ensures Reach(g, ordered[j], ordered[i]) ==> Strong(g, ordered[j], ordered[i])
    {
      PairOrder(g, groups, i, j);
    }
    forall i, j, k | 0 <= i < j < k < |ordered| && Strong(g, ordered[i], ordered[k])
      ensures Strong(g, ordered[i], ordered[j])
    {
      Between(g, groups, i, j, k);
    }
    forall i, j | 0 <= i < |ordered| && 0 <= j < |ordered| && OneWay(g, ordered[i], ordered[j])
      ensures i < j
    {
      ReachSelf(g, ordered[i]);
    }
  }

  lemma {:induction false} PairOrder(g: Calls, groups: seq<seq<string>>, i: nat, j: nat)
    requires Layers(g, groups) && i < j < |Flatten(groups)|
    ensures var x, y := Flatten(groups)[i], Flatten(groups)[j];
            && x != y && (Strong(g, x, y) ==> Less(x, y)) && (Reach(g, y, x) ==> Strong(g, y, x))
  {
    hide Reach, Flatten;
    var x, y := Flatten(groups)[i], Flatten(groups)[j];
    var a, b := FlattenOrder(groups, i, j);
    LessIrreflexive(x);
    ReachSelf(g, x);
  }

  lemma {:induction false} Between(g: Calls, groups: seq<seq<string>>, i: nat, j: nat, k: nat)
    requires Layers(g, groups) && i < j < k < |Flatten(groups)| && Strong(g, Flatten(groups)[i], Flatten(groups)[k])
    ensures Strong(g, Flatten(groups)[i], Flatten(groups)[j])
  {
    hide Reach, Flatten;
    var a, b := FlattenOrder(groups, i, j);
    var b', c := FlattenOrder(groups, j, k);
    ReachSelf(g, Flatten(groups)[j]);
  }

  // ----- the whole -----

  /** The calls among the reachable symbols. */
  function Within(g: Calls, reachable: set<string>): Calls
  {
    map v | v in reachable && v in g :: Kept(g[v], reachable)
  }

  function Kept(targets: seq<string>, reachable: set<string>): (r: seq<string>)
    ensures forall w :: w in r <==> w in targets && w in reachable
  {
    if targets == [] then []
    else
      var n := |targets| - 1;
      Kept(targets[..n], reachable) + (if targets[n] in reachable then [targets[n]] else [])
  }

  /** The restricted graph has exactly the calls between reachable symbols. */
  lemma {:induction false} WithinEdge(g: Calls, reachable: set<string>, v: string, w: string)
    ensures Edge(Within(g, reachable), v, w) <==> v in reachable && w in reachable && Edge(g, v, w)
  {
  }

  method BuildAdjacency(reachable: set<string>, calls: Calls) returns (adj: Calls)
    ensures adj == Within(calls, reachable)
  {
    adj := map[];
    var rest := reachable;
    while rest != {}
      invariant rest <= reachable
      invariant adj == map v | v in reachable && v !in rest && v in calls :: Kept(calls[v], reachable)
      decreases rest
    {
      var key :| key in rest;
      if key in calls {
        adj := adj[key := Kept(calls[key], reachable)];
      }
      rest := rest - {key};
    }
  }

  method ComputeEmitOrder(reachable: set<string>, calls: Calls) returns (ordered: seq<string>)
    ensures EmissionOrder(Within(calls, reachable), reachable, ordered)
  {
    hide Components, Reach, Found, EmissionOrder, Within, Edge, Layers;
    var adj := BuildAdjacency(reachable, calls);
    forall x, y | Edge(adj, x, y) ensures y in reachable {
      WithinEdge(calls, reachable, x, y);
    }
    var search := new Tarjan(adj);
    search.Run(reachable, SortedKeys(reachable));
    var groups := Reversed(search.sccs);
    ComponentsLayers(adj, search.sccs);
    forall v ensures v in reachable <==> Found(groups, v) {
      FoundReversed(search.sccs, v);
    }
    LayersOrder(adj, reachable, groups);
    ordered := FlattenGroups(groups);
  }

  method FlattenGroups(groups: seq<seq<string>>) returns (ordered: seq<string>)
    ensures ordered == Flatten(groups)
  {
    ordered := [];
    for i := 0 to |groups|
      invariant ordered == Flatten(groups[..i])
    {
      var scc := groups[i];
      for k := 0 to |scc|
        invariant ordered == Flatten(groups[..i]) + scc[..k]
      {
        ordered := ordered + [scc[k]];
      }
      assert scc[..|scc|] == scc;
      assert groups[..i + 1][..i] == groups[..i];
    }
    assert groups[..|groups|] == groups;
  }

  lemma {:induction false} FoundReversed(sccs: seq<seq<string>>, v: string)
    ensures Found(Reversed(sccs), v) <==> Found(sccs, v)
  {
    var r := Reversed(sccs);
    if Found(sccs, v) {
      var i :| 0 <= i < |sccs| && v in sccs[i];
      assert v in r[|sccs| - 1 - i];
    }
    if Found(r, v) {
      var i :| 0 <= i < |r| && v in r[i];
      assert v in sccs[|sccs| - 1 - i];
    }
  }
}
