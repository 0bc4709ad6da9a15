/** The coroutines of a plan by id. */
module PlanIndex {
  import opened Ir
  import opened Kernel
  import opened Lanes
  import opened Journal
  import opened RunPlan

  type Plans = map<Id, Plan>

  // ----- all coroutines of a tree -----

  ghost function Subplans(p: Plan): set<Plan>
    decreases p, 1
  {
    {p} + InMoves(p.moves)
  }

  ghost function InMoves(moves: seq<Move>): set<Plan>
    decreases moves, 0
  {
    if moves == [] then {}
    else (match moves[0] case EffectMove(_) => {} case ForkMove(cs) => InChildren(cs)) + InMoves(moves[1..])
  }

  ghost function InChildren(cs: seq<Plan>): set<Plan>
    decreases cs, 0
  {
    if cs == [] then {} else Subplans(cs[0]) + InChildren(cs[1..])
  }

  lemma {:induction false} InChildrenAt(cs: seq<Plan>, q: Plan)
    ensures q in InChildren(cs) <==> exists i :: 0 <= i < |cs| && q in Subplans(cs[i])
    decreases |cs|
  {
    if cs != [] {
      InChildrenAt(cs[1..], q);
      if q in InChildren(cs[1..]) {
        var i :| 0 <= i < |cs[1..]| && q in Subplans(cs[1..][i]);
        assert q in Subplans(cs[i + 1]);
      }
      if i :| 0 <= i < |cs| && q in Subplans(cs[i]) {
        if i > 0 {
          assert cs[i] == cs[1..][i - 1];
        }
      }
    }
  }

  lemma {:induction false} InMovesAt(moves: seq<Move>, q: Plan)
    ensures q in InMoves(moves) <==>
            exists j :: 0 <= j < |moves| && moves[j].ForkMove? && q in InChildren(moves[j].children)
    decreases |moves|
  {
    if moves != [] {
      InMovesAt(moves[1..], q);
      if q in InMoves(moves[1..]) {
        var j :| 0 <= j < |moves[1..]| && moves[1..][j].ForkMove? && q in InChildren(moves[1..][j].children);
        assert moves[j + 1].ForkMove? && q in InChildren(moves[j + 1].children);
      }
      if j :| 0 <= j < |moves| && moves[j].ForkMove? && q in InChildren(moves[j].children) {
        if j > 0 {
          assert moves[j] == moves[1..][j - 1];
        }
      }
    }
  }

  /** `c` is child number `i` of move `j` of `p`. */
  ghost predicate IsChild(p: Plan, j: nat, i: nat, c: Plan)
  {
    j < |p.moves| && p.moves[j].ForkMove? && i < |p.moves[j].children| && c == p.moves[j].children[i]
  }

  lemma {:induction false} SubplanCases(p: Plan, q: Plan)
    ensures q in Subplans(p) <==> q == p || exists j: nat, i: nat, c :: IsChild(p, j, i, c) && q in Subplans(c)
  {
    InMovesAt(p.moves, q);
    if q in InMoves(p.moves) {
      var j :| 0 <= j < |p.moves| && p.moves[j].ForkMove? && q in InChildren(p.moves[j].children);
      InChildrenAt(p.moves[j].children, q);
      var i :| 0 <= i < |p.moves[j].children| && q in Subplans(p.moves[j].children[i]);
      assert IsChild(p, j, i, p.moves[j].children[i]);
    }
    if j: nat, i: nat, c :| IsChild(p, j, i, c) && q in Subplans(c) {
      InChildrenAt(p.moves[j].children, q);
    }
  }

  /** A child's id, with its number among all children of its parent. */
  lemma {:induction false} ChildFacts(w: World, p: Plan, j: nat, i: nat, c: Plan)
    requires Valid(w, p) && IsChild(p, j, i, c)
    ensures c.id == ChildId(p.id, Forks(p.moves, j) + i) && Valid(w, c) && c.result.OkResult?
  {
    assert MoveShape(w, p, j);
  }

  lemma {:induction false} SubplansValid(w: World, p: Plan, q: Plan)
    requires Valid(w, p) && q in Subplans(p)
    ensures Valid(w, q) && Below(q.id, p.id)
    decreases p
  {
    hide Valid, Subplans, GenAt;
    SubplanCases(p, q);
    if q != p {
      var j: nat, i: nat, c :| IsChild(p, j, i, c) && q in Subplans(c);
      ChildFacts(w, p, j, i, c);
      SubplansValid(w, c, q);
      ChildBelow(p.id, Forks(p.moves, j) + i);
      BelowTransitive(q.id, c.id, p.id);
    }
  }

  /** Different moves allocate different child numbers. */
  lemma {:induction false} ChildNumber(moves: seq<Move>, j: nat, i: nat, j': nat, i': nat)
    requires j < |moves| && moves[j].ForkMove? && i < |moves[j].children|
    requires j' < |moves| && moves[j'].ForkMove? && i' < |moves[j'].children|
    requires Forks(moves, j) + i == Forks(moves, j') + i'
    ensures j == j' && i == i'
  {
    if j < j' {
      ForksMonotone(moves, j + 1, j');
    } else if j' < j {
      ForksMonotone(moves, j' + 1, j);
    }
  }

  lemma {:induction false} ForksMonotone(moves: seq<Move>, k: nat, m: nat)
    requires k <= m <= |moves|
    ensures Forks(moves, k) <= Forks(moves, m)
    decreases m
  {
    if k < m {
      ForksMonotone(moves, k, m - 1);
    }
  }

  /** No two coroutines of a tree share an id. */
  lemma {:induction false} SubplansDistinct(w: World, p: Plan, q: Plan, r: Plan)
    requires Valid(w, p) && q in Subplans(p) && r in Subplans(p) && q.id == r.id
    ensures q == r
    decreases p
  {
    hide Valid, Subplans, GenAt;
    SubplanCases(p, q);
    SubplanCases(p, r);
    if q == p && r != p {
      RootApart(w, p, r);
    } else if q != p && r == p {
      RootApart(w, p, q);
    } else if q != p && r != p {
      var j: nat, i: nat, c :| IsChild(p, j, i, c) && q in Subplans(c);
      var j': nat, i': nat, c' :| IsChild(p, j', i', c') && r in Subplans(c');
      ChildFacts(w, p, j, i, c);
      ChildFacts(w, p, j', i', c');
      SubplansValid(w, c, q);
      SubplansValid(w, c', r);
      SiblingsApart(q.id, p.id, Forks(p.moves, j) + i, Forks(p.moves, j') + i');
      ChildNumber(p.moves, j, i, j', i');
      SubplansDistinct(w, c, q, r);
    }
  }

  lemma {:induction false} RootApart(w: World, p: Plan, q: Plan)
    requires Valid(w, p) && q in Subplans(p) && q != p
    ensures q.id != p.id
  {
    hide Valid, Subplans, GenAt;
    SubplanCases(p, q);
    var j: nat, i: nat, c :| IsChild(p, j, i, c) && q in Subplans(c);
    ChildFacts(w, p, j, i, c);
    SubplansValid(w, c, q);
    ChildBelow(p.id, Forks(p.moves, j) + i);
  }

  // ----- the index -----

  /** `ps` holds the coroutines of `root`, each under its id. */
  ghost predicate Indexed(w: World, ps: Plans, root: Plan)
  {
    && root.id in ps && ps[root.id] == root
    && (forall c :: c in ps ==> ps[c].id == c && Valid(w, ps[c]))
    && (forall c, j: nat, i: nat, d :: c in ps && IsChild(ps[c], j, i, d) ==> d.id in ps && ps[d.id] == d)
    && (forall d :: d in ps && d != root.id ==> HasParent(ps, d))
    && NoParent(ps, root.id)
  }

  ghost predicate HasParent(ps: Plans, d: Id)
    requires d in ps
  {
    exists c, j: nat, i: nat :: c in ps && IsChild(ps[c], j, i, ps[d])
  }

  ghost predicate NoParent(ps: Plans, d: Id)
  {
    forall c, j: nat, i: nat, e :: c in ps && IsChild(ps[c], j, i, e) ==> e.id != d
  }

  lemma {:induction false} RootIndexed(w: World, ps: Plans, root: Plan)
    requires Indexed(w, ps, root)
    ensures root.id in ps && ps[root.id] == root
  {
  }

  ghost function IndexOf(w: World, root: Plan): (ps: Plans)
    requires Valid(w, root)
    ensures Indexed(w, ps, root)
    ensures forall c :: c in ps ==> ps[c] in Subplans(root)
  {
    var subs := Subplans(root);
    assert forall q, r :: q in subs && r in subs && q.id == r.id ==> q == r by {
      forall q, r | q in subs && r in subs && q.id == r.id ensures q == r {
        SubplansDistinct(w, root, q, r);
      }
    }
    var ps := map q | q in subs :: q.id := q;
    IndexComplete(w, root, ps);
    ps
  }

  lemma {:induction false} IndexComplete(w: World, root: Plan, ps: Plans)
    requires Valid(w, root)
    requires forall q :: q in Subplans(root) ==> q.id in ps && ps[q.id] == q
    requires forall c :: c in ps ==> ps[c] in Subplans(root) && ps[c].id == c
    ensures Indexed(w, ps, root)
  {
    hide Valid, Subplans, GenAt;
    SubplanCases(root, root);
    forall c | c in ps ensures Valid(w, ps[c]) {
      SubplansValid(w, root, ps[c]);
    }
    forall c, j: nat, i: nat, d | c in ps && IsChild(ps[c], j, i, d)
      ensures d.id in ps && ps[d.id] == d && d.id != root.id
    {
      SubplanCases(d, d);
      SubplanCases(ps[c], d);
      SubTransitive(root, ps[c], d);
      ChildFacts(w, ps[c], j, i, d);
      SubplansValid(w, root, ps[c]);
      if d.id == root.id {
        ChildBelow(c, Forks(ps[c].moves, j) + i);
      }
    }
    forall d | d in ps && d != root.id ensures HasParent(ps, d) {
      SubParent(root, ps[d]);
      var p, j: nat, i: nat :| p in Subplans(root) && IsChild(p, j, i, ps[d]);
      assert ps[p.id] == p;
    }
  }

  lemma {:induction false} SubTransitive(p: Plan, q: Plan, r: Plan)
    requires q in Subplans(p) && r in Subplans(q)
    ensures r in Subplans(p)
    decreases p
  {
    hide Valid, Subplans, GenAt;
    SubplanCases(p, q);
    SubplanCases(p, r);
    if q != p {
      var j: nat, i: nat, c :| IsChild(p, j, i, c) && q in Subplans(c);
      SubTransitive(c, q, r);
    }
  }

  /** Every coroutine but the root is a child of another. */
  lemma {:induction false} SubParent(p: Plan, q: Plan)
    requires q in Subplans(p) && q != p
    ensures exists r, j: nat, i: nat :: r in Subplans(p) && IsChild(r, j, i, q)
    decreases p
  {
    SubplanCases(p, q);
    var j: nat, i: nat, c :| IsChild(p, j, i, c) && q in Subplans(c);
    SubplanCases(p, p);
    if q != c {
      SubParent(c, q);
      var r, j': nat, i': nat :| r in Subplans(c) && IsChild(r, j', i', q);
      SubplanCases(p, c);
      SubplanCases(c, c);
      SubplanCases(p, r);
      assert r in Subplans(p) && IsChild(r, j', i', q);
    }
  }

  /** A parent and the place among its children are determined by the child. */
  lemma {:induction false} ParentUnique(w: World, p: Plan, j: nat, i: nat, p': Plan, j': nat, i': nat, d: Plan)
    requires Valid(w, p) && Valid(w, p') && IsChild(p, j, i, d) && IsChild(p', j', i', d)
    ensures p.id == p'.id && (p == p' ==> j == j' && i == i')
  {
    hide Valid;
    ChildFacts(w, p, j, i, d);
    ChildFacts(w, p', j', i', d);
    ChildIdInjective(p.id, Forks(p.moves, j) + i, p'.id, Forks(p'.moves, j') + i');
    if p == p' {
      ChildNumber(p.moves, j, i, j', i');
    }
  }
}
