/** The record of an uninterrupted run: what every coroutine of a tree of `all` blocks does,
    move by move, when nothing crashes. */
module RunPlan {
  import opened Text
  import opened Ir
  import opened Kernel
  import opened Generator
  import opened Lanes
  import opened Journal

  /** The surroundings of a run: the `max` middleware, and what the handlers below the
      boundary answer to each coroutine at each of its journal positions. */
  datatype World = World(max: seq<Middleware>, handler: (Id, nat) -> Handler)

  /** `${coroutineId}.${childSpawnCount}` */
  function ChildId(parent: Id, n: nat): Id { parent + "." + Decimal(n) }

  /** The record of one coroutine. */
  datatype Plan = Plan(id: Id, expr: Node, env: Env, moves: seq<Move>, result: EventResult)

  datatype Move =
    | EffectMove(entry: Entry)             // an effect and its journaled result
    | ForkMove(children: seq<Plan>)        // an `all` and its children

  function ChildValues(children: seq<Plan>): (r: seq<Node>)
    ensures |r| == |children|
  {
    seq(|children|, i requires 0 <= i < |children| =>
      if children[i].result.OkResult? then children[i].result.value else Null)
  }

  /** What the kernel is resumed with after a move. */
  function AnswerOf(m: Move): Answer
  {
    match m
    case EffectMove(entry) => Feed(entry.result)
    case ForkMove(children) => Ok(Arr(ChildValues(children)))
  }

  /** The generator after `k` moves. */
  ghost function GenAt(p: Plan, k: nat): Gen
    requires k <= |p.moves|
    decreases k
  {
    if k == 0 then RunOn(Start(p.expr, p.env))
    else
      var g := GenAt(p, k - 1);
      if g.control.YieldC? then RunOn(Resume(g, AnswerOf(p.moves[k - 1]))) else g
  }

  /** Journal positions used by the first `k` moves. */
  function Effects(moves: seq<Move>, k: nat): nat
    requires k <= |moves|
    decreases k
  {
    if k == 0 then 0 else Effects(moves, k - 1) + (if moves[k - 1].EffectMove? then 1 else 0)
  }

  /** Children allocated by the first `k` moves. */
  function Forks(moves: seq<Move>, k: nat): nat
    requires k <= |moves|
    decreases k
  {
    if k == 0 then 0
    else Forks(moves, k - 1) + (if moves[k - 1].ForkMove? then |moves[k - 1].children| else 0)
  }

  /** `p` is what the uninterrupted run does: every effect is answered as the middleware and
      the handlers answer it live, every child of an `all` succeeds, and the generator ends. */
  ghost predicate Valid(w: World, p: Plan)
    decreases p
  {
    && (forall k :: 0 <= k < |p.moves| ==> MoveShape(w, p, k))
    && (forall k :: 0 <= k < |p.moves| && p.moves[k].ForkMove? ==>
          forall i :: 0 <= i < |p.moves[k].children| ==> Valid(w, p.moves[k].children[i]))
    && var g := GenAt(p, |p.moves|);
       g.control.OutC? && g.stack == [] && p.result == Settle(g.control.answer)
  }

  ghost predicate MoveShape(w: World, p: Plan, k: nat)
    requires k < |p.moves|
  {
    var g := GenAt(p, k);
    match p.moves[k]
    case EffectMove(entry) =>
      g.control.YieldC? && g.control.request.Standard? &&
      Dispatch(w.max, w.handler(p.id, Effects(p.moves, k)), g.control.request.id, g.control.request.data, None).entry
        == entry
    case ForkMove(children) =>
      g.control.YieldC? && g.control.request.Fork? && g.control.request.kind == All &&
      var branches, env := g.control.request.branches, g.control.request.env;
      |children| == |branches| &&
      forall i :: 0 <= i < |children| ==>
        && children[i].id == ChildId(p.id, Forks(p.moves, k) + i)
        && children[i].expr == branches[i] && children[i].env == env
        && children[i].result.OkResult?
  }

  /** The uninterrupted run is determined: two records of the same coroutine are equal. */
  lemma {:induction false} PlanUnique(w: World, p: Plan, q: Plan)
    requires Valid(w, p) && Valid(w, q) && p.id == q.id && p.expr == q.expr && p.env == q.env
    ensures p == q
    decreases p, 2
  {
    var k := 0;
    while k < |p.moves| && k < |q.moves|
      invariant 0 <= k <= |p.moves| && k <= |q.moves|
      invariant p.moves[..k] == q.moves[..k]
    {
      MoveUnique(w, p, q, k);
      assert p.moves[..k + 1] == p.moves[..k] + [p.moves[k]];
      assert q.moves[..k + 1] == q.moves[..k] + [q.moves[k]];
      k := k + 1;
    }
    EndUnique(w, p, q, k);
  }

  /** After the same moves both records go on in the same way. */
  lemma {:induction false} MoveUnique(w: World, p: Plan, q: Plan, k: nat)
    requires Valid(w, p) && Valid(w, q) && p.id == q.id && p.expr == q.expr && p.env == q.env
    requires k < |p.moves| && k < |q.moves| && p.moves[..k] == q.moves[..k]
    ensures p.moves[k] == q.moves[k]
    decreases p, 1
  {
    SamePrefix(p, q, k);
    assert MoveShape(w, p, k) && MoveShape(w, q, k);
    if p.moves[k].ForkMove? {
      var cs, ds := p.moves[k].children, q.moves[k].children;
      forall i | 0 <= i < |cs| ensures cs[i] == ds[i] {
        PlanUnique(w, cs[i], ds[i]);
      }
      assert cs == ds;
    }
  }

  lemma {:induction false} EndUnique(w: World, p: Plan, q: Plan, k: nat)
    requires Valid(w, p) && Valid(w, q) && p.id == q.id && p.expr == q.expr && p.env == q.env
    requires k <= |p.moves| && k <= |q.moves| && (k == |p.moves| || k == |q.moves|)
    requires p.moves[..k] == q.moves[..k]
    ensures p == q
  {
    hide Dispatch;
    SamePrefix(p, q, k);
    assert k < |p.moves| ==> MoveShape(w, p, k);
    assert k < |q.moves| ==> MoveShape(w, q, k);
    assert p.moves == p.moves[..k] && q.moves == q.moves[..k];
  }

  /** Generators and counts depend on the moves so far. */
  lemma {:induction false} SamePrefix(p: Plan, q: Plan, k: nat)
    requires k <= |p.moves| && k <= |q.moves| && p.moves[..k] == q.moves[..k]
    requires p.expr == q.expr && p.env == q.env
    ensures GenAt(p, k) == GenAt(q, k)
    ensures Effects(p.moves, k) == Effects(q.moves, k) && Forks(p.moves, k) == Forks(q.moves, k)
  {
    if k > 0 {
      assert p.moves[..k - 1] == p.moves[..k][..k - 1] && q.moves[..k - 1] == q.moves[..k][..k - 1];
      assert p.moves[k - 1] == p.moves[..k][k - 1] && q.moves[k - 1] == q.moves[..k][k - 1];
      SamePrefix(p, q, k - 1);
    }
  }

  // ----- events -----

  /** The events of the first `k` moves. */
  function YieldEvents(p: Plan, k: nat): seq<Event>
    requires k <= |p.moves|
    decreases k
  {
    if k == 0 then []
    else YieldEvents(p, k - 1) + (if p.moves[k - 1].EffectMove? then [Yield(p.id, p.moves[k - 1].entry)] else [])
  }

  /** All events of a coroutine: its yields, then its Close. */
  function EventsOf(p: Plan): seq<Event>
  {
    YieldEvents(p, |p.moves|) + [Close(p.id, p.result)]
  }

  lemma {:induction false} YieldEventsLength(p: Plan, k: nat)
    requires k <= |p.moves|
    ensures |YieldEvents(p, k)| == Effects(p.moves, k)
    ensures forall i :: 0 <= i < |YieldEvents(p, k)| ==> YieldEvents(p, k)[i].Yield? && YieldEvents(p, k)[i].co == p.id
  {
    if k > 0 {
      YieldEventsLength(p, k - 1);
    }
  }

  lemma {:induction false} YieldEventsPrefix(p: Plan, k: nat, m: nat)
    requires k <= m <= |p.moves|
    ensures YieldEvents(p, k) <= YieldEvents(p, m)
    ensures Effects(p.moves, k) <= Effects(p.moves, m) && Forks(p.moves, k) <= Forks(p.moves, m)
    decreases m
  {
    if k < m {
      YieldEventsPrefix(p, k, m - 1);
    }
  }

  // ----- coroutine ids -----

  /** `id` is `anc` or one of its descendants. */
  predicate Below(id: Id, anc: Id)
  {
    id == anc || (|id| > |anc| && id[..|anc|] == anc && id[|anc|] == '.')
  }

  /** Ids are globally unique: a child's id determines the parent and the child's number,
      whatever the spelling of the root. */
  lemma {:induction false} ChildIdInjective(a: Id, m: nat, b: Id, n: nat)
    requires ChildId(a, m) == ChildId(b, n)
    ensures a == b && m == n
  {
    assert ChildId(a, m) == a + ['.'] + Decimal(m);
    assert ChildId(b, n) == b + ['.'] + Decimal(n);
    LastPartUnique(a, Decimal(m), b, Decimal(n), '.');
    DecimalInjective(m, n);
  }

  /** No id lies below two children of one coroutine. */
  lemma {:induction false} SiblingsApart(id: Id, c: Id, m: nat, n: nat)
    requires Below(id, ChildId(c, m)) && Below(id, ChildId(c, n))
    ensures m == n
  {
    var x, y := ChildId(c, m), ChildId(c, n);
    var dm, dn := Decimal(m), Decimal(n);
    assert x == c + ['.'] + dm && y == c + ['.'] + dn;
    assert id[..|x|] == x && id[..|y|] == y;
    forall i | 0 <= i < |dm| ensures id[|c| + 1 + i] == dm[i] {
      assert id[|c| + 1 + i] == x[|c| + 1 + i];
    }
    forall i | 0 <= i < |dn| ensures id[|c| + 1 + i] == dn[i] {
      assert id[|c| + 1 + i] == y[|c| + 1 + i];
    }
    assert |id| > |x| ==> !IsDigit(id[|x|]);
    assert |id| > |y| ==> !IsDigit(id[|y|]);
    assert |dm| == |dn|;
    assert dm == dn;
    DecimalInjective(m, n);
  }

  lemma {:induction false} BelowTransitive(x: Id, y: Id, z: Id)
    requires Below(x, y) && Below(y, z)
    ensures Below(x, z)
  {
    if x != y && y != z {
      assert x[..|z|] == x[..|y|][..|z|];
      assert x[|z|] == x[..|y|][|z|];
    }
  }

  lemma {:induction false} ChildBelow(c: Id, n: nat)
    ensures Below(ChildId(c, n), c) && !Below(c, ChildId(c, n))
  {
    assert ChildId(c, n) == c + ("." + Decimal(n));
  }
}
