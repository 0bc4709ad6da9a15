/** What a program of nested `all` blocks comes to, said without journals, sessions or
    suspended generators: a story of the answers its effects receive, told by the evaluator
    alone. Every uninterrupted run, and so every recovery, tells this story. */
module Story {
  import opened Ir
  import opened Kernel
  import opened Generator
  import opened GeneratorProof
  import opened Lanes
  import opened Journal
  import opened RunPlan
  import opened PlanIndex
  import opened EngineRecord
  import opened EngineInvariant

  // ----- stories -----

  /** What a coroutine asks for, in order: an effect, with the request that is journaled and
      what the middleware and the handlers give, or an `all` and the stories of its children. */
  datatype Episode =
    | Told(asked: Request, id: string, data: Node, given: Answer)
    | Joined(asked: Request, children: seq<Tale>)

  datatype Tale = Tale(steps: seq<Episode>, answers: seq<Answer>, outcome: Answer)

  /** What the kernel is answered: a value as it is, an error by its text and name, the
      values of the children of an `all` in source order. */
  predicate Answers(s: Episode, a: Answer)
  {
    match s
    case Told(_, _, _, Ok(v)) => a == Ok(v)
    case Told(_, _, _, Fail(e)) => a == Fail(EffectError(ErrorText(e), ErrorName(e)))
    case Joined(_, cs) =>
      && a.Ok? && a.value.Arr? && |a.value.items| == |cs|
      && forall i :: 0 <= i < |cs| ==> cs[i].outcome == Ok(a.value.items[i])
  }

  /** The number of effects in some steps: the journal position behind them. */
  function Position(steps: seq<Episode>): nat
  {
    if steps == [] then 0
    else Position(steps[..|steps| - 1]) + (if steps[|steps| - 1].Told? then 1 else 0)
  }

  /** The number of children in some steps. */
  function Born(steps: seq<Episode>): nat
  {
    if steps == [] then 0
    else
      Born(steps[..|steps| - 1]) +
      (if steps[|steps| - 1].Joined? then |steps[|steps| - 1].children| else 0)
  }

  /** The effect `id` with `data` passes through the middleware: what meets the boundary is
      journaled, answered by the handler and reworked on the way back; a request that does not
      get there is journaled as it was. */
  predicate Passes(max: seq<Middleware>, handler: Handler, id: string, data: Node, s: Episode)
    requires s.Told?
  {
    match Through(max, id, data)
    case Stopped(a) => s.id == id && s.data == data && s.given == a
    case Reached(id', data', post) => s.id == id' && s.data == data' && s.given == post(handler(id', data'))
  }

  /** With these answers the evaluator goes on to ask for `r`. */
  ghost predicate Asks(e: Node, env: Env, answers: seq<Answer>, r: Request)
  {
    exists fuel: nat :: Eval(e, env, answers, fuel) == Suspended(r)
  }

  /** The evaluator uses all answers and comes to this outcome. */
  ghost predicate Ends(e: Node, env: Env, answers: seq<Answer>, outcome: Answer)
  {
    exists fuel: nat ::
      Eval(e, env, answers, fuel) == match outcome case Ok(v) => Done(v, []) case Fail(x) => Raised(x, [])
  }

  /** `t` is what evaluating `e` as coroutine `c` comes to. */
  ghost predicate Happens(w: World, c: Id, e: Node, env: Env, t: Tale)
    decreases t
  {
    && |t.answers| == |t.steps| && Ends(e, env, t.answers, t.outcome)
    && forall k :: 0 <= k < |t.steps| ==>
         && Answers(t.steps[k], t.answers[k]) && Asks(e, env, t.answers[..k], t.steps[k].asked)
         && match t.steps[k]
            case Told(r, _, _, _) =>
              r.Standard? && Passes(w.max, w.handler(c, Position(t.steps[..k])), r.id, r.data, t.steps[k])
            case Joined(r, cs) =>
              && r.Fork? && r.kind == All && |cs| == |r.branches|
              && forall i :: 0 <= i < |cs| ==>
                   Happens(w, ChildId(c, Born(t.steps[..k]) + i), r.branches[i], r.env, cs[i])
  }

  /** The result of a coroutine as it is journaled. */
  predicate Shown(outcome: Answer, result: EventResult)
  {
    match outcome
    case Ok(v) => result == OkResult(v)
    case Fail(e) => result == ErrorResult(ErrorText(e), ErrorName(e))
  }

  /** The events of a coroutine: one for each effect, and its Close. */
  ghost predicate Chronicled(events: seq<Event>, c: Id, t: Tale)
    decreases t
  {
    && |Proj(events, c)| == Position(t.steps) + 1
    && Proj(events, c)[Position(t.steps)].Close? && Shown(t.outcome, Proj(events, c)[Position(t.steps)].result)
    && forall k :: 0 <= k < |t.steps| ==>
         match t.steps[k]
         case Told(_, id, data, given) =>
           var n := Position(t.steps[..k]);
           && n < |Proj(events, c)| && Proj(events, c)[n].Yield?
           && Proj(events, c)[n].entry.identity == IdentityOf(id, data)
           && Shown(given, Proj(events, c)[n].entry.result)
         case Joined(_, cs) =>
           forall i :: 0 <= i < |cs| ==> Chronicled(events, ChildId(c, Born(t.steps[..k]) + i), cs[i])
  }

  // ----- the tale of a plan -----

  ghost function TaleOf(w: World, p: Plan): (t: Tale)
    requires Valid(w, p)
    ensures |t.steps| == |t.answers| == |p.moves|
    decreases p, 1
  {
    Tale(seq(|p.moves|, k requires 0 <= k < |p.moves| => StepAt(w, p, k)),
         seq(|p.moves|, k requires 0 <= k < |p.moves| => AnswerOf(p.moves[k])),
         GenAt(p, |p.moves|).control.answer)
  }

  ghost function StepAt(w: World, p: Plan, k: nat): Episode
    requires Valid(w, p) && k < |p.moves|
    decreases p, 0
  {
    assert MoveShape(w, p, k);
    var r := GenAt(p, k).control.request;
    match p.moves[k]
    case EffectMove(_) =>
      (match Through(w.max, r.id, r.data)
       case Stopped(a) => Told(r, r.id, r.data, a)
       case Reached(id, data, post) => Told(r, id, data, post(w.handler(p.id, Effects(p.moves, k))(id, data))))
    case ForkMove(cs) => Joined(r, seq(|cs|, i requires 0 <= i < |cs| => TaleOf(w, cs[i])))
  }

  lemma {:induction false} Counts(w: World, p: Plan, k: nat)
    requires Valid(w, p) && k <= |p.moves|
    ensures var before := TaleOf(w, p).steps[..k];
            Position(before) == Effects(p.moves, k) && Born(before) == Forks(p.moves, k)
    decreases k
  {
    hide Valid, GenAt, StepAt;
    if k > 0 {
      Counts(w, p, k - 1);
      var steps := TaleOf(w, p).steps;
      assert steps[..k][..k - 1] == steps[..k - 1];
      StepKind(w, p, k - 1);
    }
  }

  lemma {:induction false} StepKind(w: World, p: Plan, k: nat)
    requires Valid(w, p) && k < |p.moves|
    ensures var s := StepAt(w, p, k);
            match p.moves[k]
            case EffectMove(_) => s.Told?
            case ForkMove(cs) => s.Joined? && |s.children| == |cs|
  {
    hide Valid;
  }

  // ----- the generator along the tale -----

  lemma {:induction false} HaltsThere(g: Gen) returns (n: nat)
    requires Halted(RunOn(g)) && (RunOn(g) != g || Halted(g))
    ensures Run(g, [], n) == (RunOn(g), [])
  {
    if exists h :: ComesTo(g, h) {
      var h :| ComesTo(g, h) && h == RunOn(g);
      n :| Run(g, [], n) == (h, []);
    } else {
      n := 0;
    }
  }

  /** After the first `k` answers the generator stands where the plan says. */
  lemma {:induction false} Reaches(w: World, p: Plan, k: nat) returns (n: nat)
    requires Valid(w, p) && k <= |p.moves|
    ensures Halted(GenAt(p, k))
    ensures Run(Start(p.expr, p.env), TaleOf(w, p).answers[..k], n) == (GenAt(p, k), [])
    decreases k
  {
    hide Valid, RunOn, Run;
    var answers := TaleOf(w, p).answers;
    Stands(w, p, k);
    if k == 0 {
      n := HaltsThere(Start(p.expr, p.env));
      assert answers[..0] == [];
    } else {
      var m := Reaches(w, p, k - 1);
      Stands(w, p, k - 1);
      var g, a := GenAt(p, k - 1), answers[k - 1];
      var j := HaltsThere(Resume(g, a));
      n := Answered(Start(p.expr, p.env), answers[..k - 1], m, g, a, j);
      assert answers[..k] == answers[..k - 1] + [a];
    }
  }

  /** Where a plan goes on the generator waits, and at its end it has finished. */
  lemma {:induction false} Stands(w: World, p: Plan, k: nat)
    requires Valid(w, p) && k <= |p.moves|
    ensures Halted(GenAt(p, k))
    ensures if k < |p.moves| then GenAt(p, k).control.YieldC?
            else GenAt(p, k).control.OutC? && p.result == Settle(GenAt(p, k).control.answer)
  {
    if k < |p.moves| {
      assert MoveShape(w, p, k);
    }
  }

  lemma {:induction false} Answered(start: Gen, answers: seq<Answer>, m: nat, g: Gen, a: Answer, j: nat)
    returns (n: nat)
    requires Run(start, answers, m) == (g, []) && g.control.YieldC?
    requires Run(Resume(g, a), [], j) == (RunOn(Resume(g, a)), [])
    ensures Run(start, answers + [a], n) == (RunOn(Resume(g, a)), [])
  {
    hide RunOn;
    RunMoreAnswers(start, answers, [a], m);
    var k: nat :| k <= m && Run(start, answers + [a], k) == (g, [] + [a]);
    assert [] + [a] == [a] && [a][1..] == [];
    RunAppend(start, answers + [a], k, 1 + j);
    n := k + (1 + j);
  }

  lemma {:induction false} AsksAt(w: World, p: Plan, k: nat)
    requires Valid(w, p) && k < |p.moves|
    ensures GenAt(p, k).control.YieldC?
    ensures Asks(p.expr, p.env, TaleOf(w, p).answers[..k], GenAt(p, k).control.request)
  {
    hide Valid, GenAt, Run, Eval;
    Stands(w, p, k);
    var n := Reaches(w, p, k);
    GeneratorShowsEval(p.expr, p.env, TaleOf(w, p).answers[..k], n);
  }

  lemma {:induction false} EndsAt(w: World, p: Plan)
    requires Valid(w, p)
    ensures var t := TaleOf(w, p); Ends(p.expr, p.env, t.answers, t.outcome) && Shown(t.outcome, p.result)
  {
    hide Valid, GenAt, Run, Eval;
    var t, m := TaleOf(w, p), |p.moves|;
    Stands(w, p, m);
    var n := Reaches(w, p, m);
    assert t.answers[..m] == t.answers;
    GeneratorShowsEval(p.expr, p.env, t.answers, n);
    assert Eval(p.expr, p.env, t.answers, n + 1) ==
           match t.outcome case Ok(v) => Done(v, []) case Fail(x) => Raised(x, []);
  }

  lemma {:induction false} AnswersAt(w: World, p: Plan, k: nat)
    requires Valid(w, p) && k < |p.moves|
    ensures Answers(TaleOf(w, p).steps[k], TaleOf(w, p).answers[k])
  {
    hide GenAt, Eval, Run;
    assert MoveShape(w, p, k);
    if p.moves[k].ForkMove? {
      var cs := p.moves[k].children;
      forall i | 0 <= i < |cs| ensures Valid(w, cs[i]) && Shown(TaleOf(w, cs[i]).outcome, cs[i].result) {
        EndsAt(w, cs[i]);
      }
    }
  }

  /** What a plan says happens, and the plan's result is its outcome. */
  lemma {:induction false} TaleHappens(w: World, p: Plan)
    requires Valid(w, p)
    ensures Happens(w, p.id, p.expr, p.env, TaleOf(w, p)) && Shown(TaleOf(w, p).outcome, p.result)
    decreases p
  {
    hide GenAt, Answers, Asks, Ends, Shown, Eval, Run;
    var t := TaleOf(w, p);
    EndsAt(w, p);
    forall k | 0 <= k < |t.steps|
      ensures Answers(t.steps[k], t.answers[k]) && Asks(p.expr, p.env, t.answers[..k], t.steps[k].asked)
      ensures t.steps[k].Told? ==>
                && t.steps[k].asked.Standard?
                && Passes(w.max, w.handler(p.id, Position(t.steps[..k])), t.steps[k].asked.id, t.steps[k].asked.data,
                          t.steps[k])
      ensures t.steps[k].Joined? ==>
                var r, cs := t.steps[k].asked, t.steps[k].children;
                && r.Fork? && r.kind == All && |cs| == |r.branches|
                && forall i :: 0 <= i < |cs| ==>
                     Happens(w, ChildId(p.id, Born(t.steps[..k]) + i), r.branches[i], r.env, cs[i])
    {
      AnswersAt(w, p, k);
      AsksAt(w, p, k);
      Counts(w, p, k);
      assert MoveShape(w, p, k);
      if p.moves[k].ForkMove? {
        var cs := p.moves[k].children;
        forall i | 0 <= i < |cs|
          ensures Valid(w, cs[i]) && Happens(w, cs[i].id, cs[i].expr, cs[i].env, TaleOf(w, cs[i]))
        {
          TaleHappens(w, cs[i]);
        }
      }
    }
  }

  // ----- the tale is determined -----

  lemma {:induction false} AsksOne(e: Node, env: Env, answers: seq<Answer>, r: Request, r': Request)
    requires Asks(e, env, answers, r) && Asks(e, env, answers, r')
    ensures r == r'
  {
    hide Eval;
    var f: nat :| Eval(e, env, answers, f) == Suspended(r);
    var f': nat :| Eval(e, env, answers, f') == Suspended(r');
    FuelIrrelevant(e, env, answers, f, f');
  }

  lemma {:induction false} EndsOne(e: Node, env: Env, answers: seq<Answer>, a: Answer, a': Answer)
    requires Ends(e, env, answers, a) && Ends(e, env, answers, a')
    ensures a == a'
  {
    hide Eval;
    var f: nat :| Eval(e, env, answers, f) == match a case Ok(v) => Done(v, []) case Fail(x) => Raised(x, []);
    var f': nat :| Eval(e, env, answers, f') == match a' case Ok(v) => Done(v, []) case Fail(x) => Raised(x, []);
    FuelIrrelevant(e, env, answers, f, f');
  }

  lemma {:induction false} EndsOrAsks(e: Node, env: Env, answers: seq<Answer>, a: Answer, r: Request)
    requires Ends(e, env, answers, a)
    ensures !Asks(e, env, answers, r)
  {
    hide Eval;
    if Asks(e, env, answers, r) {
      var f: nat :| Eval(e, env, answers, f) == match a case Ok(v) => Done(v, []) case Fail(x) => Raised(x, []);
      var f': nat :| Eval(e, env, answers, f') == Suspended(r);
      FuelIrrelevant(e, env, answers, f, f');
    }
  }

  /** There is one thing that evaluating `e` as coroutine `c` can come to. */
  lemma {:induction false} TaleUnique(w: World, c: Id, e: Node, env: Env, t: Tale, u: Tale)
    requires Happens(w, c, e, env, t) && Happens(w, c, e, env, u)
    ensures t == u
    decreases t, 1
  {
    hide Asks, Ends, Happens;
    HappensFacts(w, c, e, env, t);
    HappensFacts(w, c, e, env, u);
    var k := 0;
    while k < |t.steps| && k < |u.steps|
      invariant 0 <= k <= |t.steps| && k <= |u.steps|
      invariant t.steps[..k] == u.steps[..k] && t.answers[..k] == u.answers[..k]
    {
      StepUnique(w, c, e, env, t, u, k);
      assert t.steps[..k + 1] == t.steps[..k] + [t.steps[k]] && u.steps[..k + 1] == u.steps[..k] + [u.steps[k]];
      assert t.answers[..k + 1] == t.answers[..k] + [t.answers[k]];
      assert u.answers[..k + 1] == u.answers[..k] + [u.answers[k]];
      k := k + 1;
    }
    assert t.answers[..|t.steps|] == t.answers && u.answers[..|u.steps|] == u.answers;
    if k < |t.steps| {
      EndsOrAsks(e, env, u.answers, u.outcome, t.steps[k].asked);
    } else if k < |u.steps| {
      EndsOrAsks(e, env, t.answers, t.outcome, u.steps[k].asked);
    } else {
      EndsOne(e, env, t.answers, t.outcome, u.outcome);
      assert t.steps == t.steps[..k] && u.steps == u.steps[..k];
    }
  }

  lemma {:induction false} HappensFacts(w: World, c: Id, e: Node, env: Env, t: Tale)
    requires Happens(w, c, e, env, t)
    ensures |t.answers| == |t.steps| && Ends(e, env, t.answers, t.outcome)
    ensures forall k :: 0 <= k < |t.steps| ==> Asks(e, env, t.answers[..k], t.steps[k].asked)
  {
    hide Asks, Ends, Answers, Passes;
  }

  lemma {:induction false} StepUnique(w: World, c: Id, e: Node, env: Env, t: Tale, u: Tale, k: nat)
    requires Happens(w, c, e, env, t) && Happens(w, c, e, env, u) && k < |t.steps| && k < |u.steps|
    requires t.steps[..k] == u.steps[..k] && t.answers[..k] == u.answers[..k]
    ensures t.steps[k] == u.steps[k] && t.answers[k] == u.answers[k]
    decreases t, 0
  {
    hide Asks, Ends;
    AsksOne(e, env, t.answers[..k], t.steps[k].asked, u.steps[k].asked);
    if t.steps[k].Joined? {
      var cs, ds := t.steps[k].children, u.steps[k].children;
      forall i | 0 <= i < |cs| ensures cs[i] == ds[i] {
        var r := t.steps[k].asked;
        TaleUnique(w, ChildId(c, Born(t.steps[..k]) + i), r.branches[i], r.env, cs[i], ds[i]);
      }
      assert cs == ds;
      assert t.answers[k].value.items == u.answers[k].value.items;
    }
  }

  // ----- the tale in the journal -----

  lemma {:induction false} ToldEntry(w: World, p: Plan, k: nat)
    requires Valid(w, p) && k < |p.moves| && p.moves[k].EffectMove?
    ensures var s, entry := StepAt(w, p, k), p.moves[k].entry;
            s.Told? && entry.identity == IdentityOf(s.id, s.data) && Shown(s.given, entry.result)
  {
    hide IdentityOf;
    assert MoveShape(w, p, k);
  }

  lemma {:induction false} OwnEvents(w: World, p: Plan)
    requires Valid(w, p)
    ensures var t, own := TaleOf(w, p), EventsOf(p);
            && |own| == Position(t.steps) + 1
            && own[Position(t.steps)].Close? && Shown(t.outcome, own[Position(t.steps)].result)
            && forall k :: 0 <= k < |t.steps| && t.steps[k].Told? ==>
                 var n := Position(t.steps[..k]);
                 && n < |own| && own[n].Yield? && own[n].entry.identity == IdentityOf(t.steps[k].id, t.steps[k].data)
                 && Shown(t.steps[k].given, own[n].entry.result)
  {
    hide Valid, Shown, IdentityOf, EventsOf, GenAt, StepAt;
    var t := TaleOf(w, p);
    PlannedShape(p);
    EndsAt(w, p);
    Counts(w, p, |p.moves|);
    assert t.steps[..|p.moves|] == t.steps;
    forall k | 0 <= k < |t.steps| && t.steps[k].Told?
      ensures var n, own := Position(t.steps[..k]), EventsOf(p);
              && n < |own| && own[n].Yield? && own[n].entry.identity == IdentityOf(t.steps[k].id, t.steps[k].data)
              && Shown(t.steps[k].given, own[n].entry.result)
    {
      StepKind(w, p, k);
      ToldEntry(w, p, k);
      EffectAt(p, k);
      Counts(w, p, k);
    }
  }

  /** What a complete journal says of a coroutine and all below it is the tale of its plan. */
  lemma {:induction false} TaleChronicled(w: World, ps: Plans, root: Plan, c: Id, events: seq<Event>)
    requires Indexed(w, ps, root) && c in ps
    requires forall d :: d in ps && Below(d, c) ==> Proj(events, d) == EventsOf(ps[d])
    ensures Valid(w, ps[c]) && Chronicled(events, c, TaleOf(w, ps[c]))
    decreases ps[c], 1
  {
    hide Indexed, Valid, Shown, IdentityOf, EventsOf, GenAt, Proj, Below, TaleOf;
    IndexedAt(w, ps, root, c);
    var t := TaleOf(w, ps[c]);
    OwnEvents(w, ps[c]);
    BelowSelf(c);
    forall k, i | 0 <= k < |t.steps| && t.steps[k].Joined? && 0 <= i < |t.steps[k].children|
      ensures Chronicled(events, ChildId(c, Born(t.steps[..k]) + i), t.steps[k].children[i])
    {
      ChildChronicled(w, ps, root, c, events, k, i);
    }
  }

  lemma {:induction false} WholeTale(w: World, root: Plan, events: seq<Event>)
    requires Valid(w, root) && forall c :: Proj(events, c) == Planned(IndexOf(w, root), c)
    ensures Chronicled(events, root.id, TaleOf(w, root))
  {
    hide Valid, Chronicled, EventsOf, Proj, Below, TaleOf, Indexed;
    var ps := IndexOf(w, root);
    RootIndexed(w, ps, root);
    TaleChronicled(w, ps, root, root.id, events);
  }

  lemma {:induction false} ChildChronicled(w: World, ps: Plans, root: Plan, c: Id, events: seq<Event>, k: nat, i: nat)
    requires Indexed(w, ps, root) && c in ps && Valid(w, ps[c])
    requires forall d :: d in ps && Below(d, c) ==> Proj(events, d) == EventsOf(ps[d])
    requires var t := TaleOf(w, ps[c]);
             k < |t.steps| && t.steps[k].Joined? && i < |t.steps[k].children|
    ensures var t := TaleOf(w, ps[c]);
            Chronicled(events, ChildId(c, Born(t.steps[..k]) + i), t.steps[k].children[i])
    decreases ps[c], 0
  {
    hide Valid, Chronicled, EventsOf, GenAt, Proj, Below, StepAt, ChildId, Born, Position, Forks, Indexed, IsChild;
    var p, t := ps[c], TaleOf(w, ps[c]);
    StepKind(w, p, k);
    Counts(w, p, k);
    var d := p.moves[k].children[i];
    ChildTale(w, p, k, i);
    assert IsChild(p, k, i, d) by { ChildOf(p, k, i); }
    ChildFacts(w, p, k, i, d);
    ChildIn(w, ps, root, c, k, i, d);
    ChildBelow(c, Born(t.steps[..k]) + i);
    forall x | x in ps && Below(x, d.id) ensures Proj(events, x) == EventsOf(ps[x]) {
      BelowTransitive(x, d.id, c);
    }
    TaleChronicled(w, ps, root, d.id, events);
  }

  lemma {:induction false} ChildOf(p: Plan, k: nat, i: nat)
    requires k < |p.moves| && p.moves[k].ForkMove? && i < |p.moves[k].children|
    ensures IsChild(p, k, i, p.moves[k].children[i])
  {
  }

  lemma {:induction false} ChildIn(w: World, ps: Plans, root: Plan, c: Id, k: nat, i: nat, d: Plan)
    requires Indexed(w, ps, root) && c in ps && IsChild(ps[c], k, i, d)
    ensures ps[c].id == c && d.id in ps && ps[d.id] == d
  {
    hide Valid;
  }

  lemma {:induction false} BelowSelf(c: Id)
    ensures Below(c, c)
  {
  }

  lemma {:induction false} ChildTale(w: World, p: Plan, k: nat, i: nat)
    requires Valid(w, p) && k < |p.moves| && p.moves[k].ForkMove? && i < |p.moves[k].children|
    ensures Valid(w, p.moves[k].children[i])
    ensures var s := StepAt(w, p, k);
            s.Joined? && i < |s.children| && s.children[i] == TaleOf(w, p.moves[k].children[i])
  {
  }
}
