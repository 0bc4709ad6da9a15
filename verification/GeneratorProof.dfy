/** The suspended generator and the evaluator agree: running the machine on a list of
    answers shows what `Eval` computes from that list, however the answers arrive. */
module GeneratorProof {
  import opened Text
  import opened Ir
  import opened Kernel
  import opened Generator

  // ----- every outcome of the evaluator is shown by the machine -----

  lemma {:induction false} SimEval(e: Node, env: Env, answers: seq<Answer>, fuel: nat, stack: seq<Pending>)
    returns (n: nat)
    ensures Shows(Gen(EvalC(e, env), stack), answers, n, Eval(e, env, answers, fuel), stack, fuel)
    decreases fuel, e, 3
  {
    match e
    case Let(_, _, _) => n := SimLet(e, env, answers, fuel, stack);
    case Seq(_) => n := SimSequence(e, env, answers, fuel, stack);
    case If(_, _, _) => n := SimIf(e, env, answers, fuel, stack);
    case While(_, _) => n := SimWhile(e, env, answers, fuel, stack);
    case Call(_, _) => n := SimCall(e, env, answers, fuel, stack);
    case Get(_, _) => n := SimGetThrow(e, env, answers, fuel, stack);
    case Prim(_, _) => n := SimPrim(e, env, answers, fuel, stack);
    case And(_, _) => n := SimAndOr(e, env, answers, fuel, stack);
    case Or(_, _) => n := SimAndOr(e, env, answers, fuel, stack);
    case Construct(_) => n := SimConstruct(e, env, answers, fuel, stack);
    case Throw(_) => n := SimGetThrow(e, env, answers, fuel, stack);
    case Try(_, _, _, _, _) => n := SimTry(e, env, answers, fuel, stack);
    case Effect(_, _) => n := SimEffect(e, env, answers, fuel, stack);
    case Compound(_, _) => n := SimCompound(e, env, answers, fuel, stack);
    case _ =>
      OneStep(Gen(EvalC(e, env), stack), answers);
      n := 1;
  }

  lemma {:induction false} SimLet(e: Node, env: Env, answers: seq<Answer>, fuel: nat, stack: seq<Pending>)
    returns (n: nat)
    requires e.Let?
    ensures Shows(Gen(EvalC(e, env), stack), answers, n, Eval(e, env, answers, fuel), stack, fuel)
    decreases fuel, e, 2
  {
    var g := Gen(EvalC(e, env), stack);
    n := SimUnder(g, e.value, env, LetK(e.bound, e.scope, env), answers, fuel);
    var o := Eval(e.value, env, answers, fuel);
    if o.Done? {
      n := SimThen(g, n, e.scope, Extend(env, e.bound, o.value), answers, o.rest, fuel, stack);
    }
  }

  lemma {:induction false} SimIf(e: Node, env: Env, answers: seq<Answer>, fuel: nat, stack: seq<Pending>)
    returns (n: nat)
    requires e.If?
    ensures Shows(Gen(EvalC(e, env), stack), answers, n, Eval(e, env, answers, fuel), stack, fuel)
    decreases fuel, e, 2
  {
    var g := Gen(EvalC(e, env), stack);
    n := SimUnder(g, e.cond, env, IfK(e.then_, e.else_, env), answers, fuel);
    var o := Eval(e.cond, env, answers, fuel);
    if o.Done? {
      if Truthy(o.value) {
        n := SimThen(g, n, e.then_, env, answers, o.rest, fuel, stack);
      } else if e.else_.Some? {
        n := SimThen(g, n, e.else_.value, env, answers, o.rest, fuel, stack);
      }
    }
  }

  lemma {:induction false} SimGetThrow(e: Node, env: Env, answers: seq<Answer>, fuel: nat, stack: seq<Pending>)
    returns (n: nat)
    requires e.Get? || e.Throw?
    ensures Shows(Gen(EvalC(e, env), stack), answers, n, Eval(e, env, answers, fuel), stack, fuel)
    decreases fuel, e, 2
  {
    var g := Gen(EvalC(e, env), stack);
    if e.Get? {
      n := SimUnder(g, e.obj, env, GetK(e.key), answers, fuel);
    } else {
      n := SimUnder(g, e.message, env, ThrowK, answers, fuel);
    }
  }

  lemma {:induction false} SimAndOr(e: Node, env: Env, answers: seq<Answer>, fuel: nat, stack: seq<Pending>)
    returns (n: nat)
    requires e.And? || e.Or?
    ensures Shows(Gen(EvalC(e, env), stack), answers, n, Eval(e, env, answers, fuel), stack, fuel)
    decreases fuel, e, 2
  {
    var g := Gen(EvalC(e, env), stack);
    if e.And? {
      n := SimUnder(g, e.a, env, AndK(e.b_, env), answers, fuel);
    } else {
      n := SimUnder(g, e.a, env, OrK(e.b_, env), answers, fuel);
    }
    var o := Eval(e.a, env, answers, fuel);
    if o.Done? && Truthy(o.value) == e.And? {
      n := SimThen(g, n, e.b_, env, answers, o.rest, fuel, stack);
    }
  }

  lemma {:induction false} SimPrim(e: Node, env: Env, answers: seq<Answer>, fuel: nat, stack: seq<Pending>)
    returns (n: nat)
    requires e.Prim?
    ensures Shows(Gen(EvalC(e, env), stack), answers, n, Eval(e, env, answers, fuel), stack, fuel)
    decreases fuel, e, 2
  {
    var g := Gen(EvalC(e, env), stack);
    OneStep(g, answers);
    n := SimList(e.op, [], e.operands, env, answers, fuel, [PrimK(e.op)] + stack);
    var o := EvalList(e.op, [], e.operands, env, answers, fuel);
    Under(g, answers, ListC(e.op, [], e.operands, env), PrimK(e.op), n, o, fuel, fuel);
    n := if o.Done? || o.Raised? then 1 + n + 1 else 1 + n;
  }

  lemma {:induction false} SimCompound(e: Node, env: Env, answers: seq<Answer>, fuel: nat, stack: seq<Pending>)
    returns (n: nat)
    requires e.Compound?
    ensures Shows(Gen(EvalC(e, env), stack), answers, n, Eval(e, env, answers, fuel), stack, fuel)
    decreases fuel, e, 2
  {
    var g := Gen(EvalC(e, env), stack);
    var h := Gen(YieldC(Fork(e.kind, e.branches, env)), stack);
    OneStep(g, answers);
    Asking(h, answers, fuel);
    n := if answers == [] then 0 else 1;
    After(g, answers, 1, h, answers, n, Eval(e, env, answers, fuel), stack, fuel, fuel);
    n := n + 1;
  }

  lemma {:induction false} SimSequence(e: Node, env: Env, answers: seq<Answer>, fuel: nat, stack: seq<Pending>)
    returns (n: nat)
    requires e.Seq?
    ensures Shows(Gen(EvalC(e, env), stack), answers, n, Eval(e, env, answers, fuel), stack, fuel)
    decreases fuel, e, 2
  {
    var g := Gen(EvalC(e, env), stack);
    OneStep(g, answers);
    n := SimSeq(e.exprs, Null, env, answers, fuel, stack);
    After(g, answers, 1, Gen(SeqC(e.exprs, Null, env), stack), answers, n, Eval(e, env, answers, fuel), stack, fuel,
          fuel);
    n := n + 1;
  }

  lemma {:induction false} SimWhile(e: Node, env: Env, answers: seq<Answer>, fuel: nat, stack: seq<Pending>)
    returns (n: nat)
    requires e.While?
    ensures Shows(Gen(EvalC(e, env), stack), answers, n, Eval(e, env, answers, fuel), stack, fuel)
    decreases fuel, e, 2
  {
    var g := Gen(EvalC(e, env), stack);
    OneStep(g, answers);
    n := SimLoop(e, Null, env, answers, fuel, stack);
    After(g, answers, 1, Gen(LoopC(e, Null, env), stack), answers, n, Eval(e, env, answers, fuel), stack, fuel, fuel);
    n := n + 1;
  }

  lemma {:induction false} SimConstruct(e: Node, env: Env, answers: seq<Answer>, fuel: nat, stack: seq<Pending>)
    returns (n: nat)
    requires e.Construct?
    ensures Shows(Gen(EvalC(e, env), stack), answers, n, Eval(e, env, answers, fuel), stack, fuel)
    decreases fuel, e, 2
  {
    hide Run, Shows, EvalFields, SortedKeys, Sorted;
    var g := Gen(EvalC(e, env), stack);
    OneStep(g, answers);
    var keys := SortedKeys(e.entries.Keys);
    n := SimFields(e, keys, map[], env, answers, fuel, stack);
    After(g, answers, 1, Gen(FieldsC(e, keys, map[], env), stack), answers, n, Eval(e, env, answers, fuel), stack,
          fuel, fuel);
    n := n + 1;
  }

  /** The operand `c` of `g` evaluated under the pending work `k`. */
  lemma {:induction false} SimUnder(g: Gen, c: Node, env: Env, k: Pending, answers: seq<Answer>, fuel: nat)
    returns (n: nat)
    requires !Halted(g) && Step(g) == Push(EvalC(c, env), k, g.stack)
    ensures var o := Eval(c, env, answers, fuel);
            && (o.Done? ==> Run(g, answers, n) == (Continue(k, o.value, g.stack), o.rest))
            && (o.Raised? ==> Run(g, answers, n) == (Unwind(k, o.error, g.stack), o.rest))
            && (o.Suspended? || o.OutOfFuel? ==> Shows(g, answers, n, o, g.stack, fuel))
    decreases fuel, c, 4
  {
    OneStep(g, answers);
    n := SimEval(c, env, answers, fuel, [k] + g.stack);
    var o := Eval(c, env, answers, fuel);
    Under(g, answers, EvalC(c, env), k, n, o, fuel, fuel);
    n := if o.Done? || o.Raised? then 1 + n + 1 else 1 + n;
  }

  /** Going on with the expression `e` after `m` steps. */
  lemma {:induction false} SimThen(g: Gen, m: nat, e: Node, env: Env, answers: seq<Answer>, rest: seq<Answer>,
                                   fuel: nat, stack: seq<Pending>)
    returns (n: nat)
    requires Run(g, answers, m) == (Gen(EvalC(e, env), stack), rest)
    ensures Shows(g, answers, n, Eval(e, env, rest, fuel), stack, fuel)
    decreases fuel, e, 4
  {
    var n' := SimEval(e, env, rest, fuel, stack);
    After(g, answers, m, Gen(EvalC(e, env), stack), rest, n', Eval(e, env, rest, fuel), stack, fuel, fuel);
    n := m + n';
  }

  lemma {:induction false} SimCall(e: Node, env: Env, answers: seq<Answer>, fuel: nat, stack: seq<Pending>)
    returns (n: nat)
    requires e.Call?
    ensures Shows(Gen(EvalC(e, env), stack), answers, n, Eval(e, env, answers, fuel), stack, fuel)
    decreases fuel, e, 2
  {
    var g := Gen(EvalC(e, env), stack);
    n := SimUnder(g, e.fn, env, FnK(e.args, env), answers, fuel);
    var o := Eval(e.fn, env, answers, fuel);
    if o.Done? && o.value.Fn? {
      var h := Push(ListC(ArrayOf, [], e.args, env), EnterK(o.value, env), stack);
      var m := SimArgs(e.args, o.value, env, o.rest, fuel, stack);
      After(g, answers, n, h, o.rest, m, Eval(e, env, answers, fuel), stack, fuel, fuel);
      n := n + m;
    }
  }

  /** The arguments of a call, and the call itself. */
  ghost function Entering(f: Node, args: seq<Node>, env: Env, answers: seq<Answer>, fuel: nat): Out
    requires f.Fn?
  {
    match EvalList(ArrayOf, [], args, env, answers, fuel)
    case Done(vs, rest) =>
      if |f.params| != |vs.items| then Raised(ArityMismatch(|f.params|, |vs.items|), rest)
      else if fuel == 0 then OutOfFuel
      else Eval(f.body, ExtendMulti(env, f.params, vs.items), rest, fuel - 1)
    case other => other
  }

  lemma {:induction false} SimArgs(args: seq<Node>, f: Node, env: Env, answers: seq<Answer>, fuel: nat,
                                   stack: seq<Pending>) returns (n: nat)
    requires f.Fn?
    ensures Shows(Push(ListC(ArrayOf, [], args, env), EnterK(f, env), stack), answers, n,
                  Entering(f, args, env, answers, fuel), stack, fuel)
    decreases fuel, args, 3
  {
    var g := Push(ListC(ArrayOf, [], args, env), EnterK(f, env), stack);
    n := SimList(ArrayOf, [], args, env, answers, fuel, [EnterK(f, env)] + stack);
    var a := EvalList(ArrayOf, [], args, env, answers, fuel);
    if a.Done? || a.Raised? {
      ThenPopped(g, answers, n, EnterK(f, env), if a.Done? then Ok(a.value) else Fail(a.error), stack, a.rest);
      n := n + 1;
      if a.Done? && |f.params| == |a.value.items| && fuel > 0 {
        var env' := ExtendMulti(env, f.params, a.value.items);
        var m := SimEval(f.body, env', a.rest, fuel - 1, stack);
        After(g, answers, n, Gen(EvalC(f.body, env'), stack), a.rest, m,
              Eval(f.body, env', a.rest, fuel - 1), stack, fuel - 1, fuel);
        n := n + m;
      }
    }
  }

  lemma {:induction false} SimTry(e: Node, env: Env, answers: seq<Answer>, fuel: nat, stack: seq<Pending>)
    returns (n: nat)
    requires e.Try?
    ensures Shows(Gen(EvalC(e, env), stack), answers, n, Eval(e, env, answers, fuel), stack, fuel)
    decreases fuel, e, 2
  {
    var g := Gen(EvalC(e, env), stack);
    n := SimUnder(g, e.tried, env, TryK(e, env), answers, fuel);
    var o := Eval(e.tried, env, answers, fuel);
    if o.Done? {
      n := SimFinallyThen(g, n, e, env, Ok(o.value), answers, o.rest, fuel, stack);
    } else if o.Raised? && Catchable(o.error) && e.catchBody.Some? {
      var h := Push(EvalC(e.catchBody.value, CatchEnv(e, env, o.error)), CatchK(e, env), stack);
      var m := SimCatch(e, env, o.error, o.rest, fuel, stack);
      After(g, answers, n, h, o.rest, m, Eval(e, env, answers, fuel), stack, fuel, fuel);
      n := n + m;
    } else if o.Raised? {
      n := SimFinallyThen(g, n, e, env, Fail(o.error), answers, o.rest, fuel, stack);
    }
  }

  /** The `catch` clause and what follows it. */
  ghost function Catching(t: Node, env: Env, e: Error, answers: seq<Answer>, fuel: nat): Out
    requires t.Try? && t.catchBody.Some?
  {
    match Eval(t.catchBody.value, CatchEnv(t, env, e), answers, fuel)
    case Done(v, rest) => Finally(t, env, Ok(v), rest, fuel)
    case Raised(e', rest) => Finally(t, env, Fail(e'), rest, fuel)
    case other => other
  }

  lemma {:induction false} SimCatch(t: Node, env: Env, e: Error, answers: seq<Answer>, fuel: nat,
                                    stack: seq<Pending>) returns (n: nat)
    requires t.Try? && t.catchBody.Some?
    ensures Shows(Push(EvalC(t.catchBody.value, CatchEnv(t, env, e)), CatchK(t, env), stack), answers, n,
                  Catching(t, env, e, answers, fuel), stack, fuel)
    decreases fuel, t, 1
  {
    var env' := CatchEnv(t, env, e);
    var g := Push(EvalC(t.catchBody.value, env'), CatchK(t, env), stack);
    n := SimEval(t.catchBody.value, env', answers, fuel, [CatchK(t, env)] + stack);
    var c := Eval(t.catchBody.value, env', answers, fuel);
    if c.Done? || c.Raised? {
      var a := if c.Done? then Ok(c.value) else Fail(c.error);
      ThenPopped(g, answers, n, CatchK(t, env), a, stack, c.rest);
      n := SimFinallyThen(g, n + 1, t, env, a, answers, c.rest, fuel, stack);
    }
  }

  lemma {:induction false} SimFinallyThen(g: Gen, m: nat, t: Node, env: Env, outcome: Answer,
                                          answers: seq<Answer>, rest: seq<Answer>, fuel: nat, stack: seq<Pending>)
    returns (n: nat)
    requires t.Try? && Run(g, answers, m) == (Gen(FinallyC(t, env, outcome), stack), rest)
    ensures Shows(g, answers, n, Finally(t, env, outcome, rest, fuel), stack, fuel)
    decreases fuel, t, 0
  {
    var h := Gen(FinallyC(t, env, outcome), stack);
    var n';
    if t.finallyBody.None? {
      OneStep(h, rest);
      n' := 1;
    } else {
      n' := SimUnder(h, t.finallyBody.value, FinallyEnv(t, env, outcome), RestoreK(outcome), rest, fuel);
    }
    After(g, answers, m, h, rest, n', Finally(t, env, outcome, rest, fuel), stack, fuel, fuel);
    n := m + n';
  }

  lemma {:induction false} SimEffect(e: Node, env: Env, answers: seq<Answer>, fuel: nat, stack: seq<Pending>)
    returns (n: nat)
    requires e.Effect?
    ensures Shows(Gen(EvalC(e, env), stack), answers, n, Eval(e, env, answers, fuel), stack, fuel)
    decreases fuel, e, 2
  {
    var g := Gen(EvalC(e, env), stack);
    OneStep(g, answers);
    n := SimResolve(e.data, env, answers, fuel, [EffectK(e.id)] + stack);
    var o := Resolve(e.data, env, answers, fuel);
    Under(g, answers, ResolveC(e.data, env), EffectK(e.id), n, o, fuel, fuel);
    if o.Done? {
      var h := Gen(YieldC(Standard(e.id, o.value)), stack);
      Asking(h, o.rest, fuel);
      var m := if o.rest == [] then 0 else 1;
      After(g, answers, 1 + n + 1, h, o.rest, m, Ask(h.control.request, o.rest), stack, fuel, fuel);
      n := 1 + n + 1 + m;
    } else {
      n := if o.Raised? then 1 + n + 1 else 1 + n;
    }
  }

  lemma {:induction false} SimSeq(es: seq<Node>, last: Node, env: Env, answers: seq<Answer>, fuel: nat,
                                  stack: seq<Pending>) returns (n: nat)
    ensures Shows(Gen(SeqC(es, last, env), stack), answers, n, EvalSeq(es, last, env, answers, fuel), stack, fuel)
    decreases fuel, es, 2
  {
    var g := Gen(SeqC(es, last, env), stack);
    if es == [] {
      OneStep(g, answers);
      n := 1;
    } else {
      n := SimUnder(g, es[0], env, SeqK(es[1..], env), answers, fuel);
      var o := Eval(es[0], env, answers, fuel);
      if o.Done? {
        var m := SimSeq(es[1..], o.value, env, o.rest, fuel, stack);
        After(g, answers, n, Gen(SeqC(es[1..], o.value, env), stack), o.rest, m,
              EvalSeq(es[1..], o.value, env, o.rest, fuel), stack, fuel, fuel);
        n := n + m;
      }
    }
  }

  lemma {:induction false} SimLoop(w: Node, last: Node, env: Env, answers: seq<Answer>, fuel: nat,
                                   stack: seq<Pending>) returns (n: nat)
    requires w.While?
    ensures Shows(Gen(LoopC(w, last, env), stack), answers, n, Loop(w, last, env, answers, fuel), stack, fuel)
    decreases fuel, w, 1
  {
    var g := Gen(LoopC(w, last, env), stack);
    if fuel == 0 {
      n := 0;
    } else {
      OneStep(g, answers);
      n := SimEval(w.test, env, answers, fuel - 1, [TestK(w, last, env)] + stack);
      var o := Eval(w.test, env, answers, fuel - 1);
      Under(g, answers, EvalC(w.test, env), TestK(w, last, env), n, o, fuel - 1, fuel);
      n := if o.Done? || o.Raised? then 1 + n + 1 else 1 + n;
      if o.Done? && Truthy(o.value) {
        var h := Push(SeqC(w.loop, last, env), AgainK(w, env), stack);
        var m := SimRound(w, last, env, o.rest, fuel, stack);
        After(g, answers, n, h, o.rest, m, Loop(w, last, env, answers, fuel), stack, fuel - 1, fuel);
        n := n + m;
      }
    }
  }

  /** The body of a `while` and the rounds after it. */
  ghost function Rounds(w: Node, last: Node, env: Env, answers: seq<Answer>, fuel: nat): Out
    requires w.While? && fuel > 0
  {
    match EvalSeq(w.loop, last, env, answers, fuel - 1)
    case Done(v, rest) => Loop(w, v, env, rest, fuel - 1)
    case other => other
  }

  lemma {:induction false} SimRound(w: Node, last: Node, env: Env, answers: seq<Answer>, fuel: nat,
                                    stack: seq<Pending>) returns (n: nat)
    requires w.While? && fuel > 0
    ensures Shows(Push(SeqC(w.loop, last, env), AgainK(w, env), stack), answers, n,
                  Rounds(w, last, env, answers, fuel), stack, fuel - 1)
    decreases fuel, w, 0
  {
    var g := Push(SeqC(w.loop, last, env), AgainK(w, env), stack);
    n := SimSeq(w.loop, last, env, answers, fuel - 1, [AgainK(w, env)] + stack);
    var b := EvalSeq(w.loop, last, env, answers, fuel - 1);
    if b.Done? || b.Raised? {
      ThenPopped(g, answers, n, AgainK(w, env), if b.Done? then Ok(b.value) else Fail(b.error), stack, b.rest);
      n := n + 1;
      if b.Done? {
        var m := SimLoop(w, b.value, env, b.rest, fuel - 1, stack);
        After(g, answers, n, Gen(LoopC(w, b.value, env), stack), b.rest, m,
              Loop(w, b.value, env, b.rest, fuel - 1), stack, fuel - 1, fuel - 1);
        n := n + m;
      }
    }
  }

  lemma {:induction false} SimList(op: PrimOp, done: seq<Node>, es: seq<Node>, env: Env, answers: seq<Answer>,
                                   fuel: nat, stack: seq<Pending>) returns (n: nat)
    ensures Shows(Gen(ListC(op, done, es, env), stack), answers, n,
                  EvalList(op, done, es, env, answers, fuel), stack, fuel)
    decreases fuel, es, 2
  {
    hide Eval, Run, ItemFault;
    var g := Gen(ListC(op, done, es, env), stack);
    if es == [] {
      OneStep(g, answers);
      n := 1;
    } else {
      n := SimUnder(g, es[0], env, ItemK(op, done, es[1..], env), answers, fuel);
      var o := Eval(es[0], env, answers, fuel);
      if o.Done? && ItemFault(op, o.value).None? {
        var m := SimList(op, done + [o.value], es[1..], env, o.rest, fuel, stack);
        After(g, answers, n, Gen(ListC(op, done + [o.value], es[1..], env), stack), o.rest, m,
              EvalList(op, done + [o.value], es[1..], env, o.rest, fuel), stack, fuel, fuel);
        n := n + m;
      }
    }
  }

  lemma {:induction false} SimFields(c: Node, keys: seq<string>, made: map<string, Node>, env: Env,
                                     answers: seq<Answer>, fuel: nat, stack: seq<Pending>) returns (n: nat)
    requires c.Construct? && forall k :: k in keys ==> k in c.entries
    ensures Shows(Gen(FieldsC(c, keys, made, env), stack), answers, n,
                  EvalFields(c, keys, made, env, answers, fuel), stack, fuel)
    decreases fuel, c, 1, |keys|
  {
    var g := Gen(FieldsC(c, keys, made, env), stack);
    if keys == [] {
      OneStep(g, answers);
      n := 1;
    } else {
      assert keys[0] in c.entries;
      var e := c.entries[keys[0]];
      n := SimUnder(g, e, env, FieldK(c, keys, made, env), answers, fuel);
      var o := Eval(e, env, answers, fuel);
      if o.Done? {
        var made' := made[keys[0] := o.value];
        var m := SimFields(c, keys[1..], made', env, o.rest, fuel, stack);
        After(g, answers, n, Gen(FieldsC(c, keys[1..], made', env), stack), o.rest, m,
              EvalFields(c, keys[1..], made', env, o.rest, fuel), stack, fuel, fuel);
        n := n + m;
      }
    }
  }

  lemma {:induction false} SimResolve(d: Node, env: Env, answers: seq<Answer>, fuel: nat, stack: seq<Pending>)
    returns (n: nat)
    ensures Shows(Gen(ResolveC(d, env), stack), answers, n, Resolve(d, env, answers, fuel), stack, fuel)
    decreases fuel, d, 5
  {
    hide Eval, ResolveItems, ResolveFields, Run, Shows, SortedKeys, Sorted;
    var g := Gen(ResolveC(d, env), stack);
    OneStep(g, answers);
    match d {
      case Arr(items) => n := SimItems([], items, env, answers, fuel, stack);
      case Obj(fields) => n := SimData(d, SortedKeys(fields.Keys), map[], env, answers, fuel, stack);
      case _ => n := SimEval(d, env, answers, fuel, stack);
    }
    After(g, answers, 1, Step(g), answers, n, Resolve(d, env, answers, fuel), stack, fuel, fuel);
    n := n + 1;
  }

  /** An item of effect data resolved under the pending work `k`. */
  lemma {:induction false} SimResolveUnder(g: Gen, d: Node, env: Env, k: Pending, answers: seq<Answer>, fuel: nat)
    returns (n: nat)
    requires !Halted(g) && Step(g) == Push(ResolveC(d, env), k, g.stack)
    ensures var o := Resolve(d, env, answers, fuel);
            && (o.Done? ==> Run(g, answers, n) == (Continue(k, o.value, g.stack), o.rest))
            && (o.Raised? ==> Run(g, answers, n) == (Unwind(k, o.error, g.stack), o.rest))
            && (o.Suspended? || o.OutOfFuel? ==> Shows(g, answers, n, o, g.stack, fuel))
    decreases fuel, d, 6
  {
    OneStep(g, answers);
    n := SimResolve(d, env, answers, fuel, [k] + g.stack);
    var o := Resolve(d, env, answers, fuel);
    Under(g, answers, ResolveC(d, env), k, n, o, fuel, fuel);
    n := if o.Done? || o.Raised? then 1 + n + 1 else 1 + n;
  }

  lemma {:induction false} SimItems(done: seq<Node>, es: seq<Node>, env: Env, answers: seq<Answer>, fuel: nat,
                                    stack: seq<Pending>) returns (n: nat)
    ensures Shows(Gen(ItemsC(done, es, env), stack), answers, n,
                  ResolveItems(done, es, env, answers, fuel), stack, fuel)
    decreases fuel, es, 2
  {
    var g := Gen(ItemsC(done, es, env), stack);
    if es == [] {
      OneStep(g, answers);
      n := 1;
    } else {
      n := SimResolveUnder(g, es[0], env, DataItemK(done, es[1..], env), answers, fuel);
      var o := Resolve(es[0], env, answers, fuel);
      if o.Done? {
        var m := SimItems(done + [o.value], es[1..], env, o.rest, fuel, stack);
        After(g, answers, n, Gen(ItemsC(done + [o.value], es[1..], env), stack), o.rest, m,
              ResolveItems(done + [o.value], es[1..], env, o.rest, fuel), stack, fuel, fuel);
        n := n + m;
      }
    }
  }

  lemma {:induction false} SimData(d: Node, keys: seq<string>, made: map<string, Node>, env: Env,
                                   answers: seq<Answer>, fuel: nat, stack: seq<Pending>) returns (n: nat)
    requires d.Obj? && forall k :: k in keys ==> k in d.fields
    ensures Shows(Gen(DataC(d, keys, made, env), stack), answers, n,
                  ResolveFields(d, keys, made, env, answers, fuel), stack, fuel)
    decreases fuel, d, 2, |keys|
  {
    var g := Gen(DataC(d, keys, made, env), stack);
    if keys == [] {
      OneStep(g, answers);
      n := 1;
    } else {
      assert keys[0] in d.fields;
      var e := d.fields[keys[0]];
      n := SimResolveUnder(g, e, env, DataFieldK(d, keys, made, env), answers, fuel);
      var o := Resolve(e, env, answers, fuel);
      if o.Done? {
        var made' := made[keys[0] := o.value];
        var m := SimData(d, keys[1..], made', env, o.rest, fuel, stack);
        After(g, answers, n, Gen(DataC(d, keys[1..], made', env), stack), o.rest, m,
              ResolveFields(d, keys[1..], made', env, o.rest, fuel), stack, fuel, fuel);
        n := n + m;
      }
    }
  }

  // ----- main results -----

  /** What a stuck generator shows. */
  function Observed(g: Gen, rest: seq<Answer>): Out
    requires Halted(g)
  {
    match g.control
    case YieldC(r) => Suspended(r)
    case OutC(a) => Deliver(a, rest)
  }

  /** Running further from a stuck generator changes nothing. */
  lemma {:induction false} StuckStays(g: Gen, answers: seq<Answer>, m: nat, n: nat)
    requires var (h, rest) := Run(g, answers, m); Stuck(h, rest)
    requires m <= n
    ensures Run(g, answers, n) == Run(g, answers, m)
  {
    RunAppend(g, answers, m, n - m);
  }

  /** A generator that gets stuck shows exactly the evaluator's outcome. */
  lemma {:induction false} GeneratorShowsEval(e: Node, env: Env, answers: seq<Answer>, n: nat)
    requires var (g, rest) := Run(Start(e, env), answers, n); Stuck(g, rest)
    ensures var (g, rest) := Run(Start(e, env), answers, n);
            Eval(e, env, answers, n + 1) == Observed(g, rest)
  {
    var m := SimEval(e, env, answers, n + 1, []);
    var o := Eval(e, env, answers, n + 1);
    if o.OutOfFuel? {
      StuckStays(Start(e, env), answers, n, m);
      assert false;
    } else if m <= n {
      StuckStays(Start(e, env), answers, m, n);
    } else {
      StuckStays(Start(e, env), answers, n, m);
    }
  }

  /** Every outcome the evaluator reaches is where the generator gets stuck. */
  lemma {:induction false} EvalShownByGenerator(e: Node, env: Env, answers: seq<Answer>, fuel: nat)
    requires !Eval(e, env, answers, fuel).OutOfFuel?
    ensures exists n: nat :: var (g, rest) := Run(Start(e, env), answers, n);
            Stuck(g, rest) && Observed(g, rest) == Eval(e, env, answers, fuel)
  {
    var n := SimEval(e, env, answers, fuel, []);
    var (g, rest) := Run(Start(e, env), answers, n);
    assert Stuck(g, rest) && Observed(g, rest) == Eval(e, env, answers, fuel);
  }

  /** Resuming a suspended generator equals evaluating from scratch on the longer list:
      a generator stopped after `answers` and driven on with `more` shows what `Eval`
      computes from `answers + more`. */
  lemma {:induction false} ResumeEqualsScratch(e: Node, env: Env, answers: seq<Answer>, more: seq<Answer>, n: nat,
                                               m: nat)
    returns (fuel: nat)
    requires Run(Start(e, env), answers, n).1 == []
    requires var (h, rest) := Run(Run(Start(e, env), answers, n).0, more, m); Stuck(h, rest)
    ensures var (h, rest) := Run(Run(Start(e, env), answers, n).0, more, m);
            Eval(e, env, answers + more, fuel) == Observed(h, rest)
  {
    hide Run, Step, Eval;
    var g0 := Start(e, env);
    RunMoreAnswers(g0, answers, more, n);
    var (g, none) := Run(g0, answers, n);
    assert none + more == more;
    var k: nat :| k <= n && Run(g0, answers + more, k) == (g, more);
    RunAppend(g0, answers + more, k, m);
    GeneratorShowsEval(e, env, answers + more, k + m);
    fuel := k + m + 1;
  }

  /** Fuel decides only whether an outcome is reached, not which. */
  lemma {:induction false} FuelIrrelevant(e: Node, env: Env, answers: seq<Answer>, fuel: nat, fuel': nat)
    requires !Eval(e, env, answers, fuel).OutOfFuel? && !Eval(e, env, answers, fuel').OutOfFuel?
    ensures Eval(e, env, answers, fuel) == Eval(e, env, answers, fuel')
  {
    hide Eval;
    EvalShownByGenerator(e, env, answers, fuel);
    EvalShownByGenerator(e, env, answers, fuel');
    var g0 := Start(e, env);
    var n: nat :| var (g, rest) := Run(g0, answers, n);
                  Stuck(g, rest) && Observed(g, rest) == Eval(e, env, answers, fuel);
    var m: nat :| var (g, rest) := Run(g0, answers, m);
                  Stuck(g, rest) && Observed(g, rest) == Eval(e, env, answers, fuel');
    if m <= n {
      StuckStays(g0, answers, m, n);
    } else {
      StuckStays(g0, answers, n, m);
    }
  }

  /** A finished evaluation is unchanged by extra answers: it leaves them over. */
  lemma {:induction false} FinishedIgnoresMore(e: Node, env: Env, answers: seq<Answer>, more: seq<Answer>, fuel: nat)
    returns (fuel': nat)
    requires Eval(e, env, answers, fuel).Done? || Eval(e, env, answers, fuel).Raised?
    ensures var o := Eval(e, env, answers, fuel);
            Eval(e, env, answers + more, fuel') ==
            if o.Done? then Done(o.value, o.rest + more) else Raised(o.error, o.rest + more)
    ensures forall f: nat :: !Eval(e, env, answers + more, f).OutOfFuel? ==>
              Eval(e, env, answers + more, f) == Eval(e, env, answers + more, fuel')
  {
    hide Eval;
    EvalShownByGenerator(e, env, answers, fuel);
    var g0 := Start(e, env);
    var n: nat :| var (g, rest) := Run(g0, answers, n);
                  Stuck(g, rest) && Observed(g, rest) == Eval(e, env, answers, fuel);
    var (g, rest) := Run(g0, answers, n);
    RunMoreAnswers(g0, answers, more, n);
    var k: nat :| k <= n && Run(g0, answers + more, k) == (g, rest + more);
    GeneratorShowsEval(e, env, answers + more, k);
    fuel' := k + 1;
    forall f: nat | !Eval(e, env, answers + more, f).OutOfFuel?
      ensures Eval(e, env, answers + more, f) == Eval(e, env, answers + more, fuel')
    {
      FuelIrrelevant(e, env, answers + more, f, fuel');
    }
  }

  /** How many of the answers an outcome has used. */
  function Used(o: Out, answers: seq<Answer>): int
    requires !o.OutOfFuel?
  {
    if o.Suspended? then |answers| else |answers| - |o.rest|
  }

  ghost predicate Suspends(e: Node, env: Env, answers: seq<Answer>)
  {
    exists fuel: nat :: Eval(e, env, answers, fuel).Suspended?
  }

  lemma {:induction false} RunLeavesSuffix(g: Gen, answers: seq<Answer>, n: nat)
    ensures var rest := Run(g, answers, n).1;
            |rest| <= |answers| && rest == answers[|answers| - |rest|..]
    decreases n
  {
    if n > 0 && !Stuck(g, answers) {
      if g.control.YieldC? {
        RunLeavesSuffix(Resume(g, answers[0]), answers[1..], n - 1);
      } else {
        RunLeavesSuffix(Step(g), answers, n - 1);
      }
    }
  }

  /** A run that uses more than `k` answers has, before it ends, stood at the very yield
      where the run on the first `k` answers waits. */
  lemma {:induction false} PassesThrough(g: Gen, answers: seq<Answer>, n: nat, k: nat)
    returns (m: nat)
    requires |Run(g, answers, n).1| + k < |answers|
    ensures m < n
    ensures var (y, left) := Run(g, answers[..k], m);
            y.control.YieldC? && left == [] && Run(g, answers, m) == (y, answers[k..])
    decreases n
  {
    hide Step;
    if !g.control.YieldC? {
      m := PassesThrough(Step(g), answers, n - 1, k);
      m := m + 1;
    } else if k == 0 {
      m := 0;
    } else {
      m := PassesThrough(Resume(g, answers[0]), answers[1..], n - 1, k - 1);
      assert answers[..k][0] == answers[0] && answers[..k][1..] == answers[1..][..k - 1];
      m := m + 1;
    }
  }

  /** The answers that a run leaves over play no part in it. */
  lemma {:induction false} RunOnUsed(g: Gen, answers: seq<Answer>, n: nat, k: nat)
    returns (m: nat)
    requires k <= |answers| && Run(g, answers, n).1 == answers[k..]
    ensures m <= n && Run(g, answers[..k], m) == (Run(g, answers, n).0, [])
    decreases n
  {
    hide Step;
    m := 0;
    if n == 0 || Stuck(g, answers) {
      assert |answers[k..]| == |answers|;
    } else if g.control.YieldC? {
      RunLeavesSuffix(Resume(g, answers[0]), answers[1..], n - 1);
      assert k > 0 && answers[k..] == answers[1..][k - 1..];
      m := RunOnUsed(Resume(g, answers[0]), answers[1..], n - 1, k - 1);
      assert answers[..k][0] == answers[0] && answers[..k][1..] == answers[1..][..k - 1];
      m := m + 1;
    } else {
      m := RunOnUsed(Step(g), answers, n - 1, k);
      m := m + 1;
    }
  }

  /** Each answer is used at a request of its own, in the order of the list: evaluation on
      the first `k` answers suspends exactly when more than `k` are used, or when the whole
      evaluation waits for an answer beyond the list. On the answers that were used it comes
      to the same outcome, with nothing left. */
  lemma {:induction false} OneRequestPerAnswer(e: Node, env: Env, answers: seq<Answer>, fuel: nat)
    requires !Eval(e, env, answers, fuel).OutOfFuel?
    ensures var o := Eval(e, env, answers, fuel);
            0 <= Used(o, answers) <= |answers| &&
            (o.Suspended? || o.rest == answers[Used(o, answers)..])
    ensures var o := Eval(e, env, answers, fuel);
            forall k: nat :: k <= |answers| ==>
              (Suspends(e, env, answers[..k]) <==> o.Suspended? || k < Used(o, answers))
    ensures var o := Eval(e, env, answers, fuel);
            exists f: nat :: Eval(e, env, answers[..Used(o, answers)], f) ==
              match o case Done(v, _) => Done(v, []) case Raised(x, _) => Raised(x, []) case _ => o
  {
    hide Eval, Run, Step;
    var o := Eval(e, env, answers, fuel);
    var g0 := Start(e, env);
    EvalShownByGenerator(e, env, answers, fuel);
    var n: nat :| var (g, rest) := Run(g0, answers, n); Stuck(g, rest) && Observed(g, rest) == o;
    var (g, rest) := Run(g0, answers, n);
    var used := |answers| - |rest|;
    RunLeavesSuffix(g0, answers, n);
    var m := RunOnUsed(g0, answers, n, used);
    GeneratorShowsEval(e, env, answers[..used], m);
    assert used == Used(o, answers);
    forall k: nat | k <= |answers|
      ensures Suspends(e, env, answers[..k]) <==> o.Suspended? || k < used
    {
      if k < used {
        SuspendsEarly(e, env, answers, n, k);
      } else if o.Suspended? {
        assert answers[..k] == answers;
      } else {
        RunMoreAnswers(g0, answers[..used], answers[used..k], m);
        assert answers[..used] + answers[used..k] == answers[..k];
        var j: nat :| j <= m && Run(g0, answers[..k], j) == (g, [] + answers[used..k]);
        GeneratorShowsEval(e, env, answers[..k], j);
        forall f: nat ensures !Eval(e, env, answers[..k], f).Suspended? {
          if Eval(e, env, answers[..k], f).Suspended? {
            FuelIrrelevant(e, env, answers[..k], f, j + 1);
          }
        }
      }
    }
  }

  lemma {:induction false} SuspendsEarly(e: Node, env: Env, answers: seq<Answer>, n: nat, k: nat)
    requires |Run(Start(e, env), answers, n).1| + k < |answers|
    ensures Suspends(e, env, answers[..k])
  {
    hide Eval, Run, Step;
    var j := PassesThrough(Start(e, env), answers, n, k);
    GeneratorShowsEval(e, env, answers[..k], j);
    assert Eval(e, env, answers[..k], j + 1).Suspended?;
  }
}
