/** The kernel as the suspendable machine the driver holds: the generator's control point
    and its stack of pending work. The big-step evaluator of `Kernel` is its reference. */
module Generator {
  import opened Text
  import opened Ir
  import opened Kernel

  /** What the generator is about to do. */
  datatype Control =
    | EvalC(e: Node, env: Env)
    | SeqC(es: seq<Node>, last: Node, env: Env)
    | LoopC(w: Node, last: Node, env: Env)
    | ListC(op: PrimOp, done: seq<Node>, es: seq<Node>, env: Env)
    | FieldsC(c: Node, keys: seq<string>, made: map<string, Node>, env: Env)
    | FinallyC(t: Node, env: Env, outcome: Answer)
    | ResolveC(n: Node, env: Env)
    | ItemsC(done: seq<Node>, es: seq<Node>, env: Env)
    | DataC(n: Node, keys: seq<string>, made: map<string, Node>, env: Env)
    | OutC(answer: Answer)
    | YieldC(request: Request)

  /** What waits for the value under evaluation. */
  datatype Pending =
    | LetK(name: string, body: Node, env: Env)
    | SeqK(es: seq<Node>, env: Env)
    | IfK(then_: Node, else_: Option<Node>, env: Env)
    | TestK(w: Node, last: Node, env: Env)
    | AgainK(w: Node, env: Env)
    | FnK(args: seq<Node>, env: Env)
    | EnterK(f: Node, env: Env)
    | GetK(key: string)
    | PrimK(op: PrimOp)
    | AndK(b: Node, env: Env)
    | OrK(b: Node, env: Env)
    | ThrowK
    | ItemK(op: PrimOp, done: seq<Node>, es: seq<Node>, env: Env)
    | FieldK(c: Node, keys: seq<string>, made: map<string, Node>, env: Env)
    | TryK(t: Node, env: Env)
    | CatchK(t: Node, env: Env)
    | RestoreK(outcome: Answer)
    | EffectK(id: string)
    | DataItemK(done: seq<Node>, es: seq<Node>, env: Env)
    | DataFieldK(n: Node, keys: seq<string>, made: map<string, Node>, env: Env)

  datatype Gen = Gen(control: Control, stack: seq<Pending>)

  function Start(e: Node, env: Env): Gen { Gen(EvalC(e, env), []) }

  /** The generator cannot go on by itself: it has returned, thrown, or yielded. */
  predicate Halted(g: Gen)
  {
    g.control.YieldC? || (g.control.OutC? && g.stack == [])
  }

  // ----- one step -----

  function Push(c: Control, k: Pending, stack: seq<Pending>): Gen { Gen(c, [k] + stack) }

  /** Beginning the evaluation of an expression. */
  function Begin(e: Node, env: Env, stack: seq<Pending>): Gen
  {
    match e
    case Ref(name) =>
      var found := Lookup(name, env);
      Gen(OutC(if found.Some? then Ok(found.value) else Fail(UnboundVariable(name))), stack)
    case Quote(inner) => Gen(OutC(Ok(inner)), stack)
    case Let(name, value, body) => Push(EvalC(value, env), LetK(name, body, env), stack)
    case Seq(exprs) => Gen(SeqC(exprs, Null, env), stack)
    case If(cond, then_, else_) => Push(EvalC(cond, env), IfK(then_, else_, env), stack)
    case While(_, _) => Gen(LoopC(e, Null, env), stack)
    case Call(fn, args) => Push(EvalC(fn, env), FnK(args, env), stack)
    case Get(obj, key) => Push(EvalC(obj, env), GetK(key), stack)
    case Prim(op, operands) => Push(ListC(op, [], operands, env), PrimK(op), stack)
    case And(a, b) => Push(EvalC(a, env), AndK(b, env), stack)
    case Or(a, b) => Push(EvalC(a, env), OrK(b, env), stack)
    case Construct(entries) => Gen(FieldsC(e, SortedKeys(entries.Keys), map[], env), stack)
    case Throw(message) => Push(EvalC(message, env), ThrowK, stack)
    case Try(body, _, _, _, _) => Push(EvalC(body, env), TryK(e, env), stack)
    case Effect(id, data) => Push(ResolveC(data, env), EffectK(id), stack)
    case Compound(kind, branches) => Gen(YieldC(Fork(kind, branches, env)), stack)
    case _ => Gen(OutC(Ok(e)), stack)
  }

  /** Handing a value to the work that waits for it. */
  function Continue(k: Pending, v: Node, stack: seq<Pending>): Gen
  {
    match k
    case LetK(name, body, env) => Gen(EvalC(body, Extend(env, name, v)), stack)
    case SeqK(es, env) => Gen(SeqC(es, v, env), stack)
    case IfK(then_, else_, env) =>
      if Truthy(v) then Gen(EvalC(then_, env), stack)
      else if else_.Some? then Gen(EvalC(else_.value, env), stack)
      else Gen(OutC(Ok(Null)), stack)
    case TestK(w, last, env) =>
      if Truthy(v) && w.While? then Push(SeqC(w.loop, last, env), AgainK(w, env), stack)
      else Gen(OutC(Ok(last)), stack)
    case AgainK(w, env) => Gen(LoopC(w, v, env), stack)
    case FnK(args, env) =>
      if v.Fn? then Push(ListC(ArrayOf, [], args, env), EnterK(v, env), stack)
      else Gen(OutC(Fail(NotCallable)), stack)
    case EnterK(f, env) =>
      if !f.Fn? || !v.Arr? then Gen(OutC(Fail(NotCallable)), stack)
      else if |f.params| != |v.items| then
        Gen(OutC(Fail(ArityMismatch(|f.params|, |v.items|))), stack)
      else Gen(EvalC(f.body, ExtendMulti(env, f.params, v.items)), stack)
    case GetK(key) => Gen(OutC(Ok(ReadKey(v, key))), stack)
    case PrimK(op) => Gen(OutC(if v.Arr? then Apply(op, v.items) else Malformed(op)), stack)
    case AndK(b, env) => if Truthy(v) then Gen(EvalC(b, env), stack) else Gen(OutC(Ok(v)), stack)
    case OrK(b, env) => if Truthy(v) then Gen(OutC(Ok(v)), stack) else Gen(EvalC(b, env), stack)
    case ThrowK => Gen(OutC(Fail(ThrownError(v))), stack)
    case ItemK(op, done, es, env) =>
      var fault := ItemFault(op, v);
      if fault.Some? then Gen(OutC(Fail(fault.value)), stack)
      else Gen(ListC(op, done + [v], es, env), stack)
    case FieldK(c, keys, made, env) =>
      if keys == [] then Gen(OutC(Ok(Obj(made))), stack)
      else Gen(FieldsC(c, keys[1..], made[keys[0] := v], env), stack)
    case TryK(t, env) => Gen(FinallyC(t, env, Ok(v)), stack)
    case CatchK(t, env) => Gen(FinallyC(t, env, Ok(v)), stack)
    case RestoreK(outcome) => Gen(OutC(outcome), stack)
    case EffectK(id) => Gen(YieldC(Standard(id, v)), stack)
    case DataItemK(done, es, env) => Gen(ItemsC(done + [v], es, env), stack)
    case DataFieldK(n, keys, made, env) =>
      if keys == [] then Gen(OutC(Ok(Obj(made))), stack)
      else Gen(DataC(n, keys[1..], made[keys[0] := v], env), stack)
  }

  /** Unwinding an error through the work that waits: only `try` stops it. */
  function Unwind(k: Pending, e: Error, stack: seq<Pending>): Gen
  {
    match k
    case TryK(t, env) =>
      if t.Try? && Catchable(e) && t.catchBody.Some? then
        Push(EvalC(t.catchBody.value, CatchEnv(t, env, e)), CatchK(t, env), stack)
      else Gen(FinallyC(t, env, Fail(e)), stack)
    case CatchK(t, env) => Gen(FinallyC(t, env, Fail(e)), stack)
    case _ => Gen(OutC(Fail(e)), stack)
  }

  function Step(g: Gen): Gen
    requires !Halted(g)
  {
    var stack := g.stack;
    match g.control
    case EvalC(e, env) => Begin(e, env, stack)
    case SeqC(es, last, env) =>
      if es == [] then Gen(OutC(Ok(last)), stack)
      else Push(EvalC(es[0], env), SeqK(es[1..], env), stack)
    case LoopC(w, last, env) =>
      if w.While? then Push(EvalC(w.test, env), TestK(w, last, env), stack)
      else Gen(OutC(Ok(last)), stack)
    case ListC(op, done, es, env) =>
      if es == [] then Gen(OutC(Ok(Arr(done))), stack)
      else Push(EvalC(es[0], env), ItemK(op, done, es[1..], env), stack)
    case FieldsC(c, keys, made, env) =>
      if keys == [] || !c.Construct? || keys[0] !in c.entries then Gen(OutC(Ok(Obj(made))), stack)
      else Push(EvalC(c.entries[keys[0]], env), FieldK(c, keys, made, env), stack)
    case FinallyC(t, env, outcome) =>
      if t.Try? && t.finallyBody.Some? then
        Push(EvalC(t.finallyBody.value, FinallyEnv(t, env, outcome)), RestoreK(outcome), stack)
      else Gen(OutC(outcome), stack)
    case ResolveC(n, env) =>
      if n.Arr? then Gen(ItemsC([], n.items, env), stack)
      else if n.Obj? then Gen(DataC(n, SortedKeys(n.fields.Keys), map[], env), stack)
      else Gen(EvalC(n, env), stack)
    case ItemsC(done, es, env) =>
      if es == [] then Gen(OutC(Ok(Arr(done))), stack)
      else Push(ResolveC(es[0], env), DataItemK(done, es[1..], env), stack)
    case DataC(n, keys, made, env) =>
      if keys == [] || !n.Obj? || keys[0] !in n.fields then Gen(OutC(Ok(Obj(made))), stack)
      else Push(ResolveC(n.fields[keys[0]], env), DataFieldK(n, keys, made, env), stack)
    case OutC(Ok(v)) => Continue(stack[0], v, stack[1..])
    case OutC(Fail(e)) => Unwind(stack[0], e, stack[1..])
  }

  // ----- runs -----

  /** `next(value)` or `throw(error)` on a generator that has yielded. */
  function Resume(g: Gen, a: Answer): Gen
    requires g.control.YieldC?
  {
    Gen(OutC(a), g.stack)
  }

  /** Nothing can happen: the generator has finished, or it waits for an answer that is
      not there. */
  predicate Stuck(g: Gen, answers: seq<Answer>)
  {
    Halted(g) && (g.control.YieldC? ==> answers == [])
  }

  /** At most `n` steps, resuming with one answer at each yield. */
  function Run(g: Gen, answers: seq<Answer>, n: nat): (r: (Gen, seq<Answer>))
    decreases n
  {
    if n == 0 || Stuck(g, answers) then (g, answers)
    else if g.control.YieldC? then Run(Resume(g, answers[0]), answers[1..], n - 1)
    else Run(Step(g), answers, n - 1)
  }

  lemma {:induction false} RunAppend(g: Gen, answers: seq<Answer>, m: nat, n: nat)
    ensures Run(g, answers, m + n) == (var (h, rest) := Run(g, answers, m); Run(h, rest, n))
    decreases m
  {
    if m > 0 && !Stuck(g, answers) {
      if g.control.YieldC? {
        RunAppend(Resume(g, answers[0]), answers[1..], m - 1, n);
      } else {
        RunAppend(Step(g), answers, m - 1, n);
      }
    } else if m > 0 {
      assert Run(g, answers, n) == (g, answers);
    }
  }

  /** A run that has not had to wait is the same with more answers behind it. */
  lemma {:induction false} RunMoreAnswers(g: Gen, answers: seq<Answer>, more: seq<Answer>, n: nat)
    ensures var (h, rest) := Run(g, answers, n);
            exists k: nat :: k <= n && Run(g, answers + more, k) == (h, rest + more)
    decreases n
  {
    if n == 0 || Stuck(g, answers) {
      assert Run(g, answers + more, 0) == (g, answers + more);
    } else if g.control.YieldC? {
      assert (answers + more)[0] == answers[0] && (answers + more)[1..] == answers[1..] + more;
      RunMoreAnswers(Resume(g, answers[0]), answers[1..], more, n - 1);
      var (h, rest) := Run(g, answers, n);
      var k: nat :| k <= n - 1 && Run(Resume(g, answers[0]), answers[1..] + more, k) == (h, rest + more);
      assert Run(g, answers + more, k + 1) == (h, rest + more);
    } else {
      RunMoreAnswers(Step(g), answers, more, n - 1);
      var (h, rest) := Run(g, answers, n);
      var k: nat :| k <= n - 1 && Run(Step(g), answers + more, k) == (h, rest + more);
      assert Run(g, answers + more, k + 1) == (h, rest + more);
    }
  }

  /** Running to the next halt without further answers: where `next` or `throw` returns. */
  ghost predicate ComesTo(g: Gen, h: Gen)
  {
    Halted(h) && exists n: nat :: Run(g, [], n) == (h, [])
  }

  /** The halt a generator comes to; one that never halts stays where it is. */
  ghost function RunOn(g: Gen): Gen
  {
    if exists h :: ComesTo(g, h) then
      var h :| ComesTo(g, h);
      h
    else g
  }

  // ----- the machine follows the evaluator -----

  /** After `n` steps from `g` the machine shows the outcome `o` above `stack`. */
  ghost predicate Shows(g: Gen, answers: seq<Answer>, n: nat, o: Out, stack: seq<Pending>, fuel: nat)
  {
    var (h, rest) := Run(g, answers, n);
    match o
    case Done(v, left) => h == Gen(OutC(Ok(v)), stack) && rest == left
    case Raised(e, left) => h == Gen(OutC(Fail(e)), stack) && rest == left
    case Suspended(r) => h.control == YieldC(r) && rest == []
    case OutOfFuel => n >= fuel && !Stuck(h, rest)
  }

  lemma {:induction false} After(g: Gen, answers: seq<Answer>, m: nat, h: Gen, rest: seq<Answer>, n: nat,
              o: Out, stack: seq<Pending>, fuel': nat, fuel: nat)
    requires Run(g, answers, m) == (h, rest)
    requires Shows(h, rest, n, o, stack, fuel') && fuel <= fuel' + m
    ensures Shows(g, answers, m + n, o, stack, fuel)
  {
    RunAppend(g, answers, m, n);
  }

  lemma {:induction false} OneStep(g: Gen, answers: seq<Answer>)
    requires !Halted(g)
    ensures Run(g, answers, 1) == (Step(g), answers)
  {
    assert Run(Step(g), answers, 0) == (Step(g), answers);
  }

  /** The top of the stack takes the outcome of what it waited for. */
  function Handed(k: Pending, a: Answer, stack: seq<Pending>): Gen
  {
    match a
    case Ok(v) => Continue(k, v, stack)
    case Fail(e) => Unwind(k, e, stack)
  }

  lemma {:induction false} Popped(k: Pending, a: Answer, stack: seq<Pending>, answers: seq<Answer>)
    ensures Run(Push(OutC(a), k, stack), answers, 1) == (Handed(k, a, stack), answers)
  {
    var g := Push(OutC(a), k, stack);
    assert g.stack[0] == k && g.stack[1..] == stack;
    OneStep(g, answers);
  }

  /** `m` steps, then the hand-over of an outcome to the work that waits for it. */
  lemma {:induction false} ThenPopped(g: Gen, answers: seq<Answer>, m: nat, k: Pending, a: Answer,
                                      stack: seq<Pending>, rest: seq<Answer>)
    requires Run(g, answers, m) == (Push(OutC(a), k, stack), rest)
    ensures Run(g, answers, m + 1) == (Handed(k, a, stack), rest)
  {
    RunAppend(g, answers, m, 1);
    Popped(k, a, stack, rest);
  }

  /** Evaluating `c` under `k`: what the machine does once the outcome `o` is there. */
  lemma {:induction false} Under(g: Gen, answers: seq<Answer>, c: Control, k: Pending, n: nat, o: Out,
              fuel': nat, fuel: nat)
    requires Run(g, answers, 1) == (Push(c, k, g.stack), answers)
    requires Shows(Push(c, k, g.stack), answers, n, o, [k] + g.stack, fuel') && fuel <= fuel' + 1
    ensures o.Done? ==> Run(g, answers, 1 + n + 1) == (Continue(k, o.value, g.stack), o.rest)
    ensures o.Raised? ==> Run(g, answers, 1 + n + 1) == (Unwind(k, o.error, g.stack), o.rest)
    ensures o.Suspended? || o.OutOfFuel? ==> Shows(g, answers, 1 + n, o, g.stack, fuel)
  {
    hide Run, Continue, Unwind;
    RunAppend(g, answers, 1, n);
    match o
    case Done(v, rest) => ThenPopped(g, answers, 1 + n, k, Ok(v), g.stack, rest);
    case Raised(e, rest) => ThenPopped(g, answers, 1 + n, k, Fail(e), g.stack, rest);
    case Suspended(_) =>
    case OutOfFuel =>
  }

  /** A yield answered at once. */
  lemma {:induction false} Asking(g: Gen, answers: seq<Answer>, fuel: nat)
    requires g.control.YieldC?
    ensures var n := if answers == [] then 0 else 1;
            Shows(g, answers, n, Ask(g.control.request, answers), g.stack, fuel)
  {
    if answers != [] {
      var h := Resume(g, answers[0]);
      assert Run(h, answers[1..], 0) == (h, answers[1..]);
    }
  }
}
