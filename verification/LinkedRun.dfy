/** Linked programs under the kernel. Calls bind parameters in front of the caller's
    environment, so what a function calls sees them too: a runtime name keeps its meaning
    throughout a run when no function that takes part binds it. */
module LinkedRun {
  import opened Text
  import opened Ir
  import opened Kernel
  import opened Generator
  import opened Emit
  import opened Graph
  import opened Rewriting
  import opened Linking

  // ----- terms, values and environments that leave runtime names alone -----

  ghost predicate Fine(v: Node) { Binds(v, Distinguished()) }

  ghost predicate FineAll(vs: seq<Node>) { forall i :: 0 <= i < |vs| ==> Fine(vs[i]) }

  ghost predicate FineMap(m: map<string, Node>) { forall k :: k in m ==> Fine(m[k]) }

  ghost predicate FineAnswer(a: Answer) { a.Ok? ==> Fine(a.value) }

  ghost predicate FineEnv(env: Env)
  {
    env.Frame? ==> FineMap(env.bindings) && FineEnv(env.parent)
  }

  /** The environment shows every linked function under its runtime name. */
  ghost predicate Upholds(env: Env, g: map<string, Node>)
  {
    FineEnv(env) && forall n :: n in g ==> Lookup(n, env) == Some(g[n])
  }

  /** Linked functions under runtime names. */
  ghost predicate Globals(g: map<string, Node>)
  {
    forall n :: n in g ==> RuntimeLike(n) && Fine(g[n])
  }

  lemma {:induction false} LookupFine(x: string, env: Env)
    requires FineEnv(env) && Lookup(x, env).Some?
    ensures Fine(Lookup(x, env).value)
    decreases env
  {
    hide Fine;
    if x !in env.bindings {
      LookupFine(x, env.parent);
    }
  }

  lemma {:induction false} ExtendUpholds(env: Env, x: string, v: Node, g: map<string, Node>)
    requires Upholds(env, g) && Globals(g) && !RuntimeLike(x) && Fine(v)
    ensures Upholds(Extend(env, x, v), g)
  {
    hide Fine, RuntimeLike;
  }

  lemma {:induction false} BindingsFine(names: seq<string>, values: seq<Node>)
    requires |names| == |values| && FineAll(values)
    ensures FineMap(Bindings(names, values))
    ensures forall x :: x in Bindings(names, values) ==> x in names
  {
    hide Fine;
    if names != [] {
      var n := |names| - 1;
      BindingsFine(names[..n], values[..n]);
      assert names == names[..n] + [names[n]];
    }
  }

  lemma {:induction false} ExtendMultiUpholds(env: Env, names: seq<string>, values: seq<Node>, g: map<string, Node>)
    requires Upholds(env, g) && Globals(g) && |names| == |values| && FineAll(values)
    requires forall x :: x in names ==> !RuntimeLike(x)
    ensures Upholds(ExtendMulti(env, names, values), g)
  {
    hide Fine, RuntimeLike;
    BindingsFine(names, values);
    forall n | n in g ensures Lookup(n, ExtendMulti(env, names, values)) == Some(g[n]) {
      assert n !in names;
    }
  }

  // ----- values -----

  lemma {:induction false} FinePart(e: Node, i: nat)
    requires Fine(e) && i < |Parts(e, true)|
    ensures Fine(Parts(e, true)[i].node)
  {
    hide Parts;
  }

  lemma {:induction false} FineArr(items: seq<Node>)
    ensures Fine(Arr(items)) <==> FineAll(items)
  {
    var parts := Parts(Arr(items), true);
    assert parts == Each(items);
    if Fine(Arr(items)) {
      forall i | 0 <= i < |items| ensures Fine(items[i]) {
        FinePart(Arr(items), i);
      }
    }
    hide Each, Parts;
    if FineAll(items) {
      forall i | 0 <= i < |parts| ensures Binds(parts[i].node, Distinguished()) {
        assert Fine(items[i]);
      }
    }
  }

  lemma {:induction false} FieldPart(e: Node, k: string) returns (i: nat)
    requires (e.Obj? || e.Construct?) && k in FieldsOf(e)
    ensures i < |Parts(e, true)| && Parts(e, true)[i].node == FieldsOf(e)[k]
  {
    hide Sorted, EachField;
    var keys := SortedKeys(FieldsOf(e).Keys);
    assert k in keys;
    i :| 0 <= i < |keys| && keys[i] == k;
  }

  lemma {:induction false} FineFields(e: Node)
    requires e.Obj? || e.Construct?
    ensures Fine(e) <==> FineMap(FieldsOf(e))
  {
    hide Sorted, SortedKeys;
    var parts := Parts(e, true);
    if Fine(e) {
      forall k | k in FieldsOf(e) ensures Fine(FieldsOf(e)[k]) {
        var i := FieldPart(e, k);
        FinePart(e, i);
      }
    }
    if FineMap(FieldsOf(e)) {
      var keys := SortedKeys(FieldsOf(e).Keys);
      forall i | 0 <= i < |parts| ensures Binds(parts[i].node, Distinguished()) {
        assert keys[i] in FieldsOf(e) && Fine(FieldsOf(e)[keys[i]]);
      }
      assert OwnBinders(e) == {};
    }
  }

  /** Values without subterms. */
  lemma {:induction false} FineLeaf(v: Node)
    requires v.Null? || v.Bool? || v.Num? || v.Str?
    ensures Fine(v)
  {
    assert Parts(v, true) == [] && OwnBinders(v) == {};
  }

  lemma {:induction false} FineFlatten(vs: seq<Node>)
    requires FineAll(vs)
    ensures FineAll(Flatten(vs))
  {
    hide Fine;
    if vs != [] {
      var n := |vs| - 1;
      FineFlatten(vs[..n]);
      assert Fine(vs[n]);
      if vs[n].Arr? {
        FineArr(vs[n].items);
      }
    }
  }

  lemma {:induction false} FineMerge(vs: seq<Node>)
    requires FineAll(vs)
    ensures FineMap(Merge(vs))
  {
    hide Fine;
    if vs != [] {
      var n := |vs| - 1;
      FineMerge(vs[..n]);
      assert Fine(vs[n]);
      if vs[n].Obj? {
        FineFields(vs[n]);
      }
    }
  }

  lemma {:induction false} LeafFine()
    ensures Fine(Null) && forall b :: Fine(Bool(b))
    ensures forall n :: Fine(Num(n))
    ensures forall s :: Fine(Str(s))
  {
    FineLeaf(Null);
    forall b ensures Fine(Bool(b)) { FineLeaf(Bool(b)); }
    forall n ensures Fine(Num(n)) { FineLeaf(Num(n)); }
    forall s ensures Fine(Str(s)) { FineLeaf(Str(s)); }
  }

  /** Operations make fine values of fine operands. */
  lemma {:induction false} ApplyFine(op: PrimOp, vs: seq<Node>)
    requires FineAll(vs)
    ensures FineAnswer(Apply(op, vs))
  {
    hide Fine, ConcatStrings, Flatten, Merge, Remainder, OpName;
    LeafFine();
    match op
    case ArrayOf => FineArr(vs);
    case ConcatArrays => FineFlatten(vs); FineArr(Flatten(vs));
    case MergeObjects => FineMerge(vs); FineFields(Obj(Merge(vs)));
    case _ =>
  }

  lemma {:induction false} ErrorFine(e: Error)
    ensures Fine(ErrorToValue(e))
  {
    hide Fine, ErrorText, ErrorName;
    LeafFine();
    FineFields(ErrorToValue(e));
  }

  lemma {:induction false} ReadFine(o: Node, key: string)
    requires Fine(o)
    ensures Fine(ReadKey(o, key))
  {
    hide Fine;
    LeafFine();
    if o.Obj? {
      FineFields(o);
    }
  }

  // ----- states of the generator -----

  ghost predicate FineRequest(r: Request, g: map<string, Node>)
  {
    r.Fork? ==> FineAll(r.branches) && Upholds(r.env, g)
  }

  ghost predicate FineControl(c: Control, g: map<string, Node>)
  {
    match c
    case EvalC(e, env) => Fine(e) && Upholds(env, g)
    case SeqC(es, last, env) => FineAll(es) && Fine(last) && Upholds(env, g)
    case LoopC(w, last, env) => Fine(w) && Fine(last) && Upholds(env, g)
    case ListC(_, done, es, env) => FineAll(done) && FineAll(es) && Upholds(env, g)
    case FieldsC(c, _, made, env) => Fine(c) && FineMap(made) && Upholds(env, g)
    case FinallyC(t, env, outcome) => Fine(t) && FineAnswer(outcome) && Upholds(env, g)
    case ResolveC(n, env) => Fine(n) && Upholds(env, g)
    case ItemsC(done, es, env) => FineAll(done) && FineAll(es) && Upholds(env, g)
    case DataC(n, _, made, env) => Fine(n) && FineMap(made) && Upholds(env, g)
    case OutC(a) => FineAnswer(a)
    case YieldC(r) => FineRequest(r, g)
  }

  ghost predicate FinePending(k: Pending, g: map<string, Node>)
  {
    match k
    case LetK(name, body, env) => !RuntimeLike(name) && Fine(body) && Upholds(env, g)
    case SeqK(es, env) => FineAll(es) && Upholds(env, g)
    case IfK(t, f, env) => Fine(t) && (f.Some? ==> Fine(f.value)) && Upholds(env, g)
    case TestK(w, last, env) => Fine(w) && Fine(last) && Upholds(env, g)
    case AgainK(w, env) => Fine(w) && Upholds(env, g)
    case FnK(args, env) => FineAll(args) && Upholds(env, g)
    case EnterK(f, env) => Fine(f) && Upholds(env, g)
    case AndK(b, env) => Fine(b) && Upholds(env, g)
    case OrK(b, env) => Fine(b) && Upholds(env, g)
    case ItemK(_, done, es, env) => FineAll(done) && FineAll(es) && Upholds(env, g)
    case FieldK(c, _, made, env) => Fine(c) && FineMap(made) && Upholds(env, g)
    case TryK(t, env) => Fine(t) && Upholds(env, g)
    case CatchK(t, env) => Fine(t) && Upholds(env, g)
    case RestoreK(outcome) => FineAnswer(outcome)
    case DataItemK(done, es, env) => FineAll(done) && FineAll(es) && Upholds(env, g)
    case DataFieldK(n, _, made, env) => Fine(n) && FineMap(made) && Upholds(env, g)
    case _ => true
  }

  ghost predicate FineGen(h: Gen, g: map<string, Node>)
  {
    FineControl(h.control, g) && forall i :: 0 <= i < |h.stack| ==> FinePending(h.stack[i], g)
  }

  ghost predicate FineStack(stack: seq<Pending>, g: map<string, Node>)
  {
    forall i :: 0 <= i < |stack| ==> FinePending(stack[i], g)
  }

  lemma {:induction false} PushFine(c: Control, k: Pending, stack: seq<Pending>, g: map<string, Node>)
    requires FineControl(c, g) && FinePending(k, g) && FineStack(stack, g)
    ensures FineGen(Push(c, k, stack), g)
  {
    hide FineControl, FinePending;
  }

  // ----- subterms -----

  lemma {:induction false} FineEach(e: Node, from: nat, es: seq<Node>)
    requires Fine(e) && |Parts(e, true)| == from + |es|
    requires forall i :: 0 <= i < |es| ==> Parts(e, true)[from + i].node == es[i]
    ensures FineAll(es)
  {
    hide Fine, Parts;
    forall i | 0 <= i < |es| ensures Fine(es[i]) {
      FinePart(e, from + i);
    }
  }

  /** Nodes with a list of subterms. */
  lemma {:induction false} FineLists(e: Node)
    requires Fine(e)
    ensures e.Seq? ==> FineAll(e.exprs)
    ensures e.Prim? ==> FineAll(e.operands)
    ensures e.Compound? ==> FineAll(e.branches)
  {
    hide Fine, Each, FineAll;
    if e.Seq? {
      FineEach(e, 0, e.exprs);
    } else if e.Prim? {
      FineEach(e, 0, e.operands);
    } else if e.Compound? {
      FineEach(e, 0, e.branches);
    }
  }

  /** Nodes with a list of subterms behind the first. */
  lemma {:induction false} FineTails(e: Node)
    requires Fine(e)
    ensures e.While? ==> Fine(e.test) && FineAll(e.loop)
    ensures e.Call? ==> Fine(e.fn) && FineAll(e.args)
  {
    hide Fine, Each, FineAll;
    if e.While? {
      FinePart(e, 0);
      assert Parts(e, true)[1..] == Each(e.loop);
      assert forall i :: 0 <= i < |e.loop| ==> Parts(e, true)[1 + i] == Parts(e, true)[1..][i];
      FineEach(e, 1, e.loop);
    } else if e.Call? {
      FinePart(e, 0);
      assert Parts(e, true)[1..] == Each(e.args);
      assert forall i :: 0 <= i < |e.args| ==> Parts(e, true)[1 + i] == Parts(e, true)[1..][i];
      FineEach(e, 1, e.args);
    }
  }

  /** Nodes with one or two subterms. */
  lemma {:induction false} FineFew(e: Node)
    requires Fine(e)
    ensures e.Quote? ==> Fine(e.expr)
    ensures e.Get? ==> Fine(e.obj)
    ensures e.Throw? ==> Fine(e.message)
    ensures e.Effect? ==> Fine(e.data)
    ensures e.And? ==> Fine(e.a) && Fine(e.b_)
    ensures e.Or? ==> Fine(e.a) && Fine(e.b_)
  {
    hide Fine;
    if e.Quote? || e.Get? || e.Throw? || e.Effect? {
      FinePart(e, 0);
    } else if e.And? || e.Or? {
      FinePart(e, 0);
      FinePart(e, 1);
    }
  }

  lemma {:induction false} FineIf(e: Node)
    requires Fine(e) && e.If?
    ensures Fine(e.cond) && Fine(e.then_) && (e.else_.Some? ==> Fine(e.else_.value))
  {
    hide Fine;
    FinePart(e, 0);
    FinePart(e, 1);
    if e.else_.Some? {
      FinePart(e, 2);
    }
  }

  lemma {:induction false} FineOwn(e: Node)
    requires Fine(e)
    ensures forall x :: x in OwnBinders(e) ==> !RuntimeLike(x)
  {
    hide RuntimeLike, Parts, OwnBinders;
    forall x | x in OwnBinders(e) ensures !RuntimeLike(x) {
      assert Distinguished()(x);
    }
  }

  lemma {:induction false} FineLet(e: Node)
    requires Fine(e) && e.Let?
    ensures !RuntimeLike(e.bound) && Fine(e.value) && Fine(e.scope)
  {
    hide Fine, RuntimeLike;
    FineOwn(e);
    FinePart(e, 0);
    FinePart(e, 1);
  }

  lemma {:induction false} FineFn(e: Node)
    requires Fine(e) && e.Fn?
    ensures Fine(e.body) && forall x :: x in e.params ==> !RuntimeLike(x)
  {
    hide Fine, RuntimeLike;
    FineOwn(e);
    FinePart(e, 0);
  }

  lemma {:induction false} FineTry(e: Node)
    requires Fine(e) && e.Try?
    ensures Fine(e.tried)
    ensures e.catchParam.Some? ==> !RuntimeLike(e.catchParam.value)
    ensures e.finallyPayload.Some? ==> !RuntimeLike(e.finallyPayload.value)
    ensures e.catchBody.Some? ==> Fine(e.catchBody.value)
    ensures e.finallyBody.Some? ==> Fine(e.finallyBody.value)
  {
    hide Fine, RuntimeLike;
    FineOwn(e);
    FinePart(e, 0);
    if e.catchBody.Some? {
      FinePart(e, 1);
    }
    if e.finallyBody.Some? {
      FinePart(e, |Parts(e, true)| - 1);
    }
  }

  // ----- steps -----

  lemma {:induction false} UpheldFine(env: Env, g: map<string, Node>)
    requires Upholds(env, g)
    ensures FineEnv(env)
  {
  }

  lemma {:induction false} RefFine(x: string, env: Env, stack: seq<Pending>, g: map<string, Node>)
    requires Upholds(env, g) && FineStack(stack, g)
    ensures FineGen(Begin(Ref(x), env, stack), g)
  {
    hide Fine, FinePending, Upholds;
    UpheldFine(env, g);
    if Lookup(x, env).Some? {
      LookupFine(x, env);
    }
  }

  /** What the beginning of an evaluation puts in front of the stack. */
  lemma {:induction false} BeginFine(e: Node, env: Env, stack: seq<Pending>, g: map<string, Node>)
    requires Fine(e) && Upholds(env, g) && FineStack(stack, g)
    ensures FineGen(Begin(e, env, stack), g)
  {
    hide Fine, Upholds, Begin, FinePending, FineGen, FineStack;
    if e.Ref? {
      RefFine(e.name, env, stack, g);
    } else if e.Let? || e.If? || e.Try? || e.Call? || e.Prim? {
      BeginBinding(e, env, stack, g);
    } else if e.Get? || e.And? || e.Or? || e.Throw? || e.Effect? {
      BeginOperand(e, env, stack, g);
    } else {
      BeginDirect(e, env, stack, g);
    }
  }

  lemma {:induction false} BeginBinding(e: Node, env: Env, stack: seq<Pending>, g: map<string, Node>)
    requires Fine(e) && Upholds(env, g) && FineStack(stack, g)
    requires e.Let? || e.If? || e.Try? || e.Call? || e.Prim?
    ensures FineGen(Begin(e, env, stack), g)
  {
    hide Fine, Upholds, RuntimeLike, Lookup, SortedKeys;
    match e
    case Let(_, _, _) => FineLet(e);
    case If(_, _, _) => FineIf(e);
    case Try(_, _, _, _, _) => FineTry(e);
    case Call(_, _) => FineTails(e);
    case Prim(_, _) => FineLists(e);
  }

  lemma {:induction false} BeginOperand(e: Node, env: Env, stack: seq<Pending>, g: map<string, Node>)
    requires Fine(e) && Upholds(env, g) && FineStack(stack, g)
    requires e.Get? || e.And? || e.Or? || e.Throw? || e.Effect?
    ensures FineGen(Begin(e, env, stack), g)
  {
    hide Fine, Upholds, RuntimeLike, Lookup, SortedKeys;
    FineFew(e);
  }

  lemma {:induction false} BeginDirect(e: Node, env: Env, stack: seq<Pending>, g: map<string, Node>)
    requires Fine(e) && Upholds(env, g) && FineStack(stack, g)
    requires !(e.Ref? || e.Let? || e.If? || e.Try? || e.Call? || e.Prim? || e.Get? || e.And? || e.Or? || e.Throw? ||
               e.Effect?)
    ensures FineGen(Begin(e, env, stack), g)
  {
    hide Fine, Upholds, FinePending, RuntimeLike, Lookup, SortedKeys;
    LeafFine();
    if e.Quote? {
      FineFew(e);
    } else if e.Seq? || e.Compound? {
      FineLists(e);
    }
  }

  lemma {:induction false} ContinueFine(k: Pending, v: Node, stack: seq<Pending>, g: map<string, Node>)
    requires Globals(g) && FinePending(k, g) && Fine(v) && FineStack(stack, g)
    ensures FineGen(Continue(k, v, stack), g)
  {
    hide Fine, Upholds, Continue, FinePending, FineGen, FineStack;
    if k.LetK? || k.EnterK? || k.GetK? || k.PrimK? {
      ContinueOn(k, v, stack, g);
    } else {
      ContinueNext(k, v, stack, g);
    }
  }

  /** Where the value is bound or looked into. */
  lemma {:induction false} ContinueOn(k: Pending, v: Node, stack: seq<Pending>, g: map<string, Node>)
    requires Globals(g) && FinePending(k, g) && Fine(v) && FineStack(stack, g)
    requires k.LetK? || k.EnterK? || k.GetK? || k.PrimK?
    ensures FineGen(Continue(k, v, stack), g)
  {
    hide Fine, Upholds, RuntimeLike, Lookup, Truthy, Apply, Extend, ExtendMulti, ItemFault, ReadKey, Globals;
    match k
    case LetK(name, _, env) => ExtendUpholds(env, name, v, g);
    case EnterK(f, env) =>
      if f.Fn? && v.Arr? && |f.params| == |v.items| {
        FineFn(f);
        FineArr(v.items);
        ExtendMultiUpholds(env, f.params, v.items, g);
      }
    case GetK(key) => ReadFine(v, key);
    case PrimK(op) =>
      if v.Arr? {
        FineArr(v.items);
        ApplyFine(op, v.items);
      }
  }

  lemma {:induction false} ContinueNext(k: Pending, v: Node, stack: seq<Pending>, g: map<string, Node>)
    requires FinePending(k, g) && Fine(v) && FineStack(stack, g)
    requires !(k.LetK? || k.EnterK? || k.GetK? || k.PrimK?)
    ensures FineGen(Continue(k, v, stack), g)
  {
    hide Fine, Upholds, RuntimeLike, Lookup, Truthy, Apply, Extend, ExtendMulti, ItemFault, ReadKey;
    if k.TestK? {
      FineTails(k.w);
      LeafFine();
    } else if k.FnK? {
      LeafFine();
    } else {
      hide FineGen, FineStack;
      ContinueControl(k, v, stack, g);
      KeepFine(Continue(k, v, stack).control, stack, g);
    }
  }

  lemma {:induction false} KeepFine(c: Control, stack: seq<Pending>, g: map<string, Node>)
    requires FineControl(c, g) && FineStack(stack, g)
    ensures FineGen(Gen(c, stack), g)
  {
    hide FineControl, FinePending;
  }

  /** Where the rest of the work stays as it is. */
  lemma {:induction false} ContinueControl(k: Pending, v: Node, stack: seq<Pending>, g: map<string, Node>)
    requires FinePending(k, g) && Fine(v)
    requires !(k.LetK? || k.EnterK? || k.GetK? || k.PrimK? || k.TestK? || k.FnK?)
    ensures Continue(k, v, stack).stack == stack && FineControl(Continue(k, v, stack).control, g)
  {
    hide Fine, Upholds, RuntimeLike, Lookup, Truthy, Apply, Extend, ExtendMulti, ItemFault, ReadKey, FineStack;
    LeafFine();
    match k
    case FieldK(_, _, made, _) => FineFields(Obj(made));
    case DataFieldK(_, _, made, _) => FineFields(Obj(made));
    case _ =>
  }

  lemma {:induction false} UnwindFine(k: Pending, e: Error, stack: seq<Pending>, g: map<string, Node>)
    requires Globals(g) && FinePending(k, g) && FineStack(stack, g)
    ensures FineGen(Unwind(k, e, stack), g)
  {
    hide Fine, Upholds, RuntimeLike, ErrorToValue, Extend, Catchable;
    if k.TryK? && k.t.Try? {
      FineTry(k.t);
      ErrorFine(e);
      if k.t.catchParam.Some? {
        ExtendUpholds(k.env, k.t.catchParam.value, ErrorToValue(e), g);
      }
    }
  }

  /** A step keeps every environment and term of the state as it should be. */
  lemma {:induction false} StepFine(h: Gen, g: map<string, Node>)
    requires Globals(g) && FineGen(h, g) && !Halted(h)
    ensures FineGen(Step(h), g)
  {
    hide Fine, Upholds, RuntimeLike, Begin, Continue, Unwind, Extend, SortedKeys, FinePending;
    var stack := h.stack;
    match h.control
    case EvalC(e, env) => BeginFine(e, env, stack, g);
    case OutC(Ok(v)) => ContinueFine(stack[0], v, stack[1..], g);
    case OutC(Fail(e)) => UnwindFine(stack[0], e, stack[1..], g);
    case FinallyC(_, _, _) => FinallyFine(h, g);
    case ResolveC(_, _) => DataFine(h, g);
    case ItemsC(_, _, _) => DataFine(h, g);
    case DataC(_, _, _, _) => DataFine(h, g);
    case _ => WorkFine(h, g);
  }

  lemma {:induction false} FinallyFine(h: Gen, g: map<string, Node>)
    requires Globals(g) && FineGen(h, g) && h.control.FinallyC?
    ensures FineGen(Step(h), g)
  {
    hide Fine, Upholds, RuntimeLike, Extend, FineStack;
    var t, env, outcome := h.control.t, h.control.env, h.control.outcome;
    if t.Try? {
      FineTry(t);
      if t.finallyPayload.Some? && outcome.Ok? {
        ExtendUpholds(env, t.finallyPayload.value, outcome.value, g);
      }
    }
  }

  /** Effect data that is walked. */
  lemma {:induction false} DataFine(h: Gen, g: map<string, Node>)
    requires FineGen(h, g) && (h.control.ResolveC? || h.control.ItemsC? || h.control.DataC?)
    ensures FineGen(Step(h), g)
  {
    hide Fine, Upholds, SortedKeys;
    match h.control
    case ResolveC(n, _) =>
      if n.Arr? {
        FineArr(n.items);
      }
    case ItemsC(done, _, _) => FineArr(done);
    case DataC(n, _, made, _) =>
      FineFields(Obj(made));
      if n.Obj? {
        FineFields(n);
      }
  }

  /** Lists, loops and entries. */
  lemma {:induction false} WorkFine(h: Gen, g: map<string, Node>)
    requires FineGen(h, g)
    requires h.control.SeqC? || h.control.LoopC? || h.control.ListC? || h.control.FieldsC?
    ensures FineGen(Step(h), g)
  {
    hide Fine, Upholds;
    match h.control
    case LoopC(w, _, _) => FineTails(w);
    case ListC(_, done, _, _) => FineArr(done);
    case FieldsC(c, _, made, _) =>
      FineFields(Obj(made));
      if c.Construct? {
        FineFields(c);
      }
    case _ =>
  }

  // ----- runs -----

  lemma {:induction false} RunFine(h: Gen, answers: seq<Answer>, n: nat, g: map<string, Node>)
    requires Globals(g) && FineGen(h, g) && forall i :: 0 <= i < |answers| ==> FineAnswer(answers[i])
    ensures FineGen(Run(h, answers, n).0, g)
    decreases n
  {
    hide FineControl, FinePending, FineAnswer, Globals, Step;
    if n > 0 && !Stuck(h, answers) {
      if h.control.YieldC? {
        ResumeFine(h, answers[0], g);
        RunFine(Resume(h, answers[0]), answers[1..], n - 1, g);
      } else {
        StepFine(h, g);
        RunFine(Step(h), answers, n - 1, g);
      }
    }
  }

  lemma {:induction false} ResumeFine(h: Gen, a: Answer, g: map<string, Node>)
    requires FineGen(h, g) && FineAnswer(a) && h.control.YieldC?
    ensures FineGen(Resume(h, a), g)
  {
    hide FinePending, FineAnswer;
  }

  /** The coroutines that a generator asks for start as they should. */
  lemma {:induction false} ChildFine(h: Gen, g: map<string, Node>, i: nat)
    requires FineGen(h, g) && h.control.YieldC? && h.control.request.Fork? && i < |h.control.request.branches|
    ensures FineGen(Start(h.control.request.branches[i], h.control.request.env), g)
  {
    hide FinePending, Fine, Upholds;
  }

  /** A reference under a runtime name gives the linked function. */
  lemma {:induction false} GlobalRead(h: Gen, g: map<string, Node>, n: string, env: Env)
    requires FineGen(h, g) && n in g && h.control == EvalC(Ref(n), env)
    ensures !Halted(h) && Step(h) == Gen(OutC(Ok(g[n])), h.stack)
  {
    hide FinePending, Fine;
  }

  /** The program that is run: any expression over the inputs and the linked functions, such as
      the call of the linked export. Bindings of linking take precedence over inputs. */
  function Environment(inputs: map<string, Node>, bindings: map<string, Node>): Env
  {
    Frame(inputs + bindings, Empty)
  }

  lemma {:induction false} GlobalsLinked(b: Build, selected: string, reachable: set<string>,
                                         bindings: map<string, Node>)
    requires Reached(b, selected, reachable) && BoundAll(b, reachable, bindings)
    requires forall k :: k in reachable ==> Harmless(b.symbols[k].chosen)
    ensures Globals(bindings)
  {
    hide Checked, Reach, UseGraph, RuntimeName, Linked, RuntimeLike, Harmless, Binds, Refs;
    forall n | n in bindings ensures RuntimeLike(n) && Fine(bindings[n]) {
      var k :| k in reachable && n == RuntimeName(b, b.symbols[k]);
      RuntimeNamesLike(b, b.symbols[k]);
      HarmlessLink(b, selected, reachable, k);
      assert BoundAt(b, reachable, bindings, k);
    }
  }

  lemma {:induction false} EnvironmentUpholds(inputs: map<string, Node>, bindings: map<string, Node>)
    requires Globals(bindings) && FineMap(inputs)
    ensures Upholds(Environment(inputs, bindings), bindings)
  {
    hide Fine, RuntimeLike;
    assert FineEnv(Empty);
  }

  /** Linked programs mean what they say. When no function that is linked has a parameter or
      catch parameter spelled like a runtime name, then at every moment of every run, however
      deep in calls, loops and handlers, a reference under a runtime name gives the function
      that was linked under it. The same holds of every coroutine that the run asks for. */
  lemma {:induction false} LinkedNamesHold(b: Build, selected: string, reachable: set<string>,
                                           bindings: map<string, Node>,
                                           inputs: map<string, Node>, e: Node, answers: seq<Answer>, n: nat, t: string)
    requires Reached(b, selected, reachable) && BoundAll(b, reachable, bindings)
    requires forall k :: k in reachable ==> Harmless(b.symbols[k].chosen)
    requires Fine(e) && FineMap(inputs) && forall i :: 0 <= i < |answers| ==> FineAnswer(answers[i])
    requires t in reachable
    ensures var h := Run(Start(e, Environment(inputs, bindings)), answers, n).0;
            var name := RuntimeName(b, b.symbols[t]);
            && (forall env :: h.control == EvalC(Ref(name), env) ==>
                  !Halted(h) && Step(h) == Gen(OutC(Ok(Linked(b, t, reachable))), h.stack))
            && (h.control.YieldC? && h.control.request.Fork? ==>
                  forall i :: 0 <= i < |h.control.request.branches| ==>
                    FineGen(Start(h.control.request.branches[i], h.control.request.env), bindings))
  {
    hide Checked, Reach, UseGraph, RuntimeName, Linked, Harmless, Run, Step, Globals, Upholds, Environment, FineControl,
      FinePending, FineGen, Fine, FineAnswer;
    GlobalsLinked(b, selected, reachable, bindings);
    EnvironmentUpholds(inputs, bindings);
    var start := Start(e, Environment(inputs, bindings));
    StartFine(e, Environment(inputs, bindings), bindings);
    RunFine(start, answers, n, bindings);
    var h, name := Run(start, answers, n).0, RuntimeName(b, b.symbols[t]);
    assert BoundAt(b, reachable, bindings, t);
    forall env | h.control == EvalC(Ref(name), env)
      ensures !Halted(h) && Step(h) == Gen(OutC(Ok(Linked(b, t, reachable))), h.stack)
    {
      GlobalRead(h, bindings, name, env);
    }
    if h.control.YieldC? && h.control.request.Fork? {
      forall i | 0 <= i < |h.control.request.branches|
        ensures FineGen(Start(h.control.request.branches[i], h.control.request.env), bindings)
      {
        ChildFine(h, bindings, i);
      }
    }
  }

  lemma {:induction false} StartFine(e: Node, env: Env, g: map<string, Node>)
    requires Fine(e) && Upholds(env, g)
    ensures FineGen(Start(e, env), g)
  {
    hide Fine, Upholds;
  }

  // ----- a parameter that captures -----

  /** `main` calls `g`, which calls `h`, which returns 7; `main` has one parameter. */
  function Program(p: string): Build
  {
    Build(map["a::main" := Symbol("a", "main", Some("main"), Fn([p], Call(Ref("g"), [])), {p}),
              "a::g" := Symbol("a", "g", None, Fn([], Call(Ref("h"), [])), {}),
              "a::h" := Symbol("a", "h", None, Fn([], Num(7)), {})],
          map["a" := Module([], map["main" := "main"])], map["a" := 0])
  }

  const All := {"a::main", "a::g", "a::h"}

  lemma {:induction false} ProgramNames(p: string)
    ensures Key("a", "main") == "a::main" && Key("a", "g") == "a::g" && Key("a", "h") == "a::h"
    ensures var b := Program(p);
            && b.symbols.Keys == All
            && RuntimeName(b, b.symbols["a::main"]) == "__rtexport_main"
            && RuntimeName(b, b.symbols["a::g"]) == "__m0_g" && RuntimeName(b, b.symbols["a::h"]) == "__m0_h"
  {
    assert Decimal(0) == "0";
    assert "0" + ['_'] + "g" == "0_g" && "0" + ['_'] + "h" == "0_h";
  }

  /** The bodies call one function. */
  lemma {:induction false} CallTerm(f: string, params: seq<string>, bound: set<string>)
    ensures Refs(Call(Ref(f), []), bound, true) == [Occurrence(f, bound)]
    ensures Refs(Fn(params, Call(Ref(f), [])), bound, true) == [Occurrence(f, bound + Elements(params))]
  {
    var c := Call(Ref(f), []);
    assert Parts(c, true) == [Part(Ref(f), {})];
    assert bound + {} == bound;
    assert RefsFrom(c, 1, bound, true) == [];
    assert RefsFrom(c, 0, bound, true) == Refs(Ref(f), bound + {}, true) + RefsFrom(c, 1, bound, true);
    var e := Fn(params, c);
    var inner := bound + Elements(params);
    assert Parts(e, true) == [Part(c, Elements(params))];
    assert Parts(c, true)[0] == Part(Ref(f), {}) && inner + {} == inner;
    assert RefsFrom(c, 0, inner, true) == Refs(Ref(f), inner + {}, true) + RefsFrom(c, 1, inner, true);
    assert Refs(c, inner, true) == [Occurrence(f, inner)];
    assert RefsFrom(e, 1, bound, true) == [];
    assert RefsFrom(e, 0, bound, true) == Refs(c, inner, true) + RefsFrom(e, 1, bound, true);
  }

  lemma {:induction false} CallBinds(f: string, params: seq<string>, ok: string -> bool)
    requires forall x :: x in params ==> ok(x)
    ensures Binds(Fn(params, Call(Ref(f), [])), ok) && Binds(Fn([], Num(7)), ok)
  {
    assert Binds(Ref(f), ok);
    assert Binds(Call(Ref(f), []), ok);
    assert Binds(Num(7), ok);
  }

  lemma {:induction false} ProgramStored(p: string)
    ensures forall k :: k in All ==> Stored(Program(p), k)
  {
    hide Binds, Free, Refs, Written;
    ProgramNames(p);
    var b := Program(p);
    CallBinds("g", [p], Admitted({p}));
    CallBinds("h", [], Admitted({}));
    FreeCall("g", [p]);
    FreeCall("h", []);
    NumFree();
    assert NoColon("g") && NoColon("h") && NoColon("main");
    assert Stored(b, "a::main");
    assert Stored(b, "a::g");
    assert Stored(b, "a::h");
  }

  lemma {:induction false} FreeCall(f: string, params: seq<string>)
    ensures Free(Fn(params, Call(Ref(f), [])), {}, true) <= {f}
  {
    hide Refs;
    CallTerm(f, params, {});
  }

  lemma {:induction false} NumFree()
    ensures Free(Fn([], Num(7)), {}, true) == {}
  {
    var e := Fn([], Num(7));
    assert Elements([]) == {};
    assert Parts(e, true) == [Part(Num(7), {})];
    assert Parts(Num(7), true) == [];
    assert Refs(Num(7), {} + {}, true) == [];
    assert RefsFrom(e, 1, {}, true) == [];
    assert Refs(e, {}, true) == [];
  }

  lemma {:induction false} ProgramChecked(p: string)
    ensures Checked(Program(p))
  {
    hide Stored;
    ProgramStored(p);
    assert DistinctIdentifiers(Program(p), "a");
  }

  /** The references of the program mean its functions. */
  lemma {:induction false} ProgramMeans(p: string)
    ensures var m := NameMap(Program(p), "a", All);
            "g" in m && m["g"] == "__m0_g" && "h" in m && m["h"] == "__m0_h"
  {
    hide NameMap, Checked, RuntimeName;
    ProgramChecked(p);
    ProgramNames(p);
    assert NoColon("g") && NoColon("h");
    NamesMeanTargets(Program(p), "a", All, "g");
    NamesMeanTargets(Program(p), "a", All, "h");
  }

  /** What linking makes of it. */
  lemma {:induction false} ProgramLinked(p: string)
    ensures var b := Program(p);
            && Linked(b, "a::main", All) == Fn([p], Call(Ref(if p == "g" then "g" else "__m0_g"), []))
            && Linked(b, "a::g", All) == Fn([], Call(Ref("__m0_h"), []))
            && Linked(b, "a::h", All) == Fn([], Num(7))
  {
    hide NameMap;
    ProgramMeans(p);
    var m := NameMap(Program(p), "a", All);
    RewriteCall("g", [p], m);
    RewriteCall("h", [], m);
  }

  lemma {:induction false} RewriteCall(f: string, params: seq<string>, m: map<string, string>)
    requires f in m
    ensures Rewrite(Fn(params, Call(Ref(f), [])), m, {}) ==
            Fn(params, Call(Ref(if f in params then f else m[f]), []))
  {
    var bound := {} + Elements(params);
    assert f in bound <==> f in params;
    assert RewriteAll([], m, bound) == [];
    assert Rewrite(Ref(f), m, bound) == Ref(if f in params then f else m[f]);
    assert Rewrite(Call(Ref(f), []), m, bound) == Call(Rewrite(Ref(f), m, bound), []);
  }

  /** The environment of the linked program, and the call of its export. */
  function ProgramEnv(p: string): Env
  {
    var b := Program(p);
    Frame(map["__rtexport_main" := Linked(b, "a::main", All), "__m0_g" := Linked(b, "a::g", All),
              "__m0_h" := Linked(b, "a::h", All)], Empty)
  }

  lemma {:induction false} ProgramUses(p: string)
    requires p != "g"
    ensures Edge(UseGraph(Program(p)), "a::main", "a::g") && Edge(UseGraph(Program(p)), "a::g", "a::h")
  {
    hide Uses, UseGraph, Edge, Free, Refs, Checked;
    var b := Program(p);
    ProgramNames(p);
    CallTerm("g", [p], {});
    CallTerm("h", [], {});
    ReadsFree("g", [p]);
    ReadsFree("h", []);
    CollectedCover(b.symbols["a::main"].ir, {}, {});
    CollectedCover(b.symbols["a::g"].ir, {}, {});
    assert Resolved(b, "a", "g") == Some("a::g") && Resolved(b, "a", "h") == Some("a::h");
    UsesExactly(b, "a::main", "a::g");
    UsesExactly(b, "a::g", "a::h");
    UseEdge(b, "a::main", "a::g");
    UseEdge(b, "a::g", "a::h");
  }

  lemma {:induction false} ReadsFree(f: string, params: seq<string>)
    requires f !in params
    ensures f in Free(Fn(params, Call(Ref(f), [])), {}, true)
  {
    hide Refs;
    CallTerm(f, params, {});
    var o := Occurrence(f, {} + Elements(params));
    assert o in [o] && IsFree(o);
  }

  /** All three functions are reachable from the export. */
  lemma {:induction false} ProgramReached(p: string)
    requires p != "g"
    ensures Reached(Program(p), "a::main", All)
  {
    hide Uses, UseGraph, Edge, Reach, Checked;
    var b := Program(p);
    ProgramChecked(p);
    ProgramUses(p);
    var g := UseGraph(b);
    ReachSelf(g, "a::main");
    ReachEdge(g, "a::main", "a::g");
    ReachEdge(g, "a::g", "a::h");
    ReachTransitive(g, "a::main", "a::g", "a::h");
    forall k | Reach(g, "a::main", k) ensures k in All {
      forall x, y | x in All && Edge(g, x, y) ensures y in All {
        UseEdge(b, x, y);
        UsesAreSymbols(b, x, y);
      }
      ClosedReach(g, (iset x | x in All), "a::main", k);
    }
  }

  lemma {:induction false} ProgramBound(p: string)
    ensures var b := Program(p);
            && (forall k :: k in b.symbols ==> b.symbols[k].modulePath in b.modules)
            && BoundAll(b, All, ProgramEnv(p).bindings)
  {
    hide Linked, RuntimeName;
    ProgramNames(p);
  }

  /** Linking of a program that passes all checks of the compiler. The export returns 7 unless
      its parameter is spelled like the runtime name of a function that it calls, itself or
      through another; then that function is lost. (A parameter `g` hides `g` in the source.) */
  lemma {:induction false} ParameterCaptures(p: string, v: Node, fuel: nat)
    requires p != "g" && !v.Fn? && fuel >= 3 && Scalar(v)
    ensures var b := Program(p);
            && Reached(b, "a::main", All) && BoundAll(b, All, ProgramEnv(p).bindings)
            && Eval(Call(Linked(b, "a::main", All), [v]), ProgramEnv(p), [], fuel) ==
               if p in {"__m0_g", "__m0_h"} then Raised(NotCallable, []) else Done(Num(7), [])
  {
    hide Linked, Checked, Reach, UseGraph, BoundAt, RuntimeName, NameMap, Rewrite, Eval, Scalar;
    ProgramReached(p);
    ProgramBound(p);
    ProgramLinked(p);
    var env, body := ProgramEnv(p), Call(Ref("__m0_g"), []);
    CallOne(p, body, v, env, fuel);
    var inner := ExtendMulti(env, [p], [v]);
    ParameterShows(p, v, env);
    CallNone(Ref("__m0_g"), inner, fuel - 1);
    if p != "__m0_g" {
      var next := ExtendMulti(inner, [], []);
      assert next == Frame(map[], inner) by { NothingBound(inner); }
      assert Lookup("__m0_g", inner) == Lookup("__m0_g", env) == Some(Linked(Program(p), "a::g", All));
      assert Lookup("__m0_h", env) == Some(Linked(Program(p), "a::h", All));
      assert Lookup("__m0_h", next) == Lookup("__m0_h", inner);
      CallNone(Ref("__m0_h"), next, fuel - 2);
      NumberValue(7, ExtendMulti(next, [], []), fuel - 3);
    }
  }

  lemma {:induction false} ParameterShows(p: string, v: Node, env: Env)
    ensures ExtendMulti(env, [p], [v]) == Frame(map[p := v], env)
  {
    assert [p][..0] == [] && [v][..0] == [];
    assert Bindings([], []) == map[];
  }

  lemma {:induction false} NothingBound(env: Env)
    ensures ExtendMulti(env, [], []) == Frame(map[], env)
  {
  }

  lemma {:induction false} NumberValue(n: int, env: Env, fuel: nat)
    ensures Eval(Num(n), env, [], fuel) == Done(Num(n), [])
  {
  }

  /** A call with one argument. */
  lemma {:induction false} CallOne(p: string, body: Node, v: Node, env: Env, fuel: nat)
    requires Scalar(v) && fuel > 0
    ensures Eval(Call(Fn([p], body), [v]), env, [], fuel) == Eval(body, ExtendMulti(env, [p], [v]), [], fuel - 1)
  {
    ArgumentValue(v, env, fuel);
    hide EvalList, EvalFields, EvalSeq, Loop, Finally, Resolve, Apply, ReadKey, Lookup, ExtendMulti;
    assert Eval(Fn([p], body), env, [], fuel) == Done(Fn([p], body), []);
  }

  /** An argument that is a value. */
  predicate Scalar(v: Node) { v.Null? || v.Bool? || v.Num? || v.Str? }

  lemma {:induction false} ArgumentValue(v: Node, env: Env, fuel: nat)
    requires Scalar(v)
    ensures EvalList(ArrayOf, [], [v], env, [], fuel) == Done(Arr([v]), [])
  {
    assert [v][1..] == [] && [] + [v] == [v];
    assert EvalList(ArrayOf, [v], [], env, [], fuel) == Done(Arr([v]), []);
  }

  /** A call without arguments. */
  lemma {:induction false} CallNone(f: Node, env: Env, fuel: nat)
    requires f.Ref? && fuel > 0
    ensures var found := Lookup(f.name, env);
            Eval(Call(f, []), env, [], fuel) ==
            if found.None? then Raised(UnboundVariable(f.name), [])
            else if !found.value.Fn? then Raised(NotCallable, [])
            else if |found.value.params| != 0 then Raised(ArityMismatch(|found.value.params|, 0), [])
            else Eval(found.value.body, ExtendMulti(env, found.value.params, []), [], fuel - 1)
  {
    assert EvalList(ArrayOf, [], [], env, [], fuel) == Done(Arr([]), []);
  }

  /** In that program no function captures a reference of its own when the parameter is that of
      the function that is called at second hand: what is lost is lost in the run. */
  lemma {:induction false} CalleeCaptured(k: string)
    requires k in All
    ensures var b := Program("__m0_h");
            && b.symbols[k].modulePath in b.modules
            && |Afterwards(b, k, All)| == |Before(b, k)| && StayFree(Before(b, k), Afterwards(b, k, All))
  {
    hide Linked, Refs, Free;
    var p := "__m0_h";
    ProgramNames(p);
    ProgramLinked(p);
    CallTerm("g", [p], {});
    CallTerm("__m0_g", [p], {});
    CallTerm("h", [], {});
    CallTerm("__m0_h", [], {});
    assert Before(Program(p), "a::h") == Afterwards(Program(p), "a::h", All);
  }

  // ----- finalizers -----

  /** The payload of a finalizer has a name that the compiler makes up. */
  function PayloadName(n: nat): string { CounterName("fp", n) }

  /** The finalizer that the compiler writes when one variable is assigned in a `try`: the
      variable's next version is the payload, or its version before if there is none. */
  function Unpacking(joined: string, payload: string, caught: string, before: string, rest: Node): Node
  {
    Let(joined, Try(Ref(payload), Some(caught), Some(Ref(before)), None, None), rest)
  }

  lemma {:induction false} UnpackingReads(joined: string, p: string, caught: string, before: string, rest: Node,
                                          bound: set<string>)
    requires p !in bound
    ensures p in Free(Unpacking(joined, p, caught, before, rest), bound, true)
  {
    var e := Unpacking(joined, p, caught, before, rest);
    var t := e.value;
    assert bound + {} == bound;
    assert Refs(Ref(p), bound, true) == [Occurrence(p, bound)];
    FreeByParts(t, 0, bound, p);
    assert Parts(t, true)[0] == Part(Ref(p), {});
    assert Occurrence(p, bound) in Refs(Ref(p), bound, true);
    RefsAreParts(t, bound);
    FreeByParts(e, 0, bound, p);
    assert Parts(e, true)[0] == Part(t, {});
    RefsAreParts(e, bound);
  }

  lemma {:induction false} PayloadNoColon(n: nat)
    ensures NoColon(PayloadName(n)) && !RuntimeLike(PayloadName(n))
  {
    CounterNotLike("fp", n);
    assert AllDigits(Decimal(n));
    hide Decimal;
    var x := PayloadName(n);
    assert x == "__fp_" + Decimal(n);
  }

  /** Renaming treats the payload of a compiled finalizer as bound, as the kernel does, exactly
      when the module has no function or import of that name that is linked. */
  lemma {:induction false} PayloadKeptExactly(b: Build, path: string, reachable: set<string>, n: nat, joined: string,
                                              caught: string, before: string, rest: Node, bound: set<string>)
    requires Checked(b) && reachable <= b.symbols.Keys && path in b.modules && PayloadName(n) !in bound
    ensures var m, p := NameMap(b, path, reachable), PayloadName(n);
            var body := Unpacking(joined, p, caught, before, rest);
            Rewrite(body, m, bound) == Rewrite(body, m, bound + {p}) <==>
            !(Resolved(b, path, p).Some? && Resolved(b, path, p).value in reachable)
  {
    hide Checked, NameMap, Rewrite, Resolved, RuntimeName, RuntimeLike, PayloadName, Free, Unpacking;
    var m, p := NameMap(b, path, reachable), PayloadName(n);
    var body := Unpacking(joined, p, caught, before, rest);
    PayloadNoColon(n);
    UnpackingReads(joined, p, caught, before, rest, bound);
    RewriteSpared(body, m, bound, p);
    NamesMeanTargets(b, path, reachable, p);
    if p in m {
      RuntimeNamesLike(b, b.symbols[Resolved(b, path, p).value]);
    }
  }

  /** With a function of that name, which the compiler accepts, the finalizer reads the function
      in place of the payload: the variable that the payload carries is lost. */
  lemma {:induction false} PayloadRewritten(b: Build, path: string, reachable: set<string>, n: nat, joined: string,
                                            caught: string, before: string, v: Node, env: Env,
                                            answers: seq<Answer>, fuel: nat)
    requires Checked(b) && reachable <= b.symbols.Keys && path in b.modules
    requires Resolved(b, path, PayloadName(n)).Some? && Resolved(b, path, PayloadName(n)).value in reachable
    requires var t := Resolved(b, path, PayloadName(n)).value;
             b.symbols[t].modulePath in b.modules &&
             Lookup(RuntimeName(b, b.symbols[t]), env) == Some(Linked(b, t, reachable))
    ensures var body := Unpacking(joined, PayloadName(n), caught, before, Ref(joined));
            var t := Resolved(b, path, PayloadName(n)).value;
            var inner := Extend(env, PayloadName(n), v);
            && Eval(body, inner, answers, fuel) == Done(v, answers)
            && Eval(Rewrite(body, NameMap(b, path, reachable), {}), inner, answers, fuel) ==
               Done(Linked(b, t, reachable), answers)
  {
    hide Checked, NameMap, Resolved, RuntimeName, RuntimeLike, Linked, PayloadName, Eval, Rewrite;
    var m, p := NameMap(b, path, reachable), PayloadName(n);
    var t := Resolved(b, path, p).value;
    PayloadNoColon(n);
    NamesMeanTargets(b, path, reachable, p);
    RuntimeNamesLike(b, b.symbols[t]);
    var inner := Extend(env, p, v);
    var before' := UnpackingRenamed(joined, p, caught, before, m);
    UnpackingRuns(joined, p, caught, before, inner, answers, fuel);
    UnpackingRuns(joined, m[p], caught, before', inner, answers, fuel);
  }

  lemma {:induction false} UnpackingRenamed(joined: string, p: string, caught: string, before: string,
                                            m: map<string, string>) returns (before': string)
    requires p in m
    ensures Rewrite(Unpacking(joined, p, caught, before, Ref(joined)), m, {}) ==
            Unpacking(joined, m[p], caught, before', Ref(joined))
  {
    var e := Unpacking(joined, p, caught, before, Ref(joined));
    before' := if before in m && before != caught then m[before] else before;
    assert Rewrite(Ref(joined), m, {} + {joined}) == Ref(joined);
    assert Rewrite(Ref(p), m, {}) == Ref(m[p]);
    assert Rewrite(Ref(before), m, {} + Named(Some(caught))) == Ref(before');
    assert RewriteOption(Some(Ref(before)), m, {} + Named(Some(caught))) == Some(Ref(before'));
    assert RewriteOption(None, m, {}) == None;
    assert Rewrite(e.value, m, {}) == Try(Ref(m[p]), Some(caught), Some(Ref(before')), None, None);
    assert Rewrite(e, m, {}) == Unpacking(joined, m[p], caught, before', Ref(joined));
  }

  lemma {:induction false} UnpackingRuns(joined: string, p: string, caught: string, before: string, env: Env,
                                         answers: seq<Answer>, fuel: nat)
    requires Lookup(p, env).Some?
    ensures Eval(Unpacking(joined, p, caught, before, Ref(joined)), env, answers, fuel) ==
            Done(Lookup(p, env).value, answers)
  {
    var e := Unpacking(joined, p, caught, before, Ref(joined));
    assert Eval(Ref(p), env, answers, fuel) == Done(Lookup(p, env).value, answers);
    assert Eval(e.value, env, answers, fuel) == Done(Lookup(p, env).value, answers);
  }
}
