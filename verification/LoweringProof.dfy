/** The loop lowering preserves meaning under call-site scoping. */
module LoweringProof {
  import opened Text
  import opened Ir
  import opened Kernel
  import opened Source
  import opened Emit
  import opened LoweringBasics
  import opened LoweringState

  /** What the steps of the proof need to know of the loop. */
  lemma {:induction false} WorldBasics(w: World)
    requires GoodWorld(w)
    ensures w.loop.WhileStmt? && w.base != []
    ensures Synthetic(w.shape.name) && |w.shape.name| > 3 && w.shape.name[3] == 'o'
    ensures w.shape.last.Some? ==>
              Synthetic(w.shape.last.value) && |w.shape.last.value| > 3 && w.shape.last.value[3] == 'a'
    ensures NoClash(w.consts, w.lets) && Named(w, w.base, w.entry)
    ensures w.loop.test.Some? <==> w.shape.last.Some?
  {
  }

  // ----- the statements still to run -----

  /** A run of statements, and the variables that survive its block. The compiled body
      inlines what follows a branch; the source leaves the branch's block first. */
  datatype Seg = Seg(stmts: seq<Stmt>, outer: set<string>)

  function Flat(segs: seq<Seg>): seq<Stmt>
  {
    if segs == [] then [] else segs[0].stmts + Flat(segs[1..])
  }

  ghost function ExecSegs(segs: seq<Seg>, store: Store, answers: seq<Answer>, fuel: nat): Exit
  {
    if segs == [] then Fall(store, answers)
    else
      match Exec(segs[0].stmts, store, answers, fuel)
      case Fall(store', rest) => ExecSegs(segs[1..], Leave(store', segs[0].outer), rest, fuel)
      case other => other
  }

  /** The rest of this iteration and all later ones. */
  ghost function Whole(w: World, segs: seq<Seg>, store: Store, answers: seq<Answer>, fuel: nat): Exit
    requires w.loop.WhileStmt?
  {
    match ExecSegs(segs, store, answers, fuel)
    case Fall(store', rest) => ExecWhile(w.loop, store', rest, fuel)
    case other => other
  }

  ghost predicate SegOk(w: World, stmts: seq<Stmt>, vis: set<string>, mut: set<string>)
    requires w.loop.WhileStmt?
  {
    && WellScoped(stmts, vis, mut)
    && Covered(stmts, w.consts, w.lets, Targets(w))
    && (ContainsReturn(stmts) ==> w.shape.pack)
  }

  ghost predicate SegsOk(w: World, segs: seq<Seg>, vis: set<string>, mut: set<string>)
    requires w.loop.WhileStmt?
  {
    if segs == [] then vis == w.entry.Keys
    else
      && SegOk(w, segs[0].stmts, vis, mut)
      && w.entry.Keys <= segs[0].outer <= vis
      && SegsOk(w, segs[1..], segs[0].outer, mut * segs[0].outer)
  }

  // ----- what the packed result says -----

  /** The outcome of the loop call shows how the source loop left. */
  ghost predicate Agrees(w: World, out: Out, exit: Exit)
  {
    match exit
    case Fall(store, rest) =>
      && out.Done? && out.rest == rest && out.value.Obj?
      && (w.shape.pack ==> "__tag" in out.value.fields && out.value.fields["__tag"] == Str("exit"))
      && CarriedShown(w, out.value.fields, store)
      && store.Keys == w.entry.Keys
      && (forall x :: x in w.entry && x !in w.shape.carried ==> x in store && store[x] == w.entry[x])
    case Returned(v, _, rest) =>
      && w.shape.pack
      && out.Done? && out.rest == rest && out.value.Obj?
      && "__tag" in out.value.fields && out.value.fields["__tag"] == Str("return")
      && "__value" in out.value.fields && out.value.fields["__value"] == v
    case Thrown(e, _, rest) => out == Raised(e, rest)
    case Waiting(r) => out == Suspended(r)
    case NoFuel => out == OutOfFuel
  }

  ghost predicate CarriedShown(w: World, fields: map<string, Node>, store: Store)
  {
    forall v :: v in w.shape.carried ==> v in fields && (v in store ==> fields[v] == store[v])
  }

  /** Exits that differ at most in the store of a return or a throw. */
  ghost predicate SameExit(x: Exit, y: Exit)
  {
    || x == y
    || (x.Returned? && y.Returned? && x.value == y.value && x.rest == y.rest)
    || (x.Thrown? && y.Thrown? && x.error == y.error && x.rest == y.rest)
  }

  lemma {:induction false} AgreesSame(w: World, out: Out, x: Exit, y: Exit)
    requires Agrees(w, out, x) && SameExit(x, y)
    ensures Agrees(w, out, y)
  {
  }

  /** The first statement of the first segment runs, the rest follows. */
  lemma {:induction false} SegsStep(w: World, s: Stmt, tail: seq<Stmt>, outer: set<string>, more: seq<Seg>,
                                    store: Store,
                 answers: seq<Answer>, fuel: nat)
    requires w.loop.WhileStmt?
    ensures var x := ExecOne(s, store, answers, fuel);
            Whole(w, [Seg([s] + tail, outer)] + more, store, answers, fuel) ==
            if x.Fall? then Whole(w, [Seg(tail, outer)] + more, x.store, x.rest, fuel) else x
  {
    var segs := [Seg([s] + tail, outer)] + more;
    assert segs[0].stmts == [s] + tail && segs[1..] == more;
    assert ([s] + tail)[0] == s && ([s] + tail)[1..] == tail;
    assert ([Seg(tail, outer)] + more)[1..] == more;
  }

  /** A block as the first segment. */
  lemma {:induction false} SegsBlock(w: World, branch: seq<Stmt>, rest: seq<Seg>, store: Store, answers: seq<Answer>,
                                     fuel: nat)
    requires w.loop.WhileStmt?
    ensures var x := ExecBlock(branch, store, answers, fuel);
            SameExit(Whole(w, [Seg(branch, store.Keys)] + rest, store, answers, fuel),
                     if x.Fall? then Whole(w, rest, x.store, x.rest, fuel) else x)
  {
    var segs := [Seg(branch, store.Keys)] + rest;
    assert segs[0] == Seg(branch, store.Keys) && segs[1..] == rest;
    var e := Exec(branch, store, answers, fuel);
    if e.Fall? {
      assert ExecSegs(segs, store, answers, fuel) == ExecSegs(rest, Leave(e.store, store.Keys), e.rest, fuel);
    } else {
      assert ExecSegs(segs, store, answers, fuel) == e;
    }
  }

  /** A block that never falls through, alone. */
  lemma {:induction false} SegsTerminating(w: World, branch: seq<Stmt>, outer: set<string>, rest: seq<Seg>,
                                           store: Store,
                        answers: seq<Answer>, fuel: nat)
    requires w.loop.WhileStmt? && SomeTerminates(branch)
    ensures var x := ExecBlock(branch, store, answers, fuel);
            !x.Fall? && SameExit(Whole(w, [Seg(branch, outer)], store, answers, fuel), x)
  {
    TerminatingListNeverFalls(branch, store, answers, fuel);
    var segs := [Seg(branch, outer)];
    assert ExecSegs(segs, store, answers, fuel) == Exec(branch, store, answers, fuel);
  }

  // ----- single steps of both semantics -----

  lemma {:induction false} HoldsBasics(w: World, mut: set<string>, scopes: Scopes, store: Store, env: Env)
    requires Holds(w, mut, scopes, store, env)
    ensures scopes != [] && mut <= store.Keys && w.entry.Keys <= store.Keys && Represents(env, scopes, store)
    ensures forall x :: x in mut && x in w.entry ==> IsLetBinding(x, w.base)
  {
  }

  lemma {:induction false} LetOutcome(name: string, value: Node, body: Node, env: Env, answers: seq<Answer>, fuel: nat)
    ensures var o := Eval(value, env, answers, fuel);
            Eval(Let(name, value, body), env, answers, fuel) ==
            if o.Done? then Eval(body, Extend(env, name, o.value), o.rest, fuel) else o
  {
  }

  lemma {:induction false} IfOutcome(c: Node, t: Node, f: Node, env: Env, answers: seq<Answer>, fuel: nat)
    ensures var o := Eval(c, env, answers, fuel);
            Eval(If(c, t, Some(f)), env, answers, fuel) ==
            if o.Done? then Eval(if Truthy(o.value) then t else f, env, o.rest, fuel) else o
  {
  }

  lemma {:induction false} AbruptAgrees(w: World, o: Out, store: Store)
    requires !o.Done?
    ensures Agrees(w, o, Abrupt(o, store))
  {
  }

  lemma {:induction false} ThrowAgrees(w: World, m: Node, scopes: Scopes, store: Store, env: Env,
                                       answers: seq<Answer>, fuel: nat)
    requires Plain(m, store.Keys) && Represents(env, scopes, store)
    ensures Agrees(w, Eval(Throw(EmitExpr(m, scopes)), env, answers, fuel),
                   ExecOne(ThrowStmt(m), store, answers, fuel))
  {
    hide Eval, ExecOne, EmitExpr, Represents, Plain;
    RenamedSame(m, scopes, store, env, answers, fuel);
    ThrowOutcome(EmitExpr(m, scopes), env, answers, fuel);
    ExecThrow(m, store, answers, fuel);
  }

  lemma {:induction false} ThrowOutcome(m: Node, env: Env, answers: seq<Answer>, fuel: nat)
    ensures var o := Eval(m, env, answers, fuel);
            Eval(Throw(m), env, answers, fuel) == if o.Done? then Raised(ThrownError(o.value), o.rest) else o
  {
  }

  lemma {:induction false} ExecThrow(m: Node, store: Store, answers: seq<Answer>, fuel: nat)
    ensures var o := Read(m, store, answers, fuel);
            ExecOne(ThrowStmt(m), store, answers, fuel) ==
            if o.Done? then Thrown(ThrownError(o.value), store, o.rest) else Abrupt(o, store)
  {
    hide Eval;
  }

  lemma {:induction false} ExecSimple(s: Stmt, store: Store, answers: seq<Answer>, fuel: nat)
    requires s.Assign? || s.ExprStmt?
    ensures var o := Read(if s.Assign? then s.value else s.expr, store, answers, fuel);
            ExecOne(s, store, answers, fuel) ==
            if o.Done? then Fall(if s.Assign? then store[s.name := o.value] else store, o.rest)
            else Abrupt(o, store)
  {
  }

  lemma {:induction false} ExecIf(s: Stmt, store: Store, answers: seq<Answer>, fuel: nat)
    requires s.IfStmt?
    ensures var o := Read(s.cond, store, answers, fuel);
            ExecOne(s, store, answers, fuel) ==
            if !o.Done? then Abrupt(o, store)
            else if Truthy(o.value) then ExecBlock(s.then_, store, o.rest, fuel)
            else if s.else_.Present? then ExecBlock(s.else_.stmts, store, o.rest, fuel)
            else Fall(store, o.rest)
  {
  }

  // ----- what each statement compiles to -----

  lemma {:induction false} EmitReturnShape(result: Option<Node>, rest: seq<Stmt>, shape: LoopShape, scopes: Scopes,
                                           counter: Counter,
                        lastBound: Option<string>)
    requires scopes != [] && shape.pack
    ensures var e := EmitLoop([Return(result)] + rest, shape, scopes, counter, lastBound);
            e == Emitted(Construct(PackedFields(
                   Some("return"), if result.Some? then EmitExpr(result.value, scopes) else Null,
                   shape.carried, CarriedRefs(shape.carried, scopes))), counter)
  {
    var stmts := [Return(result)] + rest;
    assert stmts[0] == Return(result);
  }

  lemma {:induction false} EmitLetShape(s: Stmt, rest: seq<Stmt>, shape: LoopShape, scopes: Scopes, counter: Counter,
                     lastBound: Option<string>)
    requires scopes != [] && (s.Assign? || s.ExprStmt?)
    requires EmitLoop([s] + rest, shape, scopes, counter, lastBound).Emitted?
    ensures s.Assign? ==> IsLetBinding(s.name, scopes)
    ensures var scopes' := if s.Assign? then BumpVersion(s.name, scopes) else scopes;
            var counter' := if s.Assign? then counter else Advance(counter, "discard");
            var name := if s.Assign? then ResolveRef(s.name, scopes') else NextName(counter, "discard");
            var r := EmitLoop(rest, shape, scopes', counter', Some(name));
            && r.Emitted?
            && EmitLoop([s] + rest, shape, scopes, counter, lastBound).code
               == Let(name, EmitExpr(if s.Assign? then s.value else s.expr, scopes), r.code)
  {
    var stmts := [s] + rest;
    assert stmts[0] == s && stmts[1..] == rest;
  }

  lemma {:induction false} EmitVarShape(s: Stmt, rest: seq<Stmt>, shape: LoopShape, scopes: Scopes, counter: Counter,
                     lastBound: Option<string>)
    requires scopes != [] && s.VarStmt? && EmitLoop([s] + rest, shape, scopes, counter, lastBound).Emitted?
    ensures s.decls != []
    ensures EmitLoop([s] + rest, shape, scopes, counter, lastBound)
         == EmitDecls(s.isLet, s.decls, rest, shape, scopes, counter)
  {
    var stmts := [s] + rest;
    assert stmts[0] == s && stmts[1..] == rest;
  }

  /** What follows the first declaration of a list. */
  function DeclRest(isLet: bool, decls: seq<Decl>, rest: seq<Stmt>, shape: LoopShape, scopes: Scopes,
                    counter: Counter): Emitted
    requires scopes != [] && decls != []
  {
    var x := decls[0].name;
    var scopes' := DeclareBinding(x, isLet, scopes);
    if |decls| == 1 then EmitLoop(rest, shape, scopes', counter, Some(if isLet then Versioned(x, 0) else x))
    else EmitDecls(isLet, decls[1..], rest, shape, scopes', counter)
  }

  lemma {:induction false} EmitDeclShape(isLet: bool, decls: seq<Decl>, rest: seq<Stmt>, shape: LoopShape,
                                         scopes: Scopes,
                      counter: Counter)
    requires scopes != [] && decls != [] && EmitDecls(isLet, decls, rest, shape, scopes, counter).Emitted?
    ensures var x := decls[0].name;
            var r := DeclRest(isLet, decls, rest, shape, scopes, counter);
            && !Reserved(x) && r.Emitted?
            && EmitDecls(isLet, decls, rest, shape, scopes, counter).code
               == Let(if isLet then Versioned(x, 0) else x, EmitExpr(decls[0].init, scopes), r.code)
  {
  }

  lemma {:induction false} DeclareStep(decls: seq<Decl>, store: Store, answers: seq<Answer>, fuel: nat)
    requires decls != []
    ensures var o := Read(decls[0].init, store, answers, fuel);
            Declare(decls, store, answers, fuel) ==
            if o.Done? then Declare(decls[1..], store[decls[0].name := o.value], o.rest, fuel) else Abrupt(o, store)
  {
  }

  lemma {:induction false} EmitIfShape(s: Stmt, rest: seq<Stmt>, shape: LoopShape, scopes: Scopes, counter: Counter,
                    lastBound: Option<string>)
    requires scopes != [] && s.IfStmt? && EmitLoop([s] + rest, shape, scopes, counter, lastBound).Emitted?
    ensures var t := EmitLoop(BranchStmts(s.then_, rest), shape, scopes, counter, None);
            && t.Emitted?
            && var f := EmitLoop(if s.else_.Present? then BranchStmts(s.else_.stmts, rest) else rest,
                                 shape, scopes, t.counter, None);
            && f.Emitted?
            && EmitLoop([s] + rest, shape, scopes, counter, lastBound).code
               == If(EmitExpr(s.cond, scopes), t.code, Some(f.code))
  {
    var stmts := [s] + rest;
    assert stmts[0] == s && stmts[1..] == rest;
  }

  lemma {:induction false} EmitThrowShape(m: Node, rest: seq<Stmt>, shape: LoopShape, scopes: Scopes, counter: Counter,
                       lastBound: Option<string>)
    requires scopes != []
    ensures EmitLoop([ThrowStmt(m)] + rest, shape, scopes, counter, lastBound)
         == Emitted(Throw(EmitExpr(m, scopes)), counter)
  {
    var stmts := [ThrowStmt(m)] + rest;
    assert stmts[0] == ThrowStmt(m);
  }

  lemma {:induction false} NotEmitted(s: Stmt, rest: seq<Stmt>, shape: LoopShape, scopes: Scopes, counter: Counter,
                   lastBound: Option<string>)
    requires scopes != [] && (s.WhileStmt? || s.Block? || s.TryStmt?)
    ensures EmitLoop([s] + rest, shape, scopes, counter, lastBound).Rejected?
  {
    assert ([s] + rest)[0] == s;
  }

  lemma {:induction false} RefOutcome(name: string, env: Env, answers: seq<Answer>, fuel: nat)
    requires Lookup(name, env).Some?
    ensures Eval(Ref(name), env, answers, fuel) == Done(Lookup(name, env).value, answers)
  {
  }

  lemma {:induction false} CallOutcome(fn: Node, args: seq<Node>, env: Env, f: Node, answers: seq<Answer>,
                                       values: seq<Node>, fuel: nat)
    requires Eval(fn, env, answers, fuel) == Done(f, answers) && f.Fn? && |f.params| == |values|
    requires EvalList(ArrayOf, [], args, env, answers, fuel) == Done(Arr(values), answers)
    ensures Eval(Call(fn, args), env, answers, fuel) ==
            if fuel == 0 then OutOfFuel
            else Eval(f.body, ExtendMulti(env, f.params, values), answers, fuel - 1)
  {
  }

  /** A call of a function found under `name` with settled arguments. */
  lemma {:induction false} CallSettled(name: string, f: Node, args: seq<Node>, values: seq<Node>, env: Env,
                                       answers: seq<Answer>, fuel: nat)
    requires Lookup(name, env) == Some(f) && f.Fn? && |f.params| == |values| == |args|
    requires forall i :: 0 <= i < |args| ==> Settled(args[i], env) == Some(values[i])
    ensures Eval(Call(Ref(name), args), env, answers, fuel) ==
            if fuel == 0 then OutOfFuel
            else Eval(f.body, ExtendMulti(env, f.params, values), answers, fuel - 1)
  {
    hide Eval, EvalList;
    RefOutcome(name, env, answers, fuel);
    SettledList([], args, values, env, answers, fuel);
    assert [] + values == values;
    CallOutcome(Ref(name), args, env, f, answers, values, fuel);
  }

  // ----- packed constructs -----

  lemma {:induction false} PackedFieldsAt(tag: Option<string>, value: Node, carried: seq<string>, refs: seq<Node>)
    requires |refs| == |carried| && Distinct(carried)
    requires forall i :: 0 <= i < |carried| ==> !Reserved(carried[i])
    ensures var m := PackedFields(tag, value, carried, refs);
            && "__value" in m && m["__value"] == value
            && ("__tag" in m <==> tag.Some?) && (tag.Some? ==> m["__tag"] == Str(tag.value))
            && (forall i :: 0 <= i < |carried| ==> carried[i] in m && m[carried[i]] == refs[i])
            && (forall k :: k in m ==> k == "__value" || k == "__tag" || k in carried)
  {
    CarriedFieldsAt(carried, refs);
    assert Reserved("__value") && Reserved("__tag");
  }

  lemma {:induction false} CarriedNotReserved(w: World)
    requires CarriedLets(w) && Named(w, w.base, w.entry)
    ensures Distinct(w.shape.carried)
    ensures forall i :: 0 <= i < |w.shape.carried| ==>
              w.shape.carried[i] in w.shape.carried && !Reserved(w.shape.carried[i])
  {
  }

  /** A packed construct whose carried references are bound: its value is the packed object. */
  lemma {:induction false} PackedConstruct(w: World, tag: Option<string>, value: Node, refs: seq<Node>, env: Env,
                        answers: seq<Answer>, fuel: nat)
    requires CarriedLets(w) && Named(w, w.base, w.entry) && |refs| == |w.shape.carried|
    requires forall i :: 0 <= i < |refs| ==> Settled(refs[i], env).Some?
    ensures var o := Eval(Construct(PackedFields(tag, value, w.shape.carried, refs)), env, answers, fuel);
            var b := Eval(value, env, answers, fuel);
            if !b.Done? then o == b
            else
              && o.Done? && o.rest == b.rest && o.value.Obj?
              && "__value" in o.value.fields && o.value.fields["__value"] == b.value
              && (tag.Some? ==> "__tag" in o.value.fields && o.value.fields["__tag"] == Str(tag.value))
              && (forall i :: 0 <= i < |refs| ==>
                    w.shape.carried[i] in o.value.fields &&
                    Some(o.value.fields[w.shape.carried[i]]) == Settled(refs[i], env))
  {
    hide Eval, EvalFields, CarriedLets;
    var carried := w.shape.carried;
    var c := Construct(PackedFields(tag, value, carried, refs));
    CarriedNotReserved(w);
    PackedFieldsAt(tag, value, carried, refs);
    forall k | k in c.entries && k != "__value" ensures Settled(c.entries[k], env).Some? {
      if k == "__tag" {
      } else {
        var i :| 0 <= i < |carried| && carried[i] == k;
        assert c.entries[carried[i]] == refs[i];
      }
    }
    MostlySettledConstruct(c, "__value", env, answers, fuel);
    assert Reserved("__value");
  }

  // ----- leaving the loop -----

  /** A return packs its value. */
  lemma {:induction false} SimReturn(w: World, result: Option<Node>, mut: set<string>, scopes: Scopes, store: Store,
                                     env: Env,
                  answers: seq<Answer>, fuel: nat)
    requires GoodWorld(w) && Holds(w, mut, scopes, store, env) && w.shape.pack
    requires result.Some? ==> Plain(result.value, store.Keys)
    ensures var value := if result.Some? then EmitExpr(result.value, scopes) else Null;
            var refs := CarriedRefs(w.shape.carried, scopes);
            Agrees(w, Eval(Construct(PackedFields(Some("return"), value, w.shape.carried, refs)), env, answers, fuel),
                   ExecOne(Return(result), store, answers, fuel))
  {
    hide GoodWorld, EmitExpr, PackedFields;
    WorldBasics(w);
    var value := if result.Some? then EmitExpr(result.value, scopes) else Null;
    var refs := CarriedRefs(w.shape.carried, scopes);
    WorldCarriedLets(w);
    forall i | 0 <= i < |refs| ensures Settled(refs[i], env).Some? {
      assert w.shape.carried[i] in w.shape.carried;
    }
    PackedConstruct(w, Some("return"), value, refs, env, answers, fuel);
    if result.Some? {
      RenamedSame(result.value, scopes, store, env, answers, fuel);
    }
  }

  /** The carried parameters hold the current values of the carried variables. */
  lemma {:induction false} ParamsShown(w: World, mut: set<string>, store: Store, env: Env)
    requires GoodWorld(w) && Holds(w, mut, w.base, store, env)
    ensures forall v :: v in w.shape.carried ==>
              Lookup(ResolveRef(v, w.base), env).Some? &&
              (v in store ==> Lookup(ResolveRef(v, w.base), env) == Some(store[v]))
    ensures forall x :: x in w.entry && x !in w.shape.carried ==> x in store && store[x] == w.entry[x]
  {
    hide GoodWorld, Named;
    WorldCarriedLets(w);
  }

  lemma {:induction false} ExitIs(shape: LoopShape, params: seq<string>, last: string, refs: seq<Node>)
    requires |params| == |shape.carried| == |refs| && forall i :: 0 <= i < |refs| ==> refs[i] == Ref(params[i])
    ensures ExitCode(shape, params, last) ==
            Construct(PackedFields(if shape.pack then Some("exit") else None, Ref(last), shape.carried, refs))
  {
    hide PackedFields;
    assert refs == seq(|params|, i requires 0 <= i < |params| => Ref(params[i]));
  }

  /** The condition is false: the parameters are packed as they are. */
  lemma {:induction false} SimExit(w: World, mut: set<string>, store: Store, env: Env, answers: seq<Answer>, fuel: nat)
    requires GoodWorld(w) && Holds(w, mut, w.base, store, env) && store.Keys == w.entry.Keys
    requires w.shape.last.Some? && Lookup(w.shape.last.value, env).Some?
    ensures Agrees(w, Eval(ExitCode(w.shape, ParamNames(w.shape.carried, w.base), w.shape.last.value),
                           env, answers, fuel), Fall(store, answers))
  {
    hide GoodWorld, Holds, CarriedLets, PackedFields, Eval, EvalFields, Lookup, ExitCode, Named, CarriedShown,
      Settled, ResolveRef;
    WorldBasics(w);
    WorldCarriedLets(w);
    ParamsShown(w, mut, store, env);
    RefOutcome(w.shape.last.value, env, answers, fuel);
    var carried := w.shape.carried;
    var params := ParamNames(carried, w.base);
    var refs := RefsOf(params);
    RefsSettled(w, params, env);
    var tag := if w.shape.pack then Some("exit") else None;
    PackedConstruct(w, tag, Ref(w.shape.last.value), refs, env, answers, fuel);
    ExitIs(w.shape, params, w.shape.last.value, refs);
    PackShows(w, Eval(ExitCode(w.shape, params, w.shape.last.value), env, answers, fuel).value, refs, store, env);
  }

  function RefsOf(names: seq<string>): (r: seq<Node>)
    ensures |r| == |names| && forall i :: 0 <= i < |names| ==> r[i] == Ref(names[i])
  {
    seq(|names|, i requires 0 <= i < |names| => Ref(names[i]))
  }

  lemma {:induction false} RefsSettled(w: World, params: seq<string>, env: Env)
    requires params == ParamNames(w.shape.carried, w.base)
    requires forall v :: v in w.shape.carried ==> Lookup(ResolveRef(v, w.base), env).Some?
    ensures forall i :: 0 <= i < |params| ==>
              Settled(RefsOf(params)[i], env) == Lookup(ResolveRef(w.shape.carried[i], w.base), env) &&
              Settled(RefsOf(params)[i], env).Some?
  {
    hide Lookup, ResolveRef;
    forall i | 0 <= i < |params|
      ensures Settled(RefsOf(params)[i], env) == Lookup(ResolveRef(w.shape.carried[i], w.base), env)
      ensures Settled(RefsOf(params)[i], env).Some?
    {
      assert w.shape.carried[i] in w.shape.carried;
    }
  }

  /** A packed object of references shows the variables they hold. */
  lemma {:induction false} PackShows(w: World, packed: Node, refs: seq<Node>, store: Store, env: Env)
    requires packed.Obj? && |refs| == |w.shape.carried|
    requires forall i :: 0 <= i < |refs| ==>
               w.shape.carried[i] in packed.fields && Some(packed.fields[w.shape.carried[i]]) == Settled(refs[i], env)
    requires forall i :: 0 <= i < |refs| ==>
               Settled(refs[i], env) == Lookup(ResolveRef(w.shape.carried[i], w.base), env)
    requires forall v :: v in w.shape.carried && v in store ==> Lookup(ResolveRef(v, w.base), env) == Some(store[v])
    ensures CarriedShown(w, packed.fields, store)
  {
    hide Lookup, ResolveRef, Settled;
    forall v | v in w.shape.carried
      ensures v in packed.fields && (v in store ==> packed.fields[v] == store[v])
    {
      var i :| 0 <= i < |refs| && w.shape.carried[i] == v;
      assert Some(packed.fields[w.shape.carried[i]]) == Settled(refs[i], env);
    }
  }

  // ----- the loop body -----

  lemma {:induction false} SegsEmpty(w: World, segs: seq<Seg>, store: Store, answers: seq<Answer>, fuel: nat)
    requires w.loop.WhileStmt? && segs != [] && segs[0].stmts == []
    ensures Whole(w, segs, store, answers, fuel)
         == Whole(w, segs[1..], Leave(store, segs[0].outer), answers, fuel)
  {
  }

  /** The first statement of the first segment, and what remains. */
  lemma {:induction false} SegsSplit(w: World, segs: seq<Seg>, vis: set<string>,
                                     mut: set<string>) returns (rest: seq<Seg>)
    requires w.loop.WhileStmt? && SegsOk(w, segs, vis, mut) && segs != [] && segs[0].stmts != []
    ensures var s := segs[0].stmts[0];
            && rest != [] && StepOk(w, s, rest, vis, mut)
            && segs == [Seg([s] + rest[0].stmts, rest[0].outer)] + rest[1..]
            && Flat(segs) == [s] + Flat(rest)
            && StmtsSize(Flat(segs)) == StmtSize(s) + StmtsSize(Flat(rest))
  {
    var s, tail, outer, more := segs[0].stmts[0], segs[0].stmts[1..], segs[0].outer, segs[1..];
    rest := [Seg(tail, outer)] + more;
    assert segs[0].stmts == [s] + tail;
    assert segs == [segs[0]] + segs[1..];
    assert segs[0] == Seg([s] + tail, outer);
    assert rest[1..] == more;
    assert Flat(rest) == tail + Flat(more);
    assert Flat(segs) == [s] + Flat(rest);
    assert Flat(segs)[1..] == Flat(rest) && Flat(segs)[0] == s;
  }

  lemma {:induction false} SimBody(w: World, segs: seq<Seg>, scopes: Scopes, counter: Counter,
                                   lastBound: Option<string>,
                                   mut: set<string>, store: Store, env: Env, answers: seq<Answer>, fuel: nat)
    requires GoodWorld(w) && Holds(w, mut, scopes, store, env) && SegsOk(w, segs, store.Keys, mut)
    requires lastBound.Some? ==> Lookup(lastBound.value, env).Some?
    requires EmitLoop(Flat(segs), w.shape, scopes, counter, lastBound).Emitted?
    ensures Agrees(w, Eval(EmitLoop(Flat(segs), w.shape, scopes, counter, lastBound).code, env, answers, fuel),
                   Whole(w, segs, store, answers, fuel))
    decreases fuel, StmtsSize(Flat(segs)), |segs|, 2
  {
    hide GoodWorld, Holds, Eval, EmitLoop, Agrees, Exec, ExecOne, ExecWhile, SegOk, WellScoped;
    WorldBasics(w);
    HoldsBasics(w, mut, scopes, store, env);
    if segs == [] {
      SimEnd(w, scopes, counter, lastBound, mut, store, env, answers, fuel);
    } else if segs[0].stmts == [] {
      var outer := segs[0].outer;
      assert Flat(segs) == Flat(segs[1..]);
      HoldsLeave(w, mut, scopes, store, env, outer);
      assert Leave(store, outer).Keys == outer;
      SegsEmpty(w, segs, store, answers, fuel);
      SimBody(w, segs[1..], scopes, counter, lastBound, mut * outer, Leave(store, outer), env, answers, fuel);
    } else {
      var s := segs[0].stmts[0];
      var rest := SegsSplit(w, segs, store.Keys, mut);
      SegsStep(w, s, rest[0].stmts, rest[0].outer, rest[1..], store, answers, fuel);
      assert rest == [Seg(rest[0].stmts, rest[0].outer)] + rest[1..];
      SimStmt(w, s, rest, scopes, counter, lastBound, mut, store, env, answers, fuel);
    }
  }

  /** The outcome of `s` followed by the segments `rest`. */
  ghost function StepThen(w: World, s: Stmt, rest: seq<Seg>, store: Store, answers: seq<Answer>, fuel: nat): Exit
    requires w.loop.WhileStmt?
  {
    var x := ExecOne(s, store, answers, fuel);
    if x.Fall? then Whole(w, rest, x.store, x.rest, fuel) else x
  }

  /** `rest` holds what remains of the segment of `s`, and `s` may run in this scope. */
  ghost predicate StepOk(w: World, s: Stmt, rest: seq<Seg>, vis: set<string>, mut: set<string>)
    requires w.loop.WhileStmt?
  {
    rest != [] && SegOk(w, [s] + rest[0].stmts, vis, mut) &&
    w.entry.Keys <= rest[0].outer <= vis && SegsOk(w, rest[1..], rest[0].outer, mut * rest[0].outer)
  }

  lemma {:induction false} StepParts(w: World, s: Stmt, rest: seq<Seg>, vis: set<string>, mut: set<string>)
    requires w.loop.WhileStmt? && StepOk(w, s, rest, vis, mut)
    ensures s.Return? ==> w.shape.pack && (s.result.Some? ==> Plain(s.result.value, vis))
    ensures s.Assign? ==> s.name in mut && s.name in Targets(w) && Plain(s.value, vis)
    ensures s.ExprStmt? ==> Plain(s.expr, vis)
    ensures s.ThrowStmt? ==> Plain(s.message, vis)
    ensures s.IfStmt? ==>
              Plain(s.cond, vis) && SegOk(w, s.then_, vis, mut) &&
              (s.else_.Present? ==> SegOk(w, s.else_.stmts, vis, mut))
    ensures s.VarStmt? ==>
              && DeclsScoped(s.decls, vis)
              && DeclNames(s.decls) <= (if s.isLet then w.lets else w.consts)
              && SegOk(w, rest[0].stmts, vis + DeclNames(s.decls), if s.isLet then mut + DeclNames(s.decls) else mut)
    ensures !s.VarStmt? ==> SegsOk(w, rest, vis, mut)
    ensures rest != [] && w.entry.Keys <= rest[0].outer <= vis
    ensures SegsOk(w, rest[1..], rest[0].outer, mut * rest[0].outer)
  {
    var stmts := [s] + rest[0].stmts;
    assert stmts[0] == s && stmts[1..] == rest[0].stmts;
    assert ContainsReturnOne(s) || ContainsReturn(rest[0].stmts) ==> ContainsReturn(stmts);
  }

  lemma {:induction false} SimStmt(w: World, s: Stmt, rest: seq<Seg>, scopes: Scopes, counter: Counter,
                                   lastBound: Option<string>, mut: set<string>, store: Store, env: Env,
                                   answers: seq<Answer>, fuel: nat)
    requires GoodWorld(w) && Holds(w, mut, scopes, store, env) && StepOk(w, s, rest, store.Keys, mut)
    requires EmitLoop([s] + Flat(rest), w.shape, scopes, counter, lastBound).Emitted?
    ensures Agrees(w, Eval(EmitLoop([s] + Flat(rest), w.shape, scopes, counter, lastBound).code, env, answers, fuel),
                   StepThen(w, s, rest, store, answers, fuel))
    decreases fuel, StmtSize(s) + StmtsSize(Flat(rest)), 0, 1
  {
    hide GoodWorld, Holds, Eval, EmitLoop, Agrees, Exec, SegOk, SegsOk, StepOk;
    WorldBasics(w);
    HoldsBasics(w, mut, scopes, store, env);
    StepParts(w, s, rest, store.Keys, mut);
    match s
    case Return(result) =>
      EmitReturnShape(result, Flat(rest), w.shape, scopes, counter, lastBound);
      SimReturn(w, result, mut, scopes, store, env, answers, fuel);
    case VarStmt(isLet, decls) =>
      EmitVarShape(s, Flat(rest), w.shape, scopes, counter, lastBound);
      SimDecls(w, isLet, decls, rest, scopes, counter, mut, store, env, answers, fuel);
    case Assign(_, _) => SimAssign(w, s, rest, scopes, counter, lastBound, mut, store, env, answers, fuel);
    case ExprStmt(_) => SimExpr(w, s, rest, scopes, counter, lastBound, mut, store, env, answers, fuel);
    case IfStmt(_, _, _) => SimIf(w, s, rest, scopes, counter, lastBound, mut, store, env, answers, fuel);
    case ThrowStmt(m) =>
      EmitThrowShape(m, Flat(rest), w.shape, scopes, counter, lastBound);
      ThrowAgrees(w, m, scopes, store, env, answers, fuel);
    case _ => NotEmitted(s, Flat(rest), w.shape, scopes, counter, lastBound);
  }

  lemma {:induction false} SimAssign(w: World, s: Stmt, rest: seq<Seg>, scopes: Scopes, counter: Counter,
                                     lastBound: Option<string>, mut: set<string>, store: Store, env: Env,
                                     answers: seq<Answer>, fuel: nat)
    requires GoodWorld(w) && Holds(w, mut, scopes, store, env) && StepOk(w, s, rest, store.Keys, mut)
    requires s.Assign? && EmitLoop([s] + Flat(rest), w.shape, scopes, counter, lastBound).Emitted?
    ensures Agrees(w, Eval(EmitLoop([s] + Flat(rest), w.shape, scopes, counter, lastBound).code, env, answers, fuel),
                   StepThen(w, s, rest, store, answers, fuel))
    decreases fuel, StmtSize(s) + StmtsSize(Flat(rest)), 0, 0
  {
    hide GoodWorld, Holds, Eval, EmitLoop, Agrees, ExecOne, Exec, SegOk, SegsOk, StepOk;
    WorldBasics(w);
    HoldsBasics(w, mut, scopes, store, env);
    StepParts(w, s, rest, store.Keys, mut);
    EmitLetShape(s, Flat(rest), w.shape, scopes, counter, lastBound);
    var x, scopes' := s.name, BumpVersion(s.name, scopes);
    var name := ResolveRef(x, scopes');
    RenamedSame(s.value, scopes, store, env, answers, fuel);
    var o := Read(s.value, store, answers, fuel);
    ExecSimple(s, store, answers, fuel);
    LetOutcome(name, EmitExpr(s.value, scopes), EmitLoop(Flat(rest), w.shape, scopes', counter, Some(name)).code,
               env, answers, fuel);
    if o.Done? {
      WorldCarriedLets(w);
      HoldsAssign(w, mut, scopes, store, env, x, o.value);
      assert store[x := o.value].Keys == store.Keys;
      SimBody(w, rest, scopes', counter, Some(name), mut, store[x := o.value], Extend(env, name, o.value), o.rest,
              fuel);
    } else {
      AbruptAgrees(w, o, store);
    }
  }

  lemma {:induction false} SimExpr(w: World, s: Stmt, rest: seq<Seg>, scopes: Scopes, counter: Counter,
                                   lastBound: Option<string>, mut: set<string>, store: Store, env: Env,
                                   answers: seq<Answer>, fuel: nat)
    requires GoodWorld(w) && Holds(w, mut, scopes, store, env) && StepOk(w, s, rest, store.Keys, mut)
    requires s.ExprStmt? && EmitLoop([s] + Flat(rest), w.shape, scopes, counter, lastBound).Emitted?
    ensures Agrees(w, Eval(EmitLoop([s] + Flat(rest), w.shape, scopes, counter, lastBound).code, env, answers, fuel),
                   StepThen(w, s, rest, store, answers, fuel))
    decreases fuel, StmtSize(s) + StmtsSize(Flat(rest)), 0, 0
  {
    hide GoodWorld, Holds, Eval, EmitLoop, Agrees, ExecOne, Exec, SegOk, SegsOk, StepOk;
    WorldBasics(w);
    HoldsBasics(w, mut, scopes, store, env);
    StepParts(w, s, rest, store.Keys, mut);
    EmitLetShape(s, Flat(rest), w.shape, scopes, counter, lastBound);
    var name := NextName(counter, "discard");
    RenamedSame(s.expr, scopes, store, env, answers, fuel);
    var o := Read(s.expr, store, answers, fuel);
    ExecSimple(s, store, answers, fuel);
    LetOutcome(name, EmitExpr(s.expr, scopes),
               EmitLoop(Flat(rest), w.shape, scopes, Advance(counter, "discard"), Some(name)).code, env, answers, fuel);
    if o.Done? {
      CounterNamesSynthetic(Count(counter, "discard"));
      HoldsDiscard(w, mut, scopes, store, env, name, o.value);
      SimBody(w, rest, scopes, Advance(counter, "discard"), Some(name), mut, store,
              Extend(env, name, o.value), o.rest, fuel);
    } else {
      AbruptAgrees(w, o, store);
    }
  }

  /** The scope after one declaration of a list. */
  lemma {:induction false} DeclStep(w: World, isLet: bool, decls: seq<Decl>, rest: seq<Seg>, vis: set<string>,
                                    mut: set<string>)
    requires w.loop.WhileStmt? && decls != [] && rest != []
    requires mut <= vis && DeclsScoped(decls, vis)
    requires SegOk(w, rest[0].stmts, vis + DeclNames(decls), if isLet then mut + DeclNames(decls) else mut)
    requires w.entry.Keys <= rest[0].outer <= vis
    requires SegsOk(w, rest[1..], rest[0].outer, mut * rest[0].outer)
    ensures var vis', mut' := vis + {decls[0].name}, if isLet then mut + {decls[0].name} else mut;
            && decls[0].name !in vis
            && DeclsScoped(decls[1..], vis')
            && SegOk(w, rest[0].stmts, vis' + DeclNames(decls[1..]),
                     if isLet then mut' + DeclNames(decls[1..]) else mut')
            && mut' * rest[0].outer == mut * rest[0].outer
            && (|decls| == 1 ==> SegsOk(w, rest, vis', mut'))
  {
    var vis', mut' := vis + {decls[0].name}, if isLet then mut + {decls[0].name} else mut;
    assert vis' + DeclNames(decls[1..]) == vis + DeclNames(decls);
    if isLet {
      assert mut' + DeclNames(decls[1..]) == mut + DeclNames(decls);
    }
    assert mut' * rest[0].outer == mut * rest[0].outer;
    if |decls| == 1 {
      assert DeclNames(decls[1..]) == {};
      assert vis' == vis + DeclNames(decls);
      assert mut' == if isLet then mut + DeclNames(decls) else mut;
    }
  }

  lemma {:induction false} SimDecls(w: World, isLet: bool, decls: seq<Decl>, rest: seq<Seg>, scopes: Scopes,
                                    counter: Counter, mut: set<string>, store: Store, env: Env,
                                    answers: seq<Answer>, fuel: nat)
    requires GoodWorld(w) && Holds(w, mut, scopes, store, env) && decls != []
    requires DeclsScoped(decls, store.Keys) && DeclNames(decls) <= (if isLet then w.lets else w.consts)
    requires rest != [] && SegOk(w, rest[0].stmts, store.Keys + DeclNames(decls),
                                 if isLet then mut + DeclNames(decls) else mut)
    requires w.entry.Keys <= rest[0].outer <= store.Keys
    requires SegsOk(w, rest[1..], rest[0].outer, mut * rest[0].outer)
    requires EmitDecls(isLet, decls, Flat(rest), w.shape, scopes, counter).Emitted?
    ensures var x := Declare(decls, store, answers, fuel);
            Agrees(w, Eval(EmitDecls(isLet, decls, Flat(rest), w.shape, scopes, counter).code, env, answers, fuel),
                   if x.Fall? then Whole(w, rest, x.store, x.rest, fuel) else x)
    decreases fuel, StmtsSize(Flat(rest)) + |decls|, 0, 0
  {
    hide GoodWorld, Holds, Eval, EmitLoop, EmitDecls, Agrees, SegOk, SegsOk;
    WorldBasics(w);
    HoldsBasics(w, mut, scopes, store, env);
    var x := decls[0].name;
    var scopes' := DeclareBinding(x, isLet, scopes);
    var name := if isLet then Versioned(x, 0) else x;
    var mut' := if isLet then mut + {x} else mut;
    DeclStep(w, isLet, decls, rest, store.Keys, mut);
    RenamedSame(decls[0].init, scopes, store, env, answers, fuel);
    var o := Read(decls[0].init, store, answers, fuel);
    EmitDeclShape(isLet, decls, Flat(rest), w.shape, scopes, counter);
    DeclareStep(decls, store, answers, fuel);
    LetOutcome(name, EmitExpr(decls[0].init, scopes),
               DeclRest(isLet, decls, Flat(rest), w.shape, scopes, counter).code, env, answers, fuel);
    if o.Done? {
      HoldsDeclare(w, mut, scopes, store, env, x, isLet, o.value);
      var store', env' := store[x := o.value], Extend(env, name, o.value);
      assert store'.Keys == store.Keys + {x};
      if |decls| == 1 {
        assert decls[1..] == [];
        SimBody(w, rest, scopes', counter, Some(name), mut', store', env', o.rest, fuel);
      } else {
        SimDecls(w, isLet, decls[1..], rest, scopes', counter, mut', store', env', o.rest, fuel);
      }
    } else {
      AbruptAgrees(w, o, store);
    }
  }

  /** One branch of an `if`: its block, then what follows, inlined unless unreachable. */
  lemma {:induction false} SimBranch(w: World, branch: seq<Stmt>, rest: seq<Seg>, scopes: Scopes, counter: Counter,
                                     mut: set<string>, store: Store, env: Env, answers: seq<Answer>, fuel: nat)
    requires GoodWorld(w) && Holds(w, mut, scopes, store, env)
    requires SegOk(w, branch, store.Keys, mut) && SegsOk(w, rest, store.Keys, mut)
    requires EmitLoop(BranchStmts(branch, Flat(rest)), w.shape, scopes, counter, None).Emitted?
    ensures var x := ExecBlock(branch, store, answers, fuel);
            Agrees(w, Eval(EmitLoop(BranchStmts(branch, Flat(rest)), w.shape, scopes, counter, None).code, env,
                           answers, fuel),
                   if x.Fall? then Whole(w, rest, x.store, x.rest, fuel) else x)
    decreases fuel, StmtsSize(branch) + StmtsSize(Flat(rest)), |rest| + 1, 3
  {
    var code := EmitLoop(BranchStmts(branch, Flat(rest)), w.shape, scopes, counter, None).code;
    var x := ExecBlock(branch, store, answers, fuel);
    if SomeTerminates(branch) {
      var segs := [Seg(branch, w.entry.Keys)];
      assert Flat(segs) == branch;
      assert segs[1..] == [];
      SimBody(w, segs, scopes, counter, None, mut, store, env, answers, fuel);
      SegsTerminating(w, branch, w.entry.Keys, rest, store, answers, fuel);
      AgreesSame(w, Eval(code, env, answers, fuel), Whole(w, segs, store, answers, fuel), x);
    } else {
      var segs := [Seg(branch, store.Keys)] + rest;
      assert segs[0] == Seg(branch, store.Keys) && segs[1..] == rest;
      assert Flat(segs) == branch + Flat(rest);
      SizeAppend(branch, Flat(rest));
      assert mut * store.Keys == mut;
      SimBody(w, segs, scopes, counter, None, mut, store, env, answers, fuel);
      SegsBlock(w, branch, rest, store, answers, fuel);
      AgreesSame(w, Eval(code, env, answers, fuel), Whole(w, segs, store, answers, fuel),
                 if x.Fall? then Whole(w, rest, x.store, x.rest, fuel) else x);
    }
  }

  lemma {:induction false} SimIf(w: World, s: Stmt, rest: seq<Seg>, scopes: Scopes, counter: Counter,
                                 lastBound: Option<string>, mut: set<string>, store: Store, env: Env,
                                 answers: seq<Answer>, fuel: nat)
    requires GoodWorld(w) && Holds(w, mut, scopes, store, env) && StepOk(w, s, rest, store.Keys, mut)
    requires s.IfStmt? && EmitLoop([s] + Flat(rest), w.shape, scopes, counter, lastBound).Emitted?
    ensures Agrees(w, Eval(EmitLoop([s] + Flat(rest), w.shape, scopes, counter, lastBound).code, env, answers, fuel),
                   StepThen(w, s, rest, store, answers, fuel))
    decreases fuel, StmtSize(s) + StmtsSize(Flat(rest)), 0, 0
  {
    hide GoodWorld, Holds, Eval, EmitLoop, Agrees, ExecOne, Exec, SegOk, SegsOk, StepOk;
    WorldBasics(w);
    HoldsBasics(w, mut, scopes, store, env);
    StepParts(w, s, rest, store.Keys, mut);
    EmitIfShape(s, Flat(rest), w.shape, scopes, counter, lastBound);
    RenamedSame(s.cond, scopes, store, env, answers, fuel);
    var o := Read(s.cond, store, answers, fuel);
    ExecIf(s, store, answers, fuel);
    var counter' := EmitLoop(BranchStmts(s.then_, Flat(rest)), w.shape, scopes, counter, None).counter;
    IfOutcome(EmitExpr(s.cond, scopes), EmitLoop(BranchStmts(s.then_, Flat(rest)), w.shape, scopes, counter, None).code,
              EmitLoop(if s.else_.Present? then BranchStmts(s.else_.stmts, Flat(rest)) else Flat(rest),
                       w.shape, scopes, counter', None).code, env, answers, fuel);
    if o.Done? {
      if Truthy(o.value) {
        SimBranch(w, s.then_, rest, scopes, counter, mut, store, env, o.rest, fuel);
      } else {
        if s.else_.Present? {
          SimBranch(w, s.else_.stmts, rest, scopes, counter', mut, store, env, o.rest, fuel);
        } else {
          SimBody(w, rest, scopes, counter', None, mut, store, env, o.rest, fuel);
        }
      }
    } else {
      AbruptAgrees(w, o, store);
    }
  }

  /** The end of the body: the recursive call is the next iteration. */
  lemma {:induction false} SimEnd(w: World, scopes: Scopes, counter: Counter, lastBound: Option<string>,
                                  mut: set<string>,
                                  store: Store, env: Env, answers: seq<Answer>, fuel: nat)
    requires GoodWorld(w) && Holds(w, mut, scopes, store, env) && store.Keys == w.entry.Keys
    requires lastBound.Some? ==> Lookup(lastBound.value, env).Some?
    ensures Agrees(w, Eval(EmitLoop([], w.shape, scopes, counter, lastBound).code, env, answers, fuel),
                   ExecWhile(w.loop, store, answers, fuel))
    decreases fuel, 0, 0, 1
  {
    var lastArg := if w.shape.last.None? then []
                   else [if lastBound.Some? then Ref(lastBound.value) else Null];
    SimCall(w, scopes, lastArg, mut, store, env, answers, fuel);
  }

  /** A call of the loop function with the current values of the carried variables. */
  lemma {:induction false} SimCall(w: World, scopes: Scopes, lastArg: seq<Node>, mut: set<string>, store: Store,
                                   env: Env, answers: seq<Answer>, fuel: nat)
    requires GoodWorld(w) && Holds(w, mut, scopes, store, env) && store.Keys == w.entry.Keys
    requires |lastArg| == (if w.shape.last.None? then 0 else 1)
    requires forall i :: 0 <= i < |lastArg| ==> Settled(lastArg[i], env).Some?
    ensures Agrees(w, Eval(Call(Ref(w.shape.name), CarriedRefs(w.shape.carried, scopes) + lastArg), env, answers, fuel),
                   ExecWhile(w.loop, store, answers, fuel))
    decreases fuel, 0, 0, 0
  {
    var values := ArgValues(w, scopes, lastArg, mut, store, env);
    CallSettled(w.shape.name, LoopFn(w), CarriedRefs(w.shape.carried, scopes) + lastArg, values, env, answers, fuel);
    WorldCarriedLets(w);
    HoldsEnter(w, mut, scopes, store, env, values);
    if fuel > 0 {
      SimRound(w, mut, store, ExtendMulti(env, Params(w), values), answers, fuel);
    }
  }

  lemma {:induction false} ArgValues(w: World, scopes: Scopes, lastArg: seq<Node>, mut: set<string>, store: Store,
                                     env: Env)
    returns (values: seq<Node>)
    requires Holds(w, mut, scopes, store, env)
    requires |lastArg| == (if w.shape.last.None? then 0 else 1)
    requires forall i :: 0 <= i < |lastArg| ==> Settled(lastArg[i], env).Some?
    ensures |values| == |Params(w)| == |CarriedRefs(w.shape.carried, scopes) + lastArg|
    ensures forall i :: 0 <= i < |values| ==>
              Settled((CarriedRefs(w.shape.carried, scopes) + lastArg)[i], env) == Some(values[i])
    ensures forall i :: 0 <= i < |w.shape.carried| ==>
              Lookup(ResolveRef(w.shape.carried[i], scopes), env) == Some(values[i])
  {
    var carried := w.shape.carried;
    var args := CarriedRefs(carried, scopes) + lastArg;
    forall i | 0 <= i < |args| ensures Settled(args[i], env).Some? {
      if i < |carried| {
        assert carried[i] in carried;
      }
    }
    values := seq(|args|, i requires 0 <= i < |args| => Settled(args[i], env).GetOr(Null));
    forall i | 0 <= i < |carried| ensures Lookup(ResolveRef(carried[i], scopes), env) == Some(values[i]) {
      assert args[i] == Ref(ResolveRef(carried[i], scopes));
    }
  }

  lemma {:induction false} IterationReady(w: World)
    requires GoodWorld(w)
    ensures EmitLoop(w.loop.body, w.shape, w.base, w.counter, None).Emitted?
    ensures EmitLoop(w.loop.body, w.shape, w.base, w.counter, None).code == w.code
    ensures SegOk(w, w.loop.body, w.entry.Keys, Mutable(w.entry, w.base))
    ensures w.loop.test.Some? ==> Plain(w.loop.test.value, w.entry.Keys)
    ensures LoopFn(w).body ==
            if w.loop.test.None? then w.code
            else If(EmitExpr(w.loop.test.value, w.base), w.code,
                    Some(ExitCode(w.shape, ParamNames(w.shape.carried, w.base), w.shape.last.value)))
  {
    hide WellScoped, Covered, EmitLoop, NoClash, Named, EmitExpr;
  }

  lemma {:induction false} MutableAtEntry(w: World, mut: set<string>, store: Store, env: Env)
    requires Holds(w, mut, w.base, store, env) && store.Keys == w.entry.Keys
    ensures mut == Mutable(w.entry, w.base)
  {
  }

  lemma {:induction false} WholeEmpty(w: World, store: Store, answers: seq<Answer>, fuel: nat)
    requires w.loop.WhileStmt?
    ensures Whole(w, [], store, answers, fuel) == ExecWhile(w.loop, store, answers, fuel)
  {
  }

  lemma {:induction false} ExecWhileStep(w: Stmt, store: Store, answers: seq<Answer>, fuel: nat)
    requires w.WhileStmt? && fuel > 0
    ensures var o := if w.test.Some? then Read(w.test.value, store, answers, fuel - 1) else Done(Bool(true), answers);
            ExecWhile(w, store, answers, fuel) ==
            if !o.Done? then Abrupt(o, store)
            else if !Truthy(o.value) then Fall(store, o.rest)
            else
              var x := ExecBlock(w.body, store, o.rest, fuel - 1);
              if x.Fall? then ExecWhile(w, x.store, x.rest, fuel - 1) else x
  {
  }

  /** One iteration: the condition, then the body. */
  lemma {:induction false} SimRound(w: World, mut: set<string>, store: Store, env: Env, answers: seq<Answer>, fuel: nat)
    requires GoodWorld(w) && Holds(w, mut, w.base, store, env) && store.Keys == w.entry.Keys && fuel > 0
    requires w.shape.last.Some? ==> Lookup(w.shape.last.value, env).Some?
    ensures Agrees(w, Eval(LoopFn(w).body, env, answers, fuel - 1), ExecWhile(w.loop, store, answers, fuel))
    decreases fuel - 1, StmtsSize(w.loop.body), 2, 4
  {
    hide GoodWorld, Holds, Eval, Agrees, ExecOne, ExecWhile, ExecBlock, EmitExpr, Plain;
    WorldBasics(w);
    HoldsBasics(w, mut, w.base, store, env);
    IterationReady(w);
    ExecWhileStep(w.loop, store, answers, fuel);
    if w.loop.test.None? {
      SimIteration(w, mut, store, env, answers, fuel);
    } else {
      var test := w.loop.test.value;
      RenamedSame(test, w.base, store, env, answers, fuel - 1);
      IfOutcome(EmitExpr(test, w.base), w.code,
                ExitCode(w.shape, ParamNames(w.shape.carried, w.base), w.shape.last.value), env, answers, fuel - 1);
      var o := Read(test, store, answers, fuel - 1);
      if o.Done? {
        if Truthy(o.value) {
          SimIteration(w, mut, store, env, o.rest, fuel);
        } else {
          SimExit(w, mut, store, env, o.rest, fuel - 1);
        }
      } else {
        AbruptAgrees(w, o, store);
      }
    }
  }

  /** The body of one iteration and the iterations after it. */
  lemma {:induction false} SimIteration(w: World, mut: set<string>, store: Store, env: Env, answers: seq<Answer>,
                                        fuel: nat)
    requires GoodWorld(w) && Holds(w, mut, w.base, store, env) && store.Keys == w.entry.Keys && fuel > 0
    ensures var x := ExecBlock(w.loop.body, store, answers, fuel - 1);
            Agrees(w, Eval(w.code, env, answers, fuel - 1),
                   if x.Fall? then ExecWhile(w.loop, x.store, x.rest, fuel - 1) else x)
    decreases fuel - 1, StmtsSize(w.loop.body), 2, 3
  {
    hide GoodWorld, Holds, Eval, EmitLoop, Agrees, Exec, ExecOne, ExecWhile, SegOk, Whole, ExecBlock;
    WorldBasics(w);
    HoldsBasics(w, mut, w.base, store, env);
    IterationReady(w);
    var segs := [Seg(w.loop.body, store.Keys)];
    assert Flat(segs) == w.loop.body;
    assert segs[1..] == [];
    assert segs == [Seg(w.loop.body, store.Keys)] + [];
    MutableAtEntry(w, mut, store, env);
    SimBody(w, segs, w.base, w.counter, None, mut, store, env, answers, fuel - 1);
    SegsBlock(w, w.loop.body, [], store, answers, fuel - 1);
    var x := ExecBlock(w.loop.body, store, answers, fuel - 1);
    if x.Fall? {
      WholeEmpty(w, x.store, x.rest, fuel - 1);
    }
    AgreesSame(w, Eval(w.code, env, answers, fuel - 1), Whole(w, segs, store, answers, fuel - 1),
               if x.Fall? then ExecWhile(w.loop, x.store, x.rest, fuel - 1) else x);
  }

  // ----- the lowered loop -----

  /** What must hold where the loop is compiled and entered: the environment represents the
      variables; visible and tracked names do not begin with two underscores; tracked names
      are bound; the loop reads and assigns only what is visible and shadows nothing; and
      no constant is spelled like a version of a `let` variable. */
  ghost predicate LoopContext(w: Stmt, scopes: Scopes, store: Store, env: Env, consts: set<string>, lets: set<string>)
    requires w.WhileStmt?
  {
    && scopes != [] && Represents(env, scopes, store)
    && (forall x :: x in store ==>
          !Reserved(x) && (if IsLetBinding(x, scopes) then x in lets else x in consts))
    && (forall x :: IsLetBinding(x, scopes) ==>
          x in lets && !Reserved(x) && Lookup(ResolveRef(x, scopes), env).Some?)
    && WellScoped(w.body, store.Keys, Mutable(store, scopes))
    && (w.test.Some? ==> Plain(w.test.value, store.Keys))
    && Covered(w.body, consts, lets, set x | x in Assigned(w.body, []))
    && NoClash(consts, lets)
  }

  function WorldOf(w: Stmt, scopes: Scopes, counter: Counter, store: Store, consts: set<string>,
                   lets: set<string>): World
    requires w.WhileStmt? && scopes != []
  {
    var shape := ShapeOf(w, scopes, counter);
    var e := EmitLoop(w.body, shape, scopes, BodyCounter(w, counter), None);
    World(w, scopes, BodyCounter(w, counter), store, consts, lets, shape, if e.Emitted? then e.code else Null)
  }

  /** A lowering of the loop of `world`. */
  ghost predicate LowersTo(world: World, l: Lowered)
  {
    && GoodWorld(world) && l.Lowered? && l.shape == world.shape && l.fn == LoopFn(world)
    && l.scopes == BumpAll(l.shape.carried, world.base) && l.rebound == ParamNames(l.shape.carried, l.scopes)
    && Synthetic(l.result)
    && l.call == Call(Ref(l.shape.name), CarriedRefs(l.shape.carried, world.base) +
                                         (if l.shape.last.Some? then [Null] else []))
  }

  lemma {:induction false} NamesOfShape(w: Stmt, scopes: Scopes, counter: Counter)
    requires w.WhileStmt?
    ensures var s := ShapeOf(w, scopes, counter);
            && Synthetic(s.name) && |s.name| > 3 && s.name[3] == 'o'
            && (s.last.Some? ==> Synthetic(s.last.value) && |s.last.value| > 3 && s.last.value[3] == 'a')
            && Distinct(s.carried)
  {
    AssignedDistinct(w.body, []);
    CarriedSound(Assigned(w.body, []), scopes);
    CounterNamesSynthetic(Count(counter, "loop"));
    CounterNamesSynthetic(Count(Advance(counter, "loop"), "last"));
  }

  lemma {:induction false} LoopWorld(w: Stmt, scopes: Scopes, counter: Counter, store: Store, env: Env,
                  consts: set<string>, lets: set<string>)
    requires w.WhileStmt? && LoopContext(w, scopes, store, env, consts, lets)
    requires LowerLoop(w, scopes, counter).Lowered?
    ensures LowersTo(WorldOf(w, scopes, counter, store, consts, lets), LowerLoop(w, scopes, counter))
  {
    hide WellScoped, Covered, EmitExpr, EmitLoop, CounterName;
    NamesOfShape(w, scopes, counter);
    var e := EmitLoop(w.body, ShapeOf(w, scopes, counter), scopes, BodyCounter(w, counter), None);
    CounterNamesSynthetic(Count(e.counter, "loop_result"));
    assert GoodWorld(WorldOf(w, scopes, counter, store, consts, lets));
  }

  /** The call of the lowered loop shows how the source loop leaves. */
  lemma {:induction false} LoopCall(world: World, l: Lowered, env: Env, answers: seq<Answer>, fuel: nat)
    requires LowersTo(world, l)
    requires LoopContext(world.loop, world.base, world.entry, env, world.consts, world.lets)
    ensures Agrees(world, Eval(l.call, Extend(env, l.shape.name, l.fn), answers, fuel),
                   ExecWhile(world.loop, world.entry, answers, fuel))
  {
    HoldsAtEntry(world, l, env);
    var lastArg := if l.shape.last.Some? then [Null] else [];
    SimCall(world, world.base, lastArg, Mutable(world.entry, world.base), world.entry,
            Extend(env, l.shape.name, l.fn), answers, fuel);
  }

  lemma {:induction false} RepresentsUnder(w: World, scopes: Scopes, store: Store, env: Env, name: string, v: Node)
    requires Named(w, scopes, store) && Represents(env, scopes, store) && Synthetic(name)
    ensures Represents(Extend(env, name, v), scopes, store)
  {
    forall x | x in store ensures Lookup(ResolveRef(x, scopes), Extend(env, name, v)) == Some(store[x]) {
      NameOfStored(w, scopes, store, x);
    }
  }

  lemma {:induction false} HoldsAtEntry(world: World, l: Lowered, env: Env)
    requires LowersTo(world, l)
    requires LoopContext(world.loop, world.base, world.entry, env, world.consts, world.lets)
    ensures Holds(world, Mutable(world.entry, world.base), world.base, world.entry, Extend(env, l.shape.name, l.fn))
  {
    hide GoodWorld, WellScoped, Covered, NoClash;
    WorldCarriedLets(world);
    WorldBasics(world);
    var env' := Extend(env, l.shape.name, l.fn);
    RepresentsUnder(world, world.base, world.entry, env, l.shape.name, l.fn);
    assert Lookup(world.shape.name, env') == Some(LoopFn(world));
    forall v | v in world.shape.carried ensures Lookup(ResolveRef(v, world.base), env').Some? {
      assert IsLetBinding(v, world.base);
    }
  }

  // ----- after the loop -----

  /** The variables after the loop: the carried ones under their next versions. */
  lemma {:induction false} BumpAllLookup(names: seq<string>, scopes: Scopes, y: string)
    requires Distinct(names) && forall i :: 0 <= i < |names| ==> LookupBinding(names[i], scopes).Some?
    ensures LookupBinding(y, BumpAll(names, scopes)) ==
            if y in names then Some(InfoOf(y, scopes).(version := InfoOf(y, scopes).version + 1))
            else LookupBinding(y, scopes)
    decreases |names|
  {
    if names != [] {
      var scopes' := BumpVersion(names[0], scopes);
      forall z ensures LookupBinding(z, scopes') ==
        if z == names[0] then Some(InfoOf(z, scopes).(version := InfoOf(z, scopes).version + 1))
        else LookupBinding(z, scopes)
      {
        BumpedLookup(names[0], scopes, z);
      }
      assert names[0] !in names[1..];
      BumpAllLookup(names[1..], scopes', y);
      assert names == [names[0]] + names[1..];
    }
  }

  /** The environment in which the statements after the loop run. */
  function Rebound(names: seq<string>, values: seq<Node>, env: Env): Env
    requires |names| == |values|
  {
    if names == [] then env else Rebound(names[1..], values[1..], Extend(env, names[0], values[0]))
  }

  lemma {:induction false} ChainRuns(names: seq<string>, carried: seq<string>, values: seq<Node>, result: string,
                                     packed: Node, rest: Node, env: Env, answers: seq<Answer>, fuel: nat)
    requires |names| == |carried| == |values| && packed.Obj?
    requires forall i :: 0 <= i < |carried| ==> carried[i] in packed.fields && packed.fields[carried[i]] == values[i]
    requires Lookup(result, env) == Some(packed) && result !in names
    ensures Eval(RebindChain(names, carried, result, rest), env, answers, fuel)
         == Eval(rest, Rebound(names, values, env), answers, fuel)
    decreases |names|
  {
    if names != [] {
      var env' := Extend(env, names[0], values[0]);
      var g := Get(Ref(result), carried[0]);
      assert Eval(g, env, answers, fuel) == Done(values[0], answers) by {
        assert Eval(Ref(result), env, answers, fuel) == Done(packed, answers);
      }
      LetOutcome(names[0], g, RebindChain(names[1..], carried[1..], result, rest), env, answers, fuel);
      ChainRuns(names[1..], carried[1..], values[1..], result, packed, rest, env', answers, fuel);
    }
  }

  lemma {:induction false} ReboundLookup(names: seq<string>, values: seq<Node>, env: Env)
    requires |names| == |values| && Distinct(names)
    ensures forall n :: n !in names ==> Lookup(n, Rebound(names, values, env)) == Lookup(n, env)
    ensures forall i :: 0 <= i < |names| ==> Lookup(names[i], Rebound(names, values, env)) == Some(values[i])
    decreases |names|
  {
    if names != [] {
      ReboundLookup(names[1..], values[1..], Extend(env, names[0], values[0]));
      assert names[0] !in names[1..];
      assert names == [names[0]] + names[1..];
      forall i | 0 <= i < |names| ensures Lookup(names[i], Rebound(names, values, env)) == Some(values[i]) {
        if i > 0 {
          assert names[i] == names[1..][i - 1];
        }
      }
    }
  }
}
