/** The binders of a lowered loop: names that the compiler makes up, and versions of declared
    variables, which it does not allow to begin with two underscores. */
module LoweringBinders {
  import opened Text
  import opened Ir
  import opened Source
  import opened Emit
  import opened LoweringBasics
  import opened Rewriting
  import opened Linking

  ghost function Own(): string -> bool { x => Written(x) }

  ghost predicate Clean(e: Node) { Binds(e, Own()) }

  ghost predicate CleanAll(es: seq<Node>) { forall i :: 0 <= i < |es| ==> Clean(es[i]) }

  // ----- terms -----

  lemma {:induction false} CleanParts(e: Node)
    requires forall x :: x in OwnBinders(e) ==> Written(x)
    requires forall i :: 0 <= i < |Parts(e, true)| ==> Clean(Parts(e, true)[i].node)
    ensures Clean(e)
  {
    hide Parts, Written, OwnBinders;
    var parts := Parts(e, true);
    forall i | 0 <= i < |parts| ensures Binds(parts[i].node, Own()) {
      assert Clean(parts[i].node);
    }
  }

  lemma {:induction false} CleanPart(e: Node, i: nat)
    requires Clean(e) && i < |Parts(e, true)|
    ensures Clean(Parts(e, true)[i].node)
  {
    hide Parts;
  }

  lemma {:induction false} CleanLeaf(e: Node)
    requires e.Null? || e.Str? || e.Ref?
    ensures Clean(e)
  {
    assert Parts(e, true) == [] && OwnBinders(e) == {};
  }

  lemma {:induction false} CleanLet(x: string, value: Node, scope: Node)
    requires Written(x) && Clean(value) && Clean(scope)
    ensures Clean(Let(x, value, scope))
  {
    hide Written, Clean;
    var e := Let(x, value, scope);
    assert Parts(e, true) == [Part(value, {}), Part(scope, {x})];
    CleanParts(e);
  }

  lemma {:induction false} CleanIf(c: Node, t: Node, f: Node)
    requires Clean(c) && Clean(t) && Clean(f)
    ensures Clean(If(c, t, Some(f)))
  {
    hide Written, Clean;
    var e := If(c, t, Some(f));
    assert Parts(e, true) == [Part(c, {}), Part(t, {}), Part(f, {})];
    CleanParts(e);
  }

  lemma {:induction false} CleanOne(e: Node, inner: Node)
    requires (e.Throw? && inner == e.message) || (e.Get? && inner == e.obj)
    requires Clean(inner)
    ensures Clean(e)
  {
    hide Written, Clean;
    assert Parts(e, true) == [Part(inner, {})];
    CleanParts(e);
  }

  lemma {:induction false} CleanCall(f: Node, args: seq<Node>)
    requires Clean(f) && CleanAll(args)
    ensures Clean(Call(f, args))
  {
    hide Written, Clean;
    var e := Call(f, args);
    var parts := Parts(e, true);
    assert parts == [Part(f, {})] + Each(args);
    forall i | 0 <= i < |parts| ensures Clean(parts[i].node) {
      assert i > 0 ==> parts[i] == Each(args)[i - 1];
    }
    CleanParts(e);
  }

  lemma {:induction false} CleanConstruct(entries: map<string, Node>)
    requires forall k :: k in entries ==> Clean(entries[k])
    ensures Clean(Construct(entries))
  {
    hide Written, Clean, Sorted, SortedKeys;
    CleanParts(Construct(entries));
  }

  lemma {:induction false} CleanFn(params: seq<string>, body: Node)
    requires (forall x :: x in params ==> Written(x)) && Clean(body)
    ensures Clean(Fn(params, body))
  {
    hide Written, Clean;
    var e := Fn(params, body);
    assert Parts(e, true)[0].node == body && |Parts(e, true)| == 1;
    CleanParts(e);
  }

  // ----- expressions -----

  lemma {:induction false} EmitExprsAt(es: seq<Node>, scopes: Scopes, i: nat)
    requires i < |es|
    ensures EmitExprs(es, scopes)[i] == EmitExpr(es[i], scopes)
  {
    if i > 0 {
      EmitExprsAt(es[1..], scopes, i - 1);
    }
  }

  /** The subterms of `r` are the emitted subterms of `e`. */
  ghost predicate Mirrors(e: Node, r: Node, scopes: Scopes)
  {
    && OwnBinders(r) == OwnBinders(e) && |Parts(r, true)| == |Parts(e, true)|
    && forall i :: 0 <= i < |Parts(e, true)| ==>
         Parts(r, true)[i].node == EmitExpr(Parts(e, true)[i].node, scopes)
  }

  /** An expression is taken over as it is, or its subterms are emitted. */
  lemma {:induction false} PartsEmitted(e: Node, scopes: Scopes)
    ensures var r := EmitExpr(e, scopes);
            r == e || e.Ref? || Mirrors(e, r, scopes)
  {
    hide EmitExprs, Mirrors, ResolveRef;
    if e.Arr? || e.Prim? {
      ListEmitted(e, scopes);
    } else if e.Obj? || e.Construct? {
      ObjectEmitted(e, scopes);
    } else if e.If? || e.Get? || e.And? || e.Or? || e.Effect? {
      FewEmitted(e, scopes);
    }
  }

  lemma {:induction false} FewEmitted(e: Node, scopes: Scopes)
    requires e.If? || e.Get? || e.And? || e.Or? || e.Effect?
    ensures Mirrors(e, EmitExpr(e, scopes), scopes)
  {
    FewAre(e, scopes);
    hide EmitExpr;
    if e.If? {
      OptionalMirrors(e.else_, EmitExpr(e, scopes).else_, scopes);
    }
  }

  lemma {:induction false} FewAre(e: Node, scopes: Scopes)
    requires e.If? || e.Get? || e.And? || e.Or? || e.Effect?
    ensures var r := EmitExpr(e, scopes);
            && (e.Get? ==> r == Get(EmitExpr(e.obj, scopes), e.key))
            && (e.Effect? ==> r == Effect(e.id, EmitExpr(e.data, scopes)))
            && (e.And? ==> r == And(EmitExpr(e.a, scopes), EmitExpr(e.b_, scopes)))
            && (e.Or? ==> r == Or(EmitExpr(e.a, scopes), EmitExpr(e.b_, scopes)))
            && (e.If? ==> r == If(EmitExpr(e.cond, scopes), EmitExpr(e.then_, scopes),
                                  if e.else_.Some? then Some(EmitExpr(e.else_.value, scopes)) else None))
  {
  }

  lemma {:induction false} OptionalMirrors(a: Option<Node>, b: Option<Node>, scopes: Scopes)
    requires b == if a.Some? then Some(EmitExpr(a.value, scopes)) else None
    ensures |Optional(a, {})| == |Optional(b, {})|
    ensures a.Some? ==> Optional(a, {})[0].node == a.value && Optional(b, {})[0].node == EmitExpr(a.value, scopes)
  {
    hide EmitExpr;
  }

  lemma {:induction false} ListEmitted(e: Node, scopes: Scopes)
    requires e.Arr? || e.Prim?
    ensures Mirrors(e, EmitExpr(e, scopes), scopes)
  {
    hide EmitExprs, Each;
    EachEmitted(if e.Arr? then e.items else e.operands, scopes);
  }

  lemma {:induction false} ObjectEmitted(e: Node, scopes: Scopes)
    requires e.Obj? || e.Construct?
    ensures Mirrors(e, EmitExpr(e, scopes), scopes)
  {
    hide Sorted, SortedKeys;
    if e.Obj? {
      assert EmitExpr(e, scopes).fields.Keys == e.fields.Keys;
    } else {
      assert EmitExpr(e, scopes).entries.Keys == e.entries.Keys;
    }
  }

  lemma {:induction false} EachEmitted(es: seq<Node>, scopes: Scopes)
    ensures |Each(EmitExprs(es, scopes))| == |Each(es)|
    ensures forall i :: 0 <= i < |es| ==> Each(EmitExprs(es, scopes))[i].node == EmitExpr(Each(es)[i].node, scopes)
  {
    hide EmitExpr;
    forall i | 0 <= i < |es| ensures EmitExprs(es, scopes)[i] == EmitExpr(es[i], scopes) {
      EmitExprsAt(es, scopes, i);
    }
  }

  /** Emission of expressions adds no binder. */
  lemma {:induction false} EmittedClean(e: Node, scopes: Scopes)
    requires Clean(e)
    ensures Clean(EmitExpr(e, scopes))
    decreases e
  {
    if e.Ref? {
      CleanLeaf(EmitExpr(e, scopes));
    } else {
      PartsEmitted(e, scopes);
      CleanOwn(e);
      var r := EmitExpr(e, scopes);
      hide Parts, EmitExpr, Clean, Written, OwnBinders;
      if r != e {
        assert Mirrors(e, r, scopes);
        forall i | 0 <= i < |Parts(r, true)| ensures Clean(Parts(r, true)[i].node) {
          CleanPart(e, i);
          EmittedClean(Parts(e, true)[i].node, scopes);
        }
        CleanParts(r);
      }
    }
  }

  lemma {:induction false} CleanOwn(e: Node)
    requires Clean(e)
    ensures forall x :: x in OwnBinders(e) ==> Written(x)
  {
    hide Written, Parts, OwnBinders;
    forall x | x in OwnBinders(e) ensures Written(x) {
      assert Own()(x);
    }
  }

  // ----- statements -----

  /** Every expression of the statements binds at most what the compiler writes. */
  ghost predicate StmtsClean(stmts: seq<Stmt>)
    decreases stmts
  {
    forall i :: 0 <= i < |stmts| ==> StmtClean(stmts[i])
  }

  ghost predicate StmtClean(s: Stmt)
    decreases s
  {
    match s
    case VarStmt(_, decls) => forall i :: 0 <= i < |decls| ==> Clean(decls[i].init)
    case Assign(_, e) => Clean(e)
    case ExprStmt(e) => Clean(e)
    case IfStmt(c, then_, else_) => Clean(c) && StmtsClean(then_) && (else_.Present? ==> StmtsClean(else_.stmts))
    case Return(r) => r.Some? ==> Clean(r.value)
    case ThrowStmt(m) => Clean(m)
    case _ => true
  }

  lemma {:induction false} BranchClean(branch: seq<Stmt>, rest: seq<Stmt>)
    requires StmtsClean(branch) && StmtsClean(rest)
    ensures StmtsClean(BranchStmts(branch, rest))
  {
    hide StmtClean;
  }

  /** Tracked variables have passed the check on their names. */
  ghost predicate NamedScopes(scopes: Scopes)
  {
    forall x :: IsLetBinding(x, scopes) ==> !Reserved(x)
  }

  lemma {:induction false} VersionWritten(x: string, scopes: Scopes)
    requires NamedScopes(scopes) && IsLetBinding(x, scopes)
    ensures Written(ResolveRef(x, scopes))
  {
    var v := LookupBinding(x, scopes).value.version;
    assert ResolveRef(x, scopes) == Versioned(x, v);
  }

  lemma {:induction false} CounterWritten(p: string, n: nat)
    requires p in Prefixes
    ensures Written(CounterName(p, n))
  {
  }

  lemma {:induction false} BumpNamed(x: string, scopes: Scopes)
    requires NamedScopes(scopes) && IsLetBinding(x, scopes)
    ensures NamedScopes(BumpVersion(x, scopes)) && IsLetBinding(x, BumpVersion(x, scopes))
  {
    forall y ensures IsLetBinding(y, BumpVersion(x, scopes)) == IsLetBinding(y, scopes) {
      BumpedLookup(x, scopes, y);
    }
  }

  lemma {:induction false} DeclareNamed(x: string, isLet: bool, scopes: Scopes)
    requires NamedScopes(scopes) && scopes != [] && !Reserved(x)
    ensures NamedScopes(DeclareBinding(x, isLet, scopes))
    ensures Written(if isLet then Versioned(x, 0) else x)
  {
    forall y | IsLetBinding(y, DeclareBinding(x, isLet, scopes)) ensures !Reserved(y) {
      DeclaredLookup(x, isLet, scopes, y);
    }
  }

  lemma {:induction false} RefsClean(names: seq<string>, scopes: Scopes, more: seq<Node>)
    requires CleanAll(more)
    ensures CleanAll(CarriedRefs(names, scopes) + more)
  {
    hide Clean, ResolveRef;
    forall i | 0 <= i < |names| ensures Clean(CarriedRefs(names, scopes)[i]) {
      CleanLeaf(CarriedRefs(names, scopes)[i]);
    }
  }

  lemma {:induction false} PackedClean(tag: Option<string>, value: Node, carried: seq<string>, refs: seq<Node>)
    requires |refs| == |carried| && Clean(value) && CleanAll(refs)
    ensures Clean(Construct(PackedFields(tag, value, carried, refs)))
  {
    hide Clean;
    CarriedClean(carried, refs);
    if tag.Some? {
      CleanLeaf(Str(tag.value));
    }
    CleanConstruct(PackedFields(tag, value, carried, refs));
  }

  lemma {:induction false} CarriedClean(carried: seq<string>, refs: seq<Node>)
    requires |refs| == |carried| && CleanAll(refs)
    ensures forall k :: k in CarriedFields(carried, refs) ==> Clean(CarriedFields(carried, refs)[k])
  {
    hide Clean;
    if carried != [] {
      var n := |carried| - 1;
      CarriedClean(carried[..n], refs[..n]);
    }
  }

  /** The code of a loop body. */
  lemma {:induction false} LoopClean(stmts: seq<Stmt>, shape: LoopShape, scopes: Scopes, counter: Counter,
                                     lastBound: Option<string>)
    requires scopes != [] && NamedScopes(scopes) && StmtsClean(stmts)
    requires EmitLoop(stmts, shape, scopes, counter, lastBound).Emitted?
    ensures Clean(EmitLoop(stmts, shape, scopes, counter, lastBound).code)
    decreases StmtsSize(stmts), |stmts|, 1
  {
    hide Clean, Written, NamedScopes, EmitExpr, PackedFields, CounterName, StmtClean, BumpVersion, DeclareBinding,
      ResolveRef;
    if stmts == [] {
      EndClean(shape, scopes, lastBound);
    } else {
      assert StmtClean(stmts[0]);
      assert StmtsClean(stmts[1..]);
      assert StmtsSize(stmts) == StmtSize(stmts[0]) + StmtsSize(stmts[1..]);
      match stmts[0]
      case VarStmt(isLet, decls) =>
        VarClean(stmts[0]);
        DeclsClean(isLet, decls, stmts[1..], shape, scopes, counter);
      case Return(_) => ReturnClean(stmts, shape, scopes, counter, lastBound);
      case ThrowStmt(m) =>
        MessageClean(stmts[0]);
        EmittedClean(m, scopes);
        CleanOne(Throw(EmitExpr(m, scopes)), EmitExpr(m, scopes));
      case IfStmt(_, _, _) => IfClean(stmts, shape, scopes, counter, lastBound);
      case _ => StepClean(stmts, shape, scopes, counter, lastBound);
    }
  }

  lemma {:induction false} EndClean(shape: LoopShape, scopes: Scopes, lastBound: Option<string>)
    ensures var lastArg := if shape.last.None? then []
                           else [if lastBound.Some? then Ref(lastBound.value) else Null];
            Clean(Call(Ref(shape.name), CarriedRefs(shape.carried, scopes) + lastArg))
  {
    hide Clean;
    var lastArg := if shape.last.None? then [] else [if lastBound.Some? then Ref(lastBound.value) else Null];
    CleanLeaf(if lastBound.Some? then Ref(lastBound.value) else Null);
    CleanLeaf(Ref(shape.name));
    RefsClean(shape.carried, scopes, lastArg);
    CleanCall(Ref(shape.name), CarriedRefs(shape.carried, scopes) + lastArg);
  }

  lemma {:induction false} VarClean(s: Stmt)
    requires s.VarStmt? && StmtClean(s)
    ensures forall i :: 0 <= i < |s.decls| ==> Clean(s.decls[i].init)
  {
  }

  lemma {:induction false} MessageClean(s: Stmt)
    requires s.ThrowStmt? && StmtClean(s)
    ensures Clean(s.message)
  {
  }

  lemma {:induction false} ReturnClean(stmts: seq<Stmt>, shape: LoopShape, scopes: Scopes, counter: Counter,
                                       lastBound: Option<string>)
    requires scopes != [] && stmts != [] && stmts[0].Return? && StmtClean(stmts[0])
    ensures Clean(EmitLoop(stmts, shape, scopes, counter, lastBound).code)
  {
    hide Clean, PackedFields, EmitExpr;
    var r := stmts[0].result;
    var value := if r.Some? then EmitExpr(r.value, scopes) else Null;
    if r.Some? {
      EmittedClean(r.value, scopes);
    } else {
      CleanLeaf(Null);
    }
    RefsClean(shape.carried, scopes, []);
    assert CarriedRefs(shape.carried, scopes) + [] == CarriedRefs(shape.carried, scopes);
    PackedClean(Some("return"), value, shape.carried, CarriedRefs(shape.carried, scopes));
  }

  lemma {:induction false} StepClean(stmts: seq<Stmt>, shape: LoopShape, scopes: Scopes, counter: Counter,
                                     lastBound: Option<string>)
    requires scopes != [] && NamedScopes(scopes) && StmtsClean(stmts)
    requires stmts != [] && (stmts[0].Assign? || stmts[0].ExprStmt?)
    requires EmitLoop(stmts, shape, scopes, counter, lastBound).Emitted?
    ensures Clean(EmitLoop(stmts, shape, scopes, counter, lastBound).code)
    decreases StmtsSize(stmts), |stmts|, 0
  {
    hide Clean, Written, EmitExpr, NamedScopes, CounterName, BumpVersion;
    var rest := stmts[1..];
    assert StmtClean(stmts[0]);
    assert StmtsClean(rest);
    assert StmtsSize(stmts) == StmtSize(stmts[0]) + StmtsSize(rest);
    if stmts[0].Assign? {
      var x := stmts[0].name;
      var scopes' := BumpVersion(x, scopes);
      BumpNamed(x, scopes);
      VersionWritten(x, scopes');
      EmittedClean(stmts[0].value, scopes);
      LoopClean(rest, shape, scopes', counter, Some(ResolveRef(x, scopes')));
      var e := EmitLoop(rest, shape, scopes', counter, Some(ResolveRef(x, scopes')));
      CleanLet(ResolveRef(x, scopes'), EmitExpr(stmts[0].value, scopes), e.code);
    } else {
      var name := NextName(counter, "discard");
      CounterWritten("discard", Count(counter, "discard"));
      EmittedClean(stmts[0].expr, scopes);
      LoopClean(rest, shape, scopes, Advance(counter, "discard"), Some(name));
      var e := EmitLoop(rest, shape, scopes, Advance(counter, "discard"), Some(name));
      CleanLet(name, EmitExpr(stmts[0].expr, scopes), e.code);
    }
  }

  lemma {:induction false} IfClean(stmts: seq<Stmt>, shape: LoopShape, scopes: Scopes, counter: Counter,
                                   lastBound: Option<string>)
    requires scopes != [] && NamedScopes(scopes) && StmtsClean(stmts) && stmts != [] && stmts[0].IfStmt?
    requires EmitLoop(stmts, shape, scopes, counter, lastBound).Emitted?
    ensures Clean(EmitLoop(stmts, shape, scopes, counter, lastBound).code)
    decreases StmtsSize(stmts), |stmts|, 0
  {
    hide Clean, Written, EmitExpr, NamedScopes;
    var s, rest := stmts[0], stmts[1..];
    var other := if s.else_.Present? then s.else_.stmts else [];
    assert StmtClean(s);
    assert StmtsClean(rest);
    assert StmtsSize(stmts) == StmtSize(s) + StmtsSize(rest);
    assert StmtSize(s) == 1 + StmtsSize(s.then_) + (if s.else_.Present? then StmtsSize(s.else_.stmts) else 0);
    SizeAppend(s.then_, rest);
    SizeAppend(other, rest);
    BranchClean(s.then_, rest);
    BranchClean(other, rest);
    assert [] + rest == rest;
    EmittedClean(s.cond, scopes);
    LoopClean(BranchStmts(s.then_, rest), shape, scopes, counter, None);
    var t := EmitLoop(BranchStmts(s.then_, rest), shape, scopes, counter, None);
    LoopClean(BranchStmts(other, rest), shape, scopes, t.counter, None);
    var f := EmitLoop(BranchStmts(other, rest), shape, scopes, t.counter, None);
    CleanIf(EmitExpr(s.cond, scopes), t.code, f.code);
  }

  lemma {:induction false} DeclsClean(isLet: bool, decls: seq<Decl>, rest: seq<Stmt>, shape: LoopShape, scopes: Scopes,
                                      counter: Counter)
    requires scopes != [] && NamedScopes(scopes) && decls != [] && StmtsClean(rest)
    requires forall i :: 0 <= i < |decls| ==> Clean(decls[i].init)
    requires EmitDecls(isLet, decls, rest, shape, scopes, counter).Emitted?
    ensures Clean(EmitDecls(isLet, decls, rest, shape, scopes, counter).code)
    decreases StmtsSize(rest) + |decls|, |rest|, 0
  {
    hide Clean, Written, EmitExpr, NamedScopes, StmtsClean, DeclareBinding, Versioned;
    var x := decls[0].name;
    var scopes', name := DeclareBinding(x, isLet, scopes), if isLet then Versioned(x, 0) else x;
    DeclareNamed(x, isLet, scopes);
    EmittedClean(decls[0].init, scopes);
    assert |scopes'| == |scopes| by { DeclareSize(x, isLet, scopes); }
    if |decls| == 1 {
      LoopClean(rest, shape, scopes', counter, Some(name));
      CleanLet(name, EmitExpr(decls[0].init, scopes), EmitLoop(rest, shape, scopes', counter, Some(name)).code);
    } else {
      DeclsClean(isLet, decls[1..], rest, shape, scopes', counter);
      CleanLet(name, EmitExpr(decls[0].init, scopes),
               EmitDecls(isLet, decls[1..], rest, shape, scopes', counter).code);
    }
  }

  lemma {:induction false} DeclareSize(x: string, isLet: bool, scopes: Scopes)
    requires scopes != []
    ensures |DeclareBinding(x, isLet, scopes)| == |scopes|
  {
  }

  // ----- the whole loop -----

  lemma {:induction false} CarriedLet(names: seq<string>, scopes: Scopes)
    ensures forall x :: x in Carried(names, scopes) ==> IsLetBinding(x, scopes)
  {
    if names != [] {
      CarriedLet(names[1..], scopes);
    }
  }

  lemma {:induction false} BumpAllNamed(names: seq<string>, scopes: Scopes)
    requires NamedScopes(scopes) && forall x :: x in names ==> IsLetBinding(x, scopes)
    ensures NamedScopes(BumpAll(names, scopes))
    ensures forall x :: IsLetBinding(x, scopes) ==> IsLetBinding(x, BumpAll(names, scopes))
    decreases |names|
  {
    hide BumpVersion, NamedScopes;
    if names != [] {
      var x := names[0];
      BumpNamed(x, scopes);
      forall y | IsLetBinding(y, scopes) ensures IsLetBinding(y, BumpVersion(x, scopes)) {
        BumpedLookup(x, scopes, y);
      }
      BumpAllNamed(names[1..], BumpVersion(x, scopes));
    }
  }

  lemma {:induction false} ParamsWritten(carried: seq<string>, scopes: Scopes)
    requires NamedScopes(scopes) && forall x :: x in carried ==> IsLetBinding(x, scopes)
    ensures forall n :: n in ParamNames(carried, scopes) ==> Written(n)
  {
    hide Written, NamedScopes, ResolveRef;
    var names := ParamNames(carried, scopes);
    forall i | 0 <= i < |names| ensures Written(names[i]) {
      assert carried[i] in carried;
      VersionWritten(carried[i], scopes);
    }
  }

  lemma {:induction false} ChainClean(names: seq<string>, carried: seq<string>, result: string, rest: Node)
    requires |names| == |carried| && Clean(rest) && forall n :: n in names ==> Written(n)
    ensures Clean(RebindChain(names, carried, result, rest))
    decreases |names|
  {
    hide Clean, Written;
    if names != [] {
      CleanLeaf(Ref(result));
      CleanOne(Get(Ref(result), carried[0]), Ref(result));
      ChainClean(names[1..], carried[1..], result, rest);
      CleanLet(names[0], Get(Ref(result), carried[0]), RebindChain(names[1..], carried[1..], result, rest));
    }
  }

  /** The code of a lowered loop binds only names that the compiler makes up and versions of
      declared variables, none of which is ever a runtime name. */
  lemma {:induction false} LoweredClean(w: Stmt, scopes: Scopes, counter: Counter, rest: Node)
    requires w.WhileStmt? && scopes != [] && NamedScopes(scopes) && StmtsClean(w.body)
    requires (w.test.Some? ==> Clean(w.test.value)) && Clean(rest)
    requires LowerLoop(w, scopes, counter).Lowered?
    ensures var l := LowerLoop(w, scopes, counter);
            |l.rebound| == |l.shape.carried| && Clean(Assemble(l, rest)) && Binds(Assemble(l, rest), Distinguished())
  {
    hide Clean, Written, NamedScopes, StmtsClean, EmitLoop, EmitExpr, CounterName, BumpAll, Carried, Assigned,
      ParamNames, RebindChain, Assemble, LoopFunction, RuntimeLike;
    var l := LowerLoop(w, scopes, counter);
    var shape := l.shape;
    CarriedLet(Assigned(w.body, []), scopes);
    LoopClean(w.body, shape, scopes, BodyCounter(w, counter), None);
    var e := EmitLoop(w.body, shape, scopes, BodyCounter(w, counter), None);
    FunctionClean(w, scopes, counter, e.code);
    CallClean(shape, scopes);
    BumpAllNamed(shape.carried, scopes);
    ParamsWritten(shape.carried, BumpAll(shape.carried, scopes));
    ChainClean(l.rebound, shape.carried, l.result, rest);
    CounterWritten("loop", Count(counter, "loop"));
    CounterWritten("loop_result", Count(e.counter, "loop_result"));
    AssembledClean(l, rest);
    CleanDistinguished(Assemble(l, rest));
  }

  lemma {:induction false} CleanDistinguished(e: Node)
    requires Clean(e)
    ensures Binds(e, Distinguished())
  {
    hide Binds, Written, RuntimeLike;
    forall x | Own()(x) ensures Distinguished()(x) {
      WrittenNotLike(x);
    }
    BindsMore(e, Own(), Distinguished());
  }

  lemma {:induction false} CallClean(shape: LoopShape, scopes: Scopes)
    ensures Clean(Call(Ref(shape.name), CarriedRefs(shape.carried, scopes) + (if shape.last.Some? then [Null] else [])))
  {
    hide Clean;
    var more := if shape.last.Some? then [Null] else [];
    CleanLeaf(Null);
    CleanLeaf(Ref(shape.name));
    RefsClean(shape.carried, scopes, more);
    CleanCall(Ref(shape.name), CarriedRefs(shape.carried, scopes) + more);
  }

  lemma {:induction false} FunctionClean(w: Stmt, scopes: Scopes, counter: Counter, code: Node)
    requires w.WhileStmt? && scopes != [] && NamedScopes(scopes) && Clean(code)
    requires w.test.Some? ==> Clean(w.test.value)
    ensures Clean(LoopFunction(w, ShapeOf(w, scopes, counter), scopes, code))
  {
    hide Clean, Written, NamedScopes, EmitExpr, CounterName, Carried, Assigned, PackedFields;
    var shape := ShapeOf(w, scopes, counter);
    var params := ParamNames(shape.carried, scopes);
    CarriedLet(Assigned(w.body, []), scopes);
    ParamsWritten(shape.carried, scopes);
    CounterWritten("last", Count(Advance(counter, "loop"), "last"));
    var body := code;
    if w.test.Some? {
      ExitClean(shape, params, shape.last.value);
      EmittedClean(w.test.value, scopes);
      CleanIf(EmitExpr(w.test.value, scopes), code, ExitCode(shape, params, shape.last.value));
      body := If(EmitExpr(w.test.value, scopes), code, Some(ExitCode(shape, params, shape.last.value)));
    }
    CleanFn(params + (if shape.last.Some? then [shape.last.value] else []), body);
  }

  lemma {:induction false} ExitClean(shape: LoopShape, params: seq<string>, last: string)
    requires |params| == |shape.carried|
    ensures Clean(ExitCode(shape, params, last))
  {
    hide Clean, PackedFields;
    var refs := seq(|params|, i requires 0 <= i < |params| => Ref(params[i]));
    forall i | 0 <= i < |refs| ensures Clean(refs[i]) {
      CleanLeaf(refs[i]);
    }
    CleanLeaf(Ref(last));
    PackedClean(if shape.pack then Some("exit") else None, Ref(last), shape.carried, refs);
  }

  lemma {:induction false} AssembledClean(l: Lowered, rest: Node)
    requires l.Lowered? && |l.rebound| == |l.shape.carried| && Written(l.shape.name) && Written(l.result)
    requires Clean(l.fn) && Clean(l.call) && Clean(RebindChain(l.rebound, l.shape.carried, l.result, rest))
    ensures Clean(Assemble(l, rest))
  {
    hide Clean, Written, RebindChain;
    var chain := RebindChain(l.rebound, l.shape.carried, l.result, rest);
    var tag, value := Get(Ref(l.result), "__tag"), Get(Ref(l.result), "__value");
    CleanLeaf(Ref(l.result));
    CleanOne(tag, Ref(l.result));
    CleanOne(value, Ref(l.result));
    TestClean(tag);
    var test := Prim(Eq, [tag, Str("return")]);
    var code := if l.shape.pack then If(test, value, Some(chain)) else chain;
    CleanIf(test, value, chain);
    CleanLet(l.result, l.call, code);
    CleanLet(l.shape.name, l.fn, Let(l.result, l.call, code));
  }

  lemma {:induction false} TestClean(a: Node)
    requires Clean(a)
    ensures Clean(Prim(Eq, [a, Str("return")]))
  {
    hide Clean;
    var e := Prim(Eq, [a, Str("return")]);
    CleanLeaf(Str("return"));
    assert Parts(e, true) == [Part(a, {}), Part(Str("return"), {})];
    CleanParts(e);
  }
}
