/** Constants that are spelled like a version of a `let` variable: the compiler does not
    detect them, and what the code after a loop reads is then the loop variable. */
module LoweringClash {
  import opened Text
  import opened Ir
  import opened Kernel
  import opened Source
  import opened Emit
  import opened LoweringBasics
  import opened LoweringState
  import opened LoweringProof
  import opened LoweringTheorem

  // ----- a constant that the loop does not mention -----

  /** The exit with one more variable in the store. */
  function With(x: Exit, c: string, v: Node): Exit
  {
    match x
    case Fall(s, rest) => Fall(s[c := v], rest)
    case Returned(r, s, rest) => Returned(r, s[c := v], rest)
    case Thrown(e, s, rest) => Thrown(e, s[c := v], rest)
    case other => other
  }

  /** A variable that an expression cannot see does not count in its evaluation. */
  lemma {:induction false} ReadFrame(e: Node, store: Store, c: string, v: Node, answers: seq<Answer>, fuel: nat)
    requires Plain(e, store.Keys) && c !in store
    ensures Read(e, store[c := v], answers, fuel) == Read(e, store, answers, fuel)
  {
    hide Eval, Plain;
    var env := Frame(store[c := v], Empty);
    assert forall x: string :: ResolveRef(x, []) == x;
    PlainMore(e, store.Keys, store[c := v].Keys);
    RenamedSame(e, [], store, env, answers, fuel);
    RenamedSame(e, [], store[c := v], env, answers, fuel);
  }

  lemma {:induction false} PlainMore(e: Node, vis: set<string>, more: set<string>)
    requires Plain(e, vis) && vis <= more
    ensures Plain(e, more)
    decreases e, 0
  {
    match e
    case If(c, t, f) =>
      PlainMore(c, vis, more);
      PlainMore(t, vis, more);
      if f.Some? {
        PlainMore(f.value, vis, more);
      }
    case Get(o, _) => PlainMore(o, vis, more);
    case Prim(_, operands) =>
      forall i | 0 <= i < |operands| ensures Plain(operands[i], more) {
        PlainMore(operands[i], vis, more);
      }
    case And(a, b) =>
      PlainMore(a, vis, more);
      PlainMore(b, vis, more);
    case Or(a, b) =>
      PlainMore(a, vis, more);
      PlainMore(b, vis, more);
    case Construct(entries) =>
      forall k | k in entries ensures Plain(entries[k], more) {
        PlainMore(entries[k], vis, more);
      }
    case Effect(_, data) => PlainDataMore(data, vis, more);
    case _ =>
  }

  lemma {:induction false} PlainDataMore(d: Node, vis: set<string>, more: set<string>)
    requires PlainData(d, vis) && vis <= more
    ensures PlainData(d, more)
    decreases d, 1
  {
    if d.Arr? {
      forall i | 0 <= i < |d.items| ensures PlainData(d.items[i], more) {
        PlainDataMore(d.items[i], vis, more);
      }
    } else if d.Obj? {
      forall k | k in d.fields ensures PlainData(d.fields[k], more) {
        PlainDataMore(d.fields[k], vis, more);
      }
    } else {
      PlainMore(d, vis, more);
    }
  }

  // ----- what the lowering accepts -----

  /** Statements of the kinds that the lowering compiles; what cannot be reached does not
      count. */
  predicate Accepts(stmts: seq<Stmt>)
    decreases stmts
  {
    stmts != [] ==>
      match stmts[0]
      case Return(_) => true
      case ThrowStmt(_) => true
      case VarStmt(_, _) => Accepts(stmts[1..])
      case Assign(_, _) => Accepts(stmts[1..])
      case ExprStmt(_) => Accepts(stmts[1..])
      case IfStmt(_, then_, else_) =>
        && Accepts(then_) && (else_.Present? ==> Accepts(else_.stmts))
        && (AlwaysTerminates(stmts[0]) || Accepts(stmts[1..]))
      case _ => false
  }

  lemma {:induction false} AcceptsParts(a: seq<Stmt>, b: seq<Stmt>)
    requires Accepts(a + b)
    ensures Accepts(a) && (SomeTerminates(a) || Accepts(b))
    decreases a
  {
    if a == [] {
      assert a + b == b;
    } else {
      assert (a + b)[0] == a[0] && (a + b)[1..] == a[1..] + b;
      if !AlwaysTerminates(a[0]) {
        AcceptsParts(a[1..], b);
      } else if !a[0].Return? && !a[0].ThrowStmt? {
        assert a[0].IfStmt?;
      }
    }
  }

  lemma {:induction false} BranchAccepted(branch: seq<Stmt>, rest: seq<Stmt>)
    requires Accepts(BranchStmts(branch, rest))
    ensures Accepts(branch) && (SomeTerminates(branch) || Accepts(rest))
  {
    if !SomeTerminates(branch) {
      AcceptsParts(branch, rest);
    }
  }

  lemma {:induction false} EmittedAccepts(stmts: seq<Stmt>, shape: LoopShape, scopes: Scopes, counter: Counter,
                                          lastBound: Option<string>)
    requires scopes != [] && EmitLoop(stmts, shape, scopes, counter, lastBound).Emitted?
    ensures Accepts(stmts)
    decreases StmtsSize(stmts), |stmts|
  {
    if stmts != [] {
      var s, rest := stmts[0], stmts[1..];
      assert StmtsSize(stmts) == StmtSize(s) + StmtsSize(rest);
      match s
      case VarStmt(isLet, decls) =>
        assert StmtSize(s) == 1 + |decls|;
        EmittedDecls(isLet, decls, rest, shape, scopes, counter);
      case Assign(x, _) =>
        var scopes' := BumpVersion(x, scopes);
        EmittedAccepts(rest, shape, scopes', counter, Some(ResolveRef(x, scopes')));
      case ExprStmt(_) =>
        EmittedAccepts(rest, shape, scopes, Advance(counter, "discard"), Some(NextName(counter, "discard")));
      case IfStmt(_, then_, else_) =>
        var other := if else_.Present? then else_.stmts else [];
        assert StmtSize(s) == 1 + StmtsSize(then_) + (if else_.Present? then StmtsSize(else_.stmts) else 0);
        SizeAppend(then_, rest);
        SizeAppend(other, rest);
        EmittedAccepts(BranchStmts(then_, rest), shape, scopes, counter, None);
        var counter' := EmitLoop(BranchStmts(then_, rest), shape, scopes, counter, None).counter;
        assert [] + rest == rest;
        EmittedAccepts(BranchStmts(other, rest), shape, scopes, counter', None);
        BranchAccepted(then_, rest);
        BranchAccepted(other, rest);
      case _ =>
    }
  }

  lemma {:induction false} EmittedDecls(isLet: bool, decls: seq<Decl>, rest: seq<Stmt>, shape: LoopShape,
                                        scopes: Scopes, counter: Counter)
    requires scopes != [] && decls != []
    requires EmitDecls(isLet, decls, rest, shape, scopes, counter).Emitted?
    ensures Accepts(rest)
    decreases StmtsSize(rest) + |decls|, |rest|
  {
    var x := decls[0].name;
    var scopes' := DeclareBinding(x, isLet, scopes);
    if |decls| == 1 {
      EmittedAccepts(rest, shape, scopes', counter, Some(if isLet then Versioned(x, 0) else x));
    } else {
      EmittedDecls(isLet, decls[1..], rest, shape, scopes', counter);
    }
  }

  // ----- a run with the constant and a run without it -----

  /** What a list keeps of the store: its variables stay, and `c` does not appear. */
  predicate Keeps(x: Exit, store: Store, c: string)
  {
    (x.Fall? || x.Returned? || x.Thrown?) ==> store.Keys <= x.store.Keys && c !in x.store
  }

  lemma {:induction false} FrameDeclare(decls: seq<Decl>, store: Store, c: string, v: Node, answers: seq<Answer>,
                                        fuel: nat)
    requires DeclsScoped(decls, store.Keys) && c !in store && c !in DeclNames(decls)
    ensures var x := Declare(decls, store, answers, fuel);
            && Declare(decls, store[c := v], answers, fuel) == With(x, c, v) && Keeps(x, store, c)
            && (x.Fall? ==> x.store.Keys == store.Keys + DeclNames(decls))
    decreases |decls|
  {
    if decls != [] {
      ReadFrame(decls[0].init, store, c, v, answers, fuel);
      var o := Read(decls[0].init, store, answers, fuel);
      if o.Done? {
        var store' := store[decls[0].name := o.value];
        assert store[c := v][decls[0].name := o.value] == store'[c := v];
        assert store'.Keys == store.Keys + {decls[0].name};
        FrameDeclare(decls[1..], store', c, v, o.rest, fuel);
      }
    }
  }

  lemma {:induction false} FrameBlock(stmts: seq<Stmt>, mut: set<string>, store: Store, c: string, v: Node,
                                      consts: set<string>, lets: set<string>, targets: set<string>,
                                      answers: seq<Answer>, fuel: nat)
    requires Accepts(stmts) && WellScoped(stmts, store.Keys, mut) && Covered(stmts, consts, lets, targets)
    requires mut <= store.Keys && c !in store && c !in consts && c !in lets
    ensures var x := ExecBlock(stmts, store, answers, fuel);
            && ExecBlock(stmts, store[c := v], answers, fuel) == With(x, c, v) && Keeps(x, store, c)
            && (x.Fall? ==> x.store.Keys == store.Keys)
    decreases stmts, 4
  {
    FrameExec(stmts, mut, store, c, v, consts, lets, targets, answers, fuel);
    var x := Exec(stmts, store, answers, fuel);
    if x.Fall? || x.Returned? || x.Thrown? {
      assert Leave(x.store[c := v], store[c := v].Keys) == Leave(x.store, store.Keys)[c := v];
    }
  }

  lemma {:induction false} FrameExec(stmts: seq<Stmt>, mut: set<string>, store: Store, c: string, v: Node,
                                     consts: set<string>, lets: set<string>, targets: set<string>,
                                     answers: seq<Answer>, fuel: nat)
    requires Accepts(stmts) && WellScoped(stmts, store.Keys, mut) && Covered(stmts, consts, lets, targets)
    requires mut <= store.Keys && c !in store && c !in consts && c !in lets
    ensures var x := Exec(stmts, store, answers, fuel);
            Exec(stmts, store[c := v], answers, fuel) == With(x, c, v) && Keeps(x, store, c)
    decreases stmts, 3
  {
    hide Read, Plain;
    if stmts != [] {
      var s, rest := stmts[0], stmts[1..];
      FrameOne(stmts, mut, store, c, v, consts, lets, targets, answers, fuel);
      var x := ExecOne(s, store, answers, fuel);
      if x.Fall? {
        var declared := if s.VarStmt? then DeclNames(s.decls) else {};
        var mut' := if s.VarStmt? && s.isLet then mut + declared else mut;
        assert x.store.Keys == if s.VarStmt? then store.Keys + declared else store.Keys;
        FrameExec(rest, mut', x.store, c, v, consts, lets, targets, x.rest, fuel);
      }
    }
  }

  /** The first statement of a list. */
  lemma {:induction false} FrameOne(stmts: seq<Stmt>, mut: set<string>, store: Store, c: string, v: Node,
                                    consts: set<string>, lets: set<string>, targets: set<string>,
                                    answers: seq<Answer>, fuel: nat)
    requires stmts != [] && Accepts(stmts) && WellScoped(stmts, store.Keys, mut)
    requires Covered(stmts, consts, lets, targets)
    requires mut <= store.Keys && c !in store && c !in consts && c !in lets
    ensures var s, x := stmts[0], ExecOne(stmts[0], store, answers, fuel);
            && ExecOne(s, store[c := v], answers, fuel) == With(x, c, v) && Keeps(x, store, c)
            && (x.Fall? ==> x.store.Keys == store.Keys + (if s.VarStmt? then DeclNames(s.decls) else {}))
            && (x.Fall? ==> Accepts(stmts[1..]))
    decreases stmts, 2
  {
    hide Accepts, WellScoped, Covered, ExecOne, With, Keeps;
    if stmts[0].VarStmt? || stmts[0].Assign? {
      FrameBinding(stmts, mut, store, c, v, consts, lets, targets, answers, fuel);
    } else {
      FrameOther(stmts, mut, store, c, v, consts, lets, targets, answers, fuel);
    }
  }

  lemma {:induction false} FrameBinding(stmts: seq<Stmt>, mut: set<string>, store: Store, c: string, v: Node,
                                        consts: set<string>, lets: set<string>, targets: set<string>,
                                        answers: seq<Answer>, fuel: nat)
    requires stmts != [] && Accepts(stmts) && WellScoped(stmts, store.Keys, mut)
    requires Covered(stmts, consts, lets, targets) && (stmts[0].VarStmt? || stmts[0].Assign?)
    requires mut <= store.Keys && c !in store && c !in consts && c !in lets
    ensures var s, x := stmts[0], ExecOne(stmts[0], store, answers, fuel);
            && ExecOne(s, store[c := v], answers, fuel) == With(x, c, v) && Keeps(x, store, c)
            && (x.Fall? ==> x.store.Keys == store.Keys + (if s.VarStmt? then DeclNames(s.decls) else {}))
            && (x.Fall? ==> Accepts(stmts[1..]))
  {
    hide Read, Plain, Exec, ExecBlock, ExecWhile, Declare;
    match stmts[0]
    case VarStmt(_, decls) => FrameDeclare(decls, store, c, v, answers, fuel);
    case Assign(x, e) =>
      ReadFrame(e, store, c, v, answers, fuel);
      var o := Read(e, store, answers, fuel);
      if o.Done? {
        assert store[c := v][x := o.value] == store[x := o.value][c := v];
      }
  }

  lemma {:induction false} FrameOther(stmts: seq<Stmt>, mut: set<string>, store: Store, c: string, v: Node,
                                      consts: set<string>, lets: set<string>, targets: set<string>,
                                      answers: seq<Answer>, fuel: nat)
    requires stmts != [] && Accepts(stmts) && WellScoped(stmts, store.Keys, mut)
    requires Covered(stmts, consts, lets, targets) && !stmts[0].VarStmt? && !stmts[0].Assign?
    requires mut <= store.Keys && c !in store && c !in consts && c !in lets
    ensures var s, x := stmts[0], ExecOne(stmts[0], store, answers, fuel);
            && ExecOne(s, store[c := v], answers, fuel) == With(x, c, v) && Keeps(x, store, c)
            && (x.Fall? ==> x.store.Keys == store.Keys && Accepts(stmts[1..]))
    decreases stmts, 1
  {
    hide Accepts, WellScoped, Covered, ExecOne, With, Keeps;
    if stmts[0].IfStmt? {
      FrameIf(stmts, mut, store, c, v, consts, lets, targets, answers, fuel);
    } else {
      FrameReads(stmts, mut, store, c, v, consts, lets, targets, answers, fuel);
    }
  }

  lemma {:induction false} FrameReads(stmts: seq<Stmt>, mut: set<string>, store: Store, c: string, v: Node,
                                      consts: set<string>, lets: set<string>, targets: set<string>,
                                      answers: seq<Answer>, fuel: nat)
    requires stmts != [] && Accepts(stmts) && WellScoped(stmts, store.Keys, mut)
    requires Covered(stmts, consts, lets, targets)
    requires !stmts[0].VarStmt? && !stmts[0].Assign? && !stmts[0].IfStmt?
    requires mut <= store.Keys && c !in store && c !in consts && c !in lets
    ensures var s, x := stmts[0], ExecOne(stmts[0], store, answers, fuel);
            && ExecOne(s, store[c := v], answers, fuel) == With(x, c, v) && Keeps(x, store, c)
            && (x.Fall? ==> x.store.Keys == store.Keys && Accepts(stmts[1..]))
  {
    hide Read, Plain, Exec, ExecBlock, ExecWhile, Declare;
    match stmts[0]
    case ExprStmt(e) => ReadFrame(e, store, c, v, answers, fuel);
    case Return(r) =>
      if r.Some? {
        ReadFrame(r.value, store, c, v, answers, fuel);
      }
    case ThrowStmt(m) => ReadFrame(m, store, c, v, answers, fuel);
    case _ =>
  }

  lemma {:induction false} FrameIf(stmts: seq<Stmt>, mut: set<string>, store: Store, c: string, v: Node,
                                   consts: set<string>, lets: set<string>, targets: set<string>,
                                   answers: seq<Answer>, fuel: nat)
    requires stmts != [] && stmts[0].IfStmt? && Accepts(stmts) && WellScoped(stmts, store.Keys, mut)
    requires Covered(stmts, consts, lets, targets)
    requires mut <= store.Keys && c !in store && c !in consts && c !in lets
    ensures var x := ExecOne(stmts[0], store, answers, fuel);
            && ExecOne(stmts[0], store[c := v], answers, fuel) == With(x, c, v) && Keeps(x, store, c)
            && (x.Fall? ==> x.store.Keys == store.Keys && Accepts(stmts[1..]))
    decreases stmts, 0
  {
    hide Read, Plain;
    var s := stmts[0];
    ReadFrame(s.cond, store, c, v, answers, fuel);
    var o := Read(s.cond, store, answers, fuel);
    if o.Done? {
      if Truthy(o.value) {
        FrameBlock(s.then_, mut, store, c, v, consts, lets, targets, o.rest, fuel);
      } else if s.else_.Present? {
        FrameBlock(s.else_.stmts, mut, store, c, v, consts, lets, targets, o.rest, fuel);
      }
    }
    if AlwaysTerminates(s) {
      TerminatingNeverFalls(s, store, answers, fuel);
    }
  }

  lemma {:induction false} FrameWhile(w: Stmt, mut: set<string>, store: Store, c: string, v: Node,
                                      consts: set<string>, lets: set<string>, targets: set<string>,
                                      answers: seq<Answer>, fuel: nat)
    requires w.WhileStmt? && Accepts(w.body) && WellScoped(w.body, store.Keys, mut)
    requires Covered(w.body, consts, lets, targets) && (w.test.Some? ==> Plain(w.test.value, store.Keys))
    requires mut <= store.Keys && c !in store && c !in consts && c !in lets
    ensures var x := ExecWhile(w, store, answers, fuel);
            ExecWhile(w, store[c := v], answers, fuel) == With(x, c, v) && Keeps(x, store, c)
    decreases fuel
  {
    hide Read, Plain, ExecBlock;
    if fuel > 0 {
      if w.test.Some? {
        ReadFrame(w.test.value, store, c, v, answers, fuel - 1);
      }
      var o := if w.test.Some? then Read(w.test.value, store, answers, fuel - 1) else Done(Bool(true), answers);
      if o.Done? && Truthy(o.value) {
        FrameBlock(w.body, mut, store, c, v, consts, lets, targets, o.rest, fuel - 1);
        var x := ExecBlock(w.body, store, o.rest, fuel - 1);
        if x.Fall? {
          FrameWhile(w, mut, x.store, c, v, consts, lets, targets, x.rest, fuel - 1);
        }
      }
    }
  }

  // ----- what the code after the loop reads -----

  /** The constant `c` is in scope where the loop is lowered; without it everything is as the
      lowering expects. */
  ghost predicate WithConstant(w: Stmt, scopes: Scopes, store: Store, env: Env, consts: set<string>, lets: set<string>,
                               c: string)
    requires w.WhileStmt?
  {
    && scopes != [] && c in store && !Reserved(c) && !IsLetBinding(c, scopes) && c !in consts && c !in lets
    && Lookup(c, env) == Some(store[c])
    && LoopContext(w, scopes, store - {c}, env, consts, lets) && IsCaseB(w, scopes)
  }

  /** The loop variable `x` leaves the loop under the name `c`. */
  predicate Takes(l: Lowered, scopes: Scopes, x: string, c: string)
    requires l.Lowered?
  {
    x in l.shape.carried && c == Versioned(x, InfoOf(x, scopes).version + 1)
  }

  lemma {:induction false} ConstantKept(w: Stmt, scopes: Scopes, counter: Counter, store: Store, env: Env,
                                        consts: set<string>, lets: set<string>, c: string,
                                        answers: seq<Answer>, fuel: nat)
    requires w.WhileStmt? && WithConstant(w, scopes, store, env, consts, lets, c)
    requires LowerLoop(w, scopes, counter).Lowered?
    ensures var x := ExecWhile(w, store - {c}, answers, fuel);
            ExecWhile(w, store, answers, fuel) == With(x, c, store[c]) && Keeps(x, store - {c}, c)
  {
    hide ExecWhile, EmitLoop, WellScoped, Covered, NoClash, Represents;
    EmittedAccepts(w.body, ShapeOf(w, scopes, counter), scopes, BodyCounter(w, counter), None);
    var without := store - {c};
    assert without[c := store[c]] == store;
    var targets := set x | x in Assigned(w.body, []);
    FrameWhile(w, Mutable(without, scopes), without, c, store[c], consts, lets, targets, answers, fuel);
  }

  /** After the loop the constant has the IR name that its spelling says, and so has a loop
      variable that takes it. */
  lemma {:induction false} NamesAfter(w: Stmt, scopes: Scopes, counter: Counter, store: Store, env: Env,
                                      consts: set<string>, lets: set<string>, c: string)
    requires w.WhileStmt? && LoopContext(w, scopes, store, env, consts, lets) && !IsLetBinding(c, scopes)
    requires LowerLoop(w, scopes, counter).Lowered?
    ensures var l := LowerLoop(w, scopes, counter);
            && ResolveRef(c, l.scopes) == c
            && (forall x :: Takes(l, scopes, x, c) ==> ResolveRef(x, l.scopes) == c)
            && (c in l.rebound ==> exists x :: Takes(l, scopes, x, c))
  {
    hide LowerLoop, WellScoped, Covered, NoClash, Represents, LowersTo, Takes, IsLetBinding;
    var l := LowerLoop(w, scopes, counter);
    var world := WorldOf(w, scopes, counter, store, consts, lets);
    LoopWorld(w, scopes, counter, store, env, consts, lets);
    ConstantName(world, l, c);
    forall x | Takes(l, scopes, x, c) ensures ResolveRef(x, l.scopes) == c {
      TakenName(world, l, x, c);
    }
    if c in l.rebound {
      RebindingTakes(world, l, c);
    }
  }

  lemma {:induction false} ConstantName(world: World, l: Lowered, c: string)
    requires LowersTo(world, l) && !IsLetBinding(c, world.base)
    ensures ResolveRef(c, l.scopes) == c
  {
    hide GoodWorld;
    WorldCarriedLets(world);
    ScopesAfter(world, c);
  }

  lemma {:induction false} TakenName(world: World, l: Lowered, x: string, c: string)
    requires LowersTo(world, l) && Takes(l, world.base, x, c)
    ensures ResolveRef(x, l.scopes) == c
  {
    hide GoodWorld;
    WorldCarriedLets(world);
    ScopesAfter(world, x);
  }

  lemma {:induction false} RebindingTakes(world: World, l: Lowered, c: string)
    requires LowersTo(world, l) && c in l.rebound
    ensures exists x :: Takes(l, world.base, x, c)
  {
    hide GoodWorld, LookupBinding, BumpAll, LoopFn, ResolveRef, Synthetic, Distinct, Decimal;
    WorldCarriedLets(world);
    WorldBasics(world);
    ReboundNames(world);
    var i :| 0 <= i < |l.rebound| && l.rebound[i] == c;
    assert Takes(l, world.base, l.shape.carried[i], c);
  }

  /** What the code after a loop reads for a constant: the constant, unless its spelling is
      the name under which a loop variable leaves the loop, and then that variable. */
  lemma {:induction false} ConstantReads(w: Stmt, scopes: Scopes, counter: Counter, store: Store, env: Env,
                                         consts: set<string>, lets: set<string>, c: string,
                                         answers: seq<Answer>, fuel: nat)
    requires w.WhileStmt? && WithConstant(w, scopes, store, env, consts, lets, c)
    requires LowerLoop(w, scopes, counter).Lowered?
    requires forall x :: x in LowerLoop(w, scopes, counter).shape.carried ==> x in store
    requires ExecWhile(w, store, answers, fuel).Fall?
    ensures var l := LowerLoop(w, scopes, counter);
            var exit := ExecWhile(w, store, answers, fuel);
            var out := Eval(Assemble(l, EmitExpr(Ref(c), l.scopes)), env, answers, fuel);
            && c in exit.store && exit.store[c] == store[c]
            && (forall x :: Takes(l, scopes, x, c) ==> x in exit.store && out == Done(exit.store[x], exit.rest))
            && ((forall x :: !Takes(l, scopes, x, c)) ==> out == Done(store[c], exit.rest))
  {
    hide LowerLoop, ExecWhile, Eval, Assemble, LoopContext, Takes, ResolveRef;
    var l := LowerLoop(w, scopes, counter);
    var without, code := store - {c}, EmitExpr(Ref(c), l.scopes);
    ConstantKept(w, scopes, counter, store, env, consts, lets, c, answers, fuel);
    NamesAfter(w, scopes, counter, without, env, consts, lets, c);
    var env' := LoweringPreservesMeaning(w, scopes, counter, without, env, consts, lets, code, answers, fuel);
    var x := ExecWhile(w, without, answers, fuel);
    RefRead(c, env', x.rest, fuel);
    forall y | Takes(l, scopes, y, c)
      ensures y in x.store && y != c && Lookup(c, env') == Some(x.store[y])
    {
      TakenInStore(l, scopes, y, c);
    }
    if forall y :: !Takes(l, scopes, y, c) {
      UserNamesNotSynthetic(c, 0);
    }
  }

  lemma {:induction false} TakenInStore(l: Lowered, scopes: Scopes, x: string, c: string)
    requires l.Lowered? && Takes(l, scopes, x, c)
    ensures x in l.shape.carried && x != c
  {
    assert |Versioned(x, InfoOf(x, scopes).version + 1)| > |x|;
  }

  lemma {:induction false} RefRead(c: string, env: Env, answers: seq<Answer>, fuel: nat)
    ensures Lookup(c, env).Some? ==> Eval(Ref(c), env, answers, fuel) == Done(Lookup(c, env).value, answers)
  {
  }

  /** The code after a loop reads a constant right exactly when each loop variable that leaves
      the loop under the constant's spelling happens to leave it with the constant's value. */
  lemma {:induction false} ConstantMisread(w: Stmt, scopes: Scopes, counter: Counter, store: Store, env: Env,
                                           consts: set<string>, lets: set<string>, c: string,
                                           answers: seq<Answer>, fuel: nat)
    requires w.WhileStmt? && WithConstant(w, scopes, store, env, consts, lets, c)
    requires LowerLoop(w, scopes, counter).Lowered?
    requires forall x :: x in LowerLoop(w, scopes, counter).shape.carried ==> x in store
    requires ExecWhile(w, store, answers, fuel).Fall?
    ensures var l := LowerLoop(w, scopes, counter);
            var exit := ExecWhile(w, store, answers, fuel);
            && c in exit.store
            && (Eval(Assemble(l, EmitExpr(Ref(c), l.scopes)), env, answers, fuel) == Done(exit.store[c], exit.rest)
                <==> forall x :: Takes(l, scopes, x, c) ==> x in exit.store && exit.store[x] == exit.store[c])
  {
    hide LowerLoop, ExecWhile, Eval, Assemble, Takes, WellScoped, Covered, NoClash, Represents;
    ConstantReads(w, scopes, counter, store, env, consts, lets, c, answers, fuel);
  }

  // ----- a program that is compiled wrong -----

  /** `let x = 1; const x_1 = 5; while (x) { x = 0; } return x_1;` */
  const ClashLoop := WhileStmt(Some(Ref("x")), [Assign("x", Num(0))])

  const ClashScopes: Scopes := [map["x" := Info(true, 0), "x_1" := Info(false, 0)]]

  const ClashStore: Store := map["x" := Num(1), "x_1" := Num(5)]

  const ClashEnv: Env := Frame(map["x_0" := Num(1), "x_1" := Num(5)], Empty)

  lemma {:induction false} ClashNames()
    ensures LookupBinding("x", ClashScopes) == Some(Info(true, 0)) && ResolveRef("x", ClashScopes) == "x_0"
    ensures forall x :: IsLetBinding(x, ClashScopes) <==> x == "x"
    ensures Assigned(ClashLoop.body, []) == ["x"]
  {
    assert ClashScopes[..0] == [] && ClashLoop.body[1..] == [];
    assert Versioned("x", 0) == "x_0";
    forall x ensures IsLetBinding(x, ClashScopes) <==> x == "x" {
      assert LookupBinding(x, ClashScopes[..0]) == None;
    }
    assert Assigned(ClashLoop.body, []) == Assigned([], ["x"]) == ["x"];
  }

  lemma {:induction false} ClashScoped()
    ensures var targets := set x | x in Assigned(ClashLoop.body, []);
            Covered(ClashLoop.body, {}, {"x"}, targets) && WellScoped(ClashLoop.body, {"x"}, {"x"})
  {
    ClashNames();
    assert ClashLoop.body[1..] == [];
    assert WellScoped([], {"x"}, {"x"});
  }

  lemma {:induction false} ClashContext()
    ensures WithConstant(ClashLoop, ClashScopes, ClashStore, ClashEnv, {}, {"x"}, "x_1")
  {
    hide WellScoped, Covered, LookupBinding, IsLetBinding, ResolveRef, Assigned;
    var without := ClashStore - {"x_1"};
    assert without == map["x" := Num(1)] && without.Keys == {"x"};
    ClashNames();
    ClashScoped();
    assert Mutable(without, ClashScopes) == {"x"};
    assert Represents(ClashEnv, ClashScopes, without);
    assert Plain(Ref("x"), without.Keys);
    assert Carried(["x"], ClashScopes) == ["x"] + Carried([], ClashScopes);
  }

  lemma {:induction false} ClashRun(fuel: nat)
    requires fuel >= 2
    ensures ExecWhile(ClashLoop, ClashStore, [], fuel) == Fall(map["x" := Num(0), "x_1" := Num(5)], [])
  {
    var after: Store := map["x" := Num(0), "x_1" := Num(5)];
    assert ClashLoop.body[1..] == [];
    assert ClashStore["x" := Num(0)] == after;
    assert Leave(after, ClashStore.Keys) == after;
    assert Exec([], after, [], fuel - 1) == Fall(after, []);
    assert Exec(ClashLoop.body, ClashStore, [], fuel - 1) == Fall(after, []);
    assert ExecWhile(ClashLoop, after, [], fuel - 1) == Fall(after, []);
  }

  lemma {:induction false} ClashLowers()
    ensures LowerLoop(ClashLoop, ClashScopes, map[]).Lowered?
    ensures LowerLoop(ClashLoop, ClashScopes, map[]).shape.carried == ["x"]
    ensures |LowerLoop(ClashLoop, ClashScopes, map[]).rebound| == 1
  {
    hide LookupBinding, ResolveRef, Assigned, BumpAll, CounterName;
    ClashNames();
    assert ClashLoop.body[1..] == [];
    assert Carried(["x"], ClashScopes) == ["x"] + Carried([], ClashScopes);
  }

  /** The source returns 5, the lowered program 0. */
  lemma {:induction false} ClashReadsLoopVariable(fuel: nat)
    requires fuel >= 2
    ensures var l := LowerLoop(ClashLoop, ClashScopes, map[]);
            var exit := ExecWhile(ClashLoop, ClashStore, [], fuel);
            && l.Lowered? && |l.rebound| == |l.shape.carried|
            && exit.Fall? && Read(Ref("x_1"), exit.store, [], fuel) == Done(Num(5), [])
            && Eval(Assemble(l, EmitExpr(Ref("x_1"), l.scopes)), ClashEnv, [], fuel) == Done(Num(0), [])
  {
    hide Assemble, LowerLoop, ExecWhile, WithConstant, LookupBinding;
    ClashContext();
    ClashRun(fuel);
    ClashLowers();
    ClashNames();
    var l := LowerLoop(ClashLoop, ClashScopes, map[]);
    ConstantReads(ClashLoop, ClashScopes, map[], ClashStore, ClashEnv, {}, {"x"}, "x_1", [], fuel);
    assert Takes(l, ClashScopes, "x", "x_1");
  }
}
