/** The relation between a running source loop and its lowered form, and how each kind of
    binding keeps it. */
module LoweringState {
  import opened Text
  import opened Ir
  import opened Kernel
  import opened Source
  import opened Emit
  import opened LoweringBasics

  // ----- well-scoped statements -----

  /** Every name is visible where it is read, assigned names are `let` variables, and no
      declaration shadows a visible name. Statements the lowering rejects are not looked
      into. */
  predicate WellScoped(stmts: seq<Stmt>, vis: set<string>, mut: set<string>)
    decreases stmts, 2
  {
    stmts != [] ==>
      match stmts[0]
      case VarStmt(isLet, decls) =>
        && DeclsScoped(decls, vis)
        && WellScoped(stmts[1..], vis + DeclNames(decls), if isLet then mut + DeclNames(decls) else mut)
      case Assign(x, e) => x in mut && Plain(e, vis) && WellScoped(stmts[1..], vis, mut)
      case ExprStmt(e) => Plain(e, vis) && WellScoped(stmts[1..], vis, mut)
      case IfStmt(c, then_, else_) =>
        && Plain(c, vis) && WellScoped(then_, vis, mut)
        && (else_.Present? ==> WellScoped(else_.stmts, vis, mut))
        && WellScoped(stmts[1..], vis, mut)
      case Return(r) => (r.Some? ==> Plain(r.value, vis)) && WellScoped(stmts[1..], vis, mut)
      case ThrowStmt(m) => Plain(m, vis) && WellScoped(stmts[1..], vis, mut)
      case _ => WellScoped(stmts[1..], vis, mut)
  }

  function DeclNames(decls: seq<Decl>): set<string>
  {
    if decls == [] then {} else {decls[0].name} + DeclNames(decls[1..])
  }

  predicate DeclsScoped(decls: seq<Decl>, vis: set<string>)
  {
    decls != [] ==>
      decls[0].name !in vis && Plain(decls[0].init, vis) && DeclsScoped(decls[1..], vis + {decls[0].name})
  }

  /** Names the statements may declare (by kind) and assign. */
  predicate Covered(stmts: seq<Stmt>, consts: set<string>, lets: set<string>, targets: set<string>)
    decreases stmts, 2
  {
    stmts != [] ==>
      && Covered(stmts[1..], consts, lets, targets)
      && match stmts[0]
         case VarStmt(isLet, decls) => DeclNames(decls) <= (if isLet then lets else consts)
         case Assign(x, _) => x in targets
         case IfStmt(_, then_, else_) =>
           && Covered(then_, consts, lets, targets)
           && (else_.Present? ==> Covered(else_.stmts, consts, lets, targets))
         case _ => true
  }

  // ----- the loop under consideration -----

  datatype World = World(
    loop: Stmt, base: Scopes, counter: Counter,   // where the loop is compiled
    entry: Store,                                 // the store when it is entered
    consts: set<string>, lets: set<string>,       // its names, by kind
    shape: LoopShape, code: Node)                 // what it compiles to

  function Targets(w: World): set<string>
    requires w.loop.WhileStmt?
  {
    set x | x in Assigned(w.loop.body, [])
  }

  function Params(w: World): seq<string>
  {
    ParamNames(w.shape.carried, w.base) + (if w.shape.last.Some? then [w.shape.last.value] else [])
  }

  function LoopFn(w: World): (f: Node)
    ensures f.Fn? && f.params == Params(w)
  {
    LoopFunction(w.loop, w.shape, w.base, w.code)
  }

  function Mutable(store: Store, scopes: Scopes): set<string>
  {
    set x | x in store && IsLetBinding(x, scopes)
  }

  ghost predicate GoodWorld(w: World)
  {
    && w.loop.WhileStmt? && w.base != []
    && (w.loop.test.Some? <==> w.shape.last.Some?)
    && w.shape.carried == Carried(Assigned(w.loop.body, []), w.base)
    && Distinct(w.shape.carried)
    && w.shape.pack == ContainsReturn(w.loop.body)
    && Synthetic(w.shape.name) && |w.shape.name| > 3 && w.shape.name[3] == 'o'
    && (w.shape.last.Some? ==>
          Synthetic(w.shape.last.value) && |w.shape.last.value| > 3 && w.shape.last.value[3] == 'a')
    && (var e := EmitLoop(w.loop.body, w.shape, w.base, w.counter, None); e.Emitted? && e.code == w.code)
    && NoClash(w.consts, w.lets) && Named(w, w.base, w.entry)
    && Covered(w.loop.body, w.consts, w.lets, Targets(w))
    && WellScoped(w.loop.body, w.entry.Keys, Mutable(w.entry, w.base))
    && (w.loop.test.Some? ==> Plain(w.loop.test.value, w.entry.Keys))
  }

  lemma {:induction false} CarriedSound(names: seq<string>, scopes: Scopes)
    requires Distinct(names)
    ensures Distinct(Carried(names, scopes))
    ensures forall x :: x in Carried(names, scopes) <==> x in names && IsLetBinding(x, scopes)
  {
    if names != [] {
      CarriedSound(names[1..], scopes);
      assert names == [names[0]] + names[1..];
      assert names[0] !in names[1..];
    }
  }

  // ----- the invariant -----

  /** The kind and version under which a name is referred to. */
  function InfoOf(x: string, scopes: Scopes): Info
  {
    var found := LookupBinding(x, scopes);
    if found.Some? then found.value else Info(false, 0)
  }

  /** At a point of the loop body: `env` represents `store`, the loop function is in reach,
      and outer variables that the loop does not carry are as they were on entry. */
  ghost predicate Holds(w: World, mut: set<string>, scopes: Scopes, store: Store, env: Env)
  {
    && scopes != []
    && w.entry.Keys <= store.Keys
    && Represents(env, scopes, store)
    && mut == Mutable(store, scopes)
    && Named(w, scopes, store)
    && Lookup(w.shape.name, env) == Some(LoopFn(w))
    && OuterKept(w, scopes, store)
    && (forall v :: v in w.shape.carried ==> Lookup(ResolveRef(v, scopes), env).Some?)
  }

  ghost predicate Named(w: World, scopes: Scopes, store: Store)
  {
    && (forall x :: x in store ==>
          !Reserved(x) && (if IsLetBinding(x, scopes) then x in w.lets else x in w.consts))
    && (forall x :: IsLetBinding(x, scopes) ==> x in w.lets && !Reserved(x))
  }

  ghost predicate OuterKept(w: World, scopes: Scopes, store: Store)
  {
    forall x :: x in w.entry ==>
      && IsLetBinding(x, scopes) == IsLetBinding(x, w.base)
      && (x !in w.shape.carried ==>
            LookupBinding(x, scopes) == LookupBinding(x, w.base) && x in store && store[x] == w.entry[x])
  }

  lemma {:induction false} NameOfStored(w: World, scopes: Scopes, store: Store, y: string)
    requires Named(w, scopes, store) && y in store
    ensures ResolveRef(y, scopes) == InfoName(y, InfoOf(y, scopes))
    ensures if InfoOf(y, scopes).isLet then y in w.lets else y in w.consts
    ensures !Synthetic(ResolveRef(y, scopes))
  {
    UserNamesNotSynthetic(y, InfoOf(y, scopes).version);
  }

  /** `scopes'` is `scopes` except for the binding of `x`. */
  ghost predicate Rebinds(scopes: Scopes, scopes': Scopes, x: string, info: Info)
  {
    forall y :: LookupBinding(y, scopes') == if y == x then Some(info) else LookupBinding(y, scopes)
  }

  /** `x` may take the binding `info` here: it is a fresh declaration, or a new version of
      a visible `let` variable that the loop carries if it is an outer one. */
  ghost predicate MayBind(w: World, scopes: Scopes, store: Store, x: string, info: Info)
  {
    && !Reserved(x) && (if info.isLet then x in w.lets else x in w.consts)
    && (x in store ==> info.isLet && IsLetBinding(x, scopes))
    && (x in w.entry ==> x in w.shape.carried && info.isLet && IsLetBinding(x, w.base))
  }

  lemma {:induction false} RepresentsBind(w: World, scopes: Scopes, scopes': Scopes, store: Store, env: Env,
                                          x: string, info: Info, v: Node)
    requires NoClash(w.consts, w.lets) && Named(w, scopes, store) && Represents(env, scopes, store)
    requires Rebinds(scopes, scopes', x, info) && MayBind(w, scopes, store, x, info)
    ensures Represents(Extend(env, InfoName(x, info), v), scopes', store[x := v])
  {
    var env' := Extend(env, InfoName(x, info), v);
    forall y | y in store[x := v] ensures Lookup(ResolveRef(y, scopes'), env') == Some(store[x := v][y]) {
      if y != x {
        NameOfStored(w, scopes, store, y);
        NoClashApart(y, InfoOf(y, scopes), x, info, w.consts, w.lets);
        assert ResolveRef(y, scopes') == ResolveRef(y, scopes);
      }
    }
  }

  /** Binding a source variable, new or a new version, under its IR name. */
  lemma {:induction false} HoldsBind(w: World, mut: set<string>, scopes: Scopes, scopes': Scopes, store: Store,
                                     env: Env,
                  x: string, info: Info, v: Node)
    requires NoClash(w.consts, w.lets) && Synthetic(w.shape.name)
    requires Holds(w, mut, scopes, store, env) && scopes' != []
    requires Rebinds(scopes, scopes', x, info) && MayBind(w, scopes, store, x, info)
    ensures Holds(w, if info.isLet then mut + {x} else mut, scopes', store[x := v],
                  Extend(env, InfoName(x, info), v))
  {
    var store', env' := store[x := v], Extend(env, InfoName(x, info), v);
    RepresentsBind(w, scopes, scopes', store, env, x, info, v);
    UserNamesNotSynthetic(x, info.version);
    assert forall y :: y != x ==> IsLetBinding(y, scopes') == IsLetBinding(y, scopes);
    assert IsLetBinding(x, scopes') == info.isLet;
    assert Mutable(store', scopes') == if info.isLet then mut + {x} else mut;
    assert Named(w, scopes', store');
    assert OuterKept(w, scopes', store');
    forall c | c in w.shape.carried ensures Lookup(ResolveRef(c, scopes'), env').Some? {
      if c != x {
        assert ResolveRef(c, scopes') == ResolveRef(c, scopes);
      }
    }
  }

  /** A new source variable. */
  lemma {:induction false} HoldsDeclare(w: World, mut: set<string>, scopes: Scopes, store: Store, env: Env, x: string,
                     isLet: bool, v: Node)
    requires NoClash(w.consts, w.lets) && Synthetic(w.shape.name)
    requires Holds(w, mut, scopes, store, env)
    requires x !in store && !Reserved(x) && (if isLet then x in w.lets else x in w.consts)
    ensures var name := if isLet then Versioned(x, 0) else x;
            Holds(w, if isLet then mut + {x} else mut, DeclareBinding(x, isLet, scopes), store[x := v],
                  Extend(env, name, v))
  {
    forall y ensures LookupBinding(y, DeclareBinding(x, isLet, scopes)) ==
                     if y == x then Some(Info(isLet, 0)) else LookupBinding(y, scopes)
    {
      DeclaredLookup(x, isLet, scopes, y);
    }
    HoldsBind(w, mut, scopes, DeclareBinding(x, isLet, scopes), store, env, x, Info(isLet, 0), v);
  }

  /** A `let` variable gets a new version. */
  lemma {:induction false} HoldsAssign(w: World, mut: set<string>, scopes: Scopes, store: Store, env: Env, x: string,
                                       v: Node)
    requires NoClash(w.consts, w.lets) && Synthetic(w.shape.name)
    requires Holds(w, mut, scopes, store, env)
    requires x in mut && (x in w.entry ==> x in w.shape.carried)
    ensures var scopes' := BumpVersion(x, scopes);
            Holds(w, mut, scopes', store[x := v], Extend(env, ResolveRef(x, scopes'), v))
  {
    var scopes' := BumpVersion(x, scopes);
    var info := InfoOf(x, scopes).(version := InfoOf(x, scopes).version + 1);
    forall y ensures LookupBinding(y, scopes') == if y == x then Some(info) else LookupBinding(y, scopes) {
      BumpedLookup(x, scopes, y);
    }
    assert x in store && IsLetBinding(x, scopes);
    assert MayBind(w, scopes, store, x, info);
    HoldsBind(w, mut, scopes, scopes', store, env, x, info, v);
    assert mut + {x} == mut;
  }

  /** A synthetic binding other than the loop's own. */
  lemma {:induction false} HoldsDiscard(w: World, mut: set<string>, scopes: Scopes, store: Store, env: Env,
                                        name: string, v: Node)
    requires Holds(w, mut, scopes, store, env)
    requires Synthetic(name) && name != w.shape.name
    ensures Holds(w, mut, scopes, store, Extend(env, name, v))
  {
    forall y | y in store ensures Lookup(ResolveRef(y, scopes), Extend(env, name, v)) == Some(store[y]) {
      NameOfStored(w, scopes, store, y);
    }
  }

  /** The end of a block. */
  lemma {:induction false} HoldsLeave(w: World, mut: set<string>, scopes: Scopes, store: Store, env: Env,
                                      outer: set<string>)
    requires Holds(w, mut, scopes, store, env)
    requires w.entry.Keys <= outer
    ensures Holds(w, mut * outer, scopes, Leave(store, outer), env)
  {
    var store' := Leave(store, outer);
    assert Mutable(store', scopes) == mut * outer;
    assert Named(w, scopes, store');
    assert OuterKept(w, scopes, store');
  }

  /** The carried variables are the `let` variables of the base scopes among distinct names. */
  ghost predicate CarriedLets(w: World)
  {
    && Distinct(w.shape.carried)
    && (forall x :: x in w.shape.carried ==> IsLetBinding(x, w.base))
    && (w.shape.last.Some? ==> Synthetic(w.shape.last.value))
  }

  lemma {:induction false} ParamsDistinct(w: World, store: Store)
    requires CarriedLets(w) && Named(w, w.base, store)
    ensures Distinct(Params(w))
    ensures forall i :: 0 <= i < |w.shape.carried| ==>
              Params(w)[i] == ResolveRef(w.shape.carried[i], w.base) && !Synthetic(Params(w)[i])
  {
    var carried := w.shape.carried;
    forall i | 0 <= i < |carried|
      ensures ResolveRef(carried[i], w.base) == Versioned(carried[i], InfoOf(carried[i], w.base).version)
      ensures !Synthetic(Params(w)[i])
    {
      assert carried[i] in carried;
      UserNamesNotSynthetic(carried[i], InfoOf(carried[i], w.base).version);
    }
    forall i, j | 0 <= i < j < |Params(w)| ensures Params(w)[i] != Params(w)[j] {
      if j < |carried| && Params(w)[i] == Params(w)[j] {
        VersionedInjective(carried[i], InfoOf(carried[i], w.base).version,
                           carried[j], InfoOf(carried[j], w.base).version);
      }
    }
  }

  lemma {:induction false} AssignedDistinct(stmts: seq<Stmt>, seen: seq<string>)
    requires Distinct(seen)
    ensures Distinct(Assigned(stmts, seen))
    ensures forall x :: x in seen ==> x in Assigned(stmts, seen)
    decreases stmts, 2
  {
    if stmts != [] {
      AssignedOneDistinct(stmts[0], seen);
      AssignedDistinct(stmts[1..], AssignedOne(stmts[0], seen));
    }
  }

  lemma {:induction false} AssignedOneDistinct(s: Stmt, seen: seq<string>)
    requires Distinct(seen)
    ensures Distinct(AssignedOne(s, seen))
    ensures forall x :: x in seen ==> x in AssignedOne(s, seen)
    decreases s, 1
  {
    match s
    case IfStmt(_, then_, else_) =>
      AssignedDistinct(then_, seen);
      if else_.Present? {
        AssignedDistinct(else_.stmts, Assigned(then_, seen));
      }
    case WhileStmt(_, body) => AssignedDistinct(body, seen);
    case Block(stmts) => AssignedDistinct(stmts, seen);
    case TryStmt(tried, handler, finalizer) =>
      AssignedDistinct(tried, seen);
      var a := Assigned(tried, seen);
      if handler.Some? {
        AssignedDistinct(handler.value.body, a);
      }
      var b := if handler.Some? then Assigned(handler.value.body, a) else a;
      if finalizer.Present? {
        AssignedDistinct(finalizer.stmts, b);
      }
    case _ =>
  }

  lemma {:induction false} WorldCarriedLets(w: World)
    requires GoodWorld(w)
    ensures CarriedLets(w)
    ensures forall x :: x in Targets(w) && IsLetBinding(x, w.base) ==> x in w.shape.carried
  {
    AssignedDistinct(w.loop.body, []);
    CarriedSound(Assigned(w.loop.body, []), w.base);
  }

  /** The parameters of the loop function bound to `values` above `env`. */
  lemma {:induction false} ParamsBound(w: World, store: Store, env: Env, values: seq<Node>)
    requires CarriedLets(w) && Named(w, w.base, store) && |values| == |Params(w)|
    ensures var env' := ExtendMulti(env, Params(w), values);
            && (forall i :: 0 <= i < |w.shape.carried| ==>
                  Lookup(ResolveRef(w.shape.carried[i], w.base), env') == Some(values[i]))
            && (w.shape.last.Some? ==> Lookup(w.shape.last.value, env').Some?)
            && (forall n :: n !in Params(w) ==> Lookup(n, env') == Lookup(n, env))
  {
    ParamsDistinct(w, store);
    BindingsAt(Params(w), values);
    var carried := w.shape.carried;
    forall i | 0 <= i < |carried|
      ensures Lookup(ResolveRef(carried[i], w.base), ExtendMulti(env, Params(w), values)) == Some(values[i])
    {
      assert Params(w)[i] in Params(w);
    }
    if w.shape.last.Some? {
      assert Params(w)[|carried|] == w.shape.last.value && Params(w)[|carried|] in Params(w);
    }
  }

  /** A variable that is not carried is not hidden by a parameter. */
  lemma {:induction false} NotAParam(w: World, store: Store, x: string)
    requires CarriedLets(w) && Named(w, w.base, store) && NoClash(w.consts, w.lets)
    requires x in store && x !in w.shape.carried
    ensures ResolveRef(x, w.base) !in Params(w)
  {
    NameOfStored(w, w.base, store, x);
    var carried := w.shape.carried;
    forall i | 0 <= i < |Params(w)| ensures Params(w)[i] != ResolveRef(x, w.base) {
      if i < |carried| {
        assert carried[i] in carried;
        NoClashApart(carried[i], InfoOf(carried[i], w.base), x, InfoOf(x, w.base), w.consts, w.lets);
      }
    }
  }

  lemma {:induction false} RepresentsEnter(w: World, scopes: Scopes, store: Store, env: Env, values: seq<Node>)
    requires CarriedLets(w) && NoClash(w.consts, w.lets) && Named(w, w.base, store)
    requires Represents(env, scopes, store) && OuterKept(w, scopes, store)
    requires store.Keys == w.entry.Keys && |values| == |Params(w)|
    requires forall i :: 0 <= i < |w.shape.carried| ==>
               Lookup(ResolveRef(w.shape.carried[i], scopes), env) == Some(values[i])
    ensures Represents(ExtendMulti(env, Params(w), values), w.base, store)
  {
    ParamsBound(w, store, env, values);
    var carried := w.shape.carried;
    var env' := ExtendMulti(env, Params(w), values);
    forall x | x in store ensures Lookup(ResolveRef(x, w.base), env') == Some(store[x]) {
      if x in carried {
        var i :| 0 <= i < |carried| && carried[i] == x;
        assert Lookup(ResolveRef(carried[i], w.base), env') == Some(values[i]);
        assert Lookup(ResolveRef(carried[i], scopes), env) == Some(values[i]);
      } else {
        NotAParam(w, store, x);
        assert ResolveRef(x, scopes) == ResolveRef(x, w.base);
      }
    }
  }

  /** The next iteration: the parameters take the current values of the carried variables
      and the body starts again from the scopes of the loop's entry. */
  lemma {:induction false} HoldsEnter(w: World, mut: set<string>, scopes: Scopes, store: Store, env: Env,
                                      values: seq<Node>)
    requires CarriedLets(w) && NoClash(w.consts, w.lets) && Named(w, w.base, store) && w.base != []
    requires Synthetic(w.shape.name) && |w.shape.name| > 3 && w.shape.name[3] == 'o'
    requires w.shape.last.Some? ==> |w.shape.last.value| > 3 && w.shape.last.value[3] == 'a'
    requires Holds(w, mut, scopes, store, env)
    requires store.Keys == w.entry.Keys && |values| == |Params(w)|
    requires forall i :: 0 <= i < |w.shape.carried| ==>
               Lookup(ResolveRef(w.shape.carried[i], scopes), env) == Some(values[i])
    ensures Holds(w, mut, w.base, store, ExtendMulti(env, Params(w), values))
    ensures w.shape.last.Some? ==> Lookup(w.shape.last.value, ExtendMulti(env, Params(w), values)).Some?
  {
    var env' := ExtendMulti(env, Params(w), values);
    var carried := w.shape.carried;
    RepresentsEnter(w, scopes, store, env, values);
    ParamsBound(w, store, env, values);
    ParamsDistinct(w, store);
    assert w.shape.name !in Params(w);
    assert Mutable(store, w.base) == mut;
    forall v | v in carried ensures Lookup(ResolveRef(v, w.base), env').Some? {
      var i :| 0 <= i < |carried| && carried[i] == v;
      assert Lookup(ResolveRef(carried[i], w.base), env') == Some(values[i]);
    }
  }
}
