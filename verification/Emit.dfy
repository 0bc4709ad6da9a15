/** Lowering of `while` loops that return or carry `let` variables ("Case B"): a recursive
    `Fn`/`Call` over versioned names, with packed results. */
module Emit {
  import opened Text
  import opened Ir
  import opened Source

  // ----- context: synthetic names and the scope stack -----

  type Counter = map<string, nat>

  function CounterName(prefix: string, n: nat): string { "__" + prefix + "_" + Decimal(n) }

  function Count(c: Counter, prefix: string): nat { if prefix in c then c[prefix] else 0 }

  /** The next synthetic name for a prefix. */
  function NextName(c: Counter, prefix: string): string { CounterName(prefix, Count(c, prefix)) }

  function Advance(c: Counter, prefix: string): Counter { c[prefix := Count(c, prefix) + 1] }

  datatype Info = Info(isLet: bool, version: nat)

  /** Scope frames, innermost last. */
  type Scopes = seq<map<string, Info>>

  function LookupBinding(name: string, scopes: Scopes): Option<Info>
  {
    if scopes == [] then None
    else
      var top := scopes[|scopes| - 1];
      if name in top then Some(top[name]) else LookupBinding(name, scopes[..|scopes| - 1])
  }

  /** A new binding, in the innermost frame. */
  function DeclareBinding(name: string, isLet: bool, scopes: Scopes): Scopes
    requires scopes != []
  {
    var top := |scopes| - 1;
    scopes[top := scopes[top][name := Info(isLet, 0)]]
  }

  /** The version of a binding is bumped in the frame that owns it. */
  function BumpVersion(name: string, scopes: Scopes): (r: Scopes)
    requires LookupBinding(name, scopes).Some?
    ensures |r| == |scopes|
  {
    var top := |scopes| - 1;
    var frame := scopes[top];
    if name in frame then
      scopes[top := frame[name := frame[name].(version := frame[name].version + 1)]]
    else BumpVersion(name, scopes[..top]) + [frame]
  }

  function Versioned(name: string, version: nat): string { name + "_" + Decimal(version) }

  function InfoName(name: string, info: Info): string
  {
    if info.isLet then Versioned(name, info.version) else name
  }

  /** The IR name a source name stands for; an untracked name stands for itself. */
  function ResolveRef(name: string, scopes: Scopes): string
  {
    var found := LookupBinding(name, scopes);
    if found.Some? then InfoName(name, found.value) else name
  }

  predicate IsLetBinding(name: string, scopes: Scopes)
  {
    var found := LookupBinding(name, scopes);
    found.Some? && found.value.isLet
  }

  predicate Reserved(name: string) { |name| >= 2 && name[0] == '_' && name[1] == '_' }

  // ----- expressions -----

  /** An expression with every source name replaced by its current IR name. */
  function EmitExpr(e: Node, scopes: Scopes): Node
  {
    match e
    case Ref(x) => Ref(ResolveRef(x, scopes))
    case Arr(items) => Arr(EmitExprs(items, scopes))
    case Obj(fields) => Obj(map k | k in fields :: EmitExpr(fields[k], scopes))
    case If(c, t, f) =>
      If(EmitExpr(c, scopes), EmitExpr(t, scopes),
         if f.Some? then Some(EmitExpr(f.value, scopes)) else None)
    case Get(o, key) => Get(EmitExpr(o, scopes), key)
    case Prim(op, operands) => Prim(op, EmitExprs(operands, scopes))
    case And(a, b) => And(EmitExpr(a, scopes), EmitExpr(b, scopes))
    case Or(a, b) => Or(EmitExpr(a, scopes), EmitExpr(b, scopes))
    case Construct(entries) => Construct(map k | k in entries :: EmitExpr(entries[k], scopes))
    case Effect(id, data) => Effect(id, EmitExpr(data, scopes))
    case _ => e
  }

  function EmitExprs(es: seq<Node>, scopes: Scopes): (r: seq<Node>)
    ensures |r| == |es|
  {
    if es == [] then [] else [EmitExpr(es[0], scopes)] + EmitExprs(es[1..], scopes)
  }

  // ----- the loop body -----

  /** The parts of the lowering that stay the same throughout a loop body. */
  datatype LoopShape = LoopShape(name: string, carried: seq<string>, last: Option<string>, pack: bool)

  datatype Emitted = Emitted(code: Node, counter: Counter) | Rejected(reason: string)

  function StmtsSize(stmts: seq<Stmt>): nat
  {
    if stmts == [] then 0 else StmtSize(stmts[0]) + StmtsSize(stmts[1..])
  }

  function StmtSize(s: Stmt): nat
  {
    match s
    case IfStmt(_, then_, else_) =>
      1 + StmtsSize(then_) + (if else_.Present? then StmtsSize(else_.stmts) else 0)
    case VarStmt(_, decls) => 1 + |decls|
    case _ => 1
  }

  lemma {:induction false} SizeAppend(a: seq<Stmt>, b: seq<Stmt>)
    ensures StmtsSize(a + b) == StmtsSize(a) + StmtsSize(b)
    decreases |a|
  {
    if a == [] {
      assert a + b == b;
    } else {
      assert (a + b)[0] == a[0] && (a + b)[1..] == a[1..] + b;
      SizeAppend(a[1..], b);
    }
  }

  /** The statements a branch compiles: a branch that cannot fall through leaves the rest
      of the body out, any other inlines it. */
  function BranchStmts(branch: seq<Stmt>, rest: seq<Stmt>): seq<Stmt>
  {
    if SomeTerminates(branch) then branch else branch + rest
  }

  function CarriedRefs(carried: seq<string>, scopes: Scopes): (r: seq<Node>)
    ensures |r| == |carried|
    ensures forall i :: 0 <= i < |carried| ==> r[i] == Ref(ResolveRef(carried[i], scopes))
  {
    seq(|carried|, i requires 0 <= i < |carried| => Ref(ResolveRef(carried[i], scopes)))
  }

  /** The fields of a packed result. */
  function PackedFields(tag: Option<string>, value: Node, carried: seq<string>, refs: seq<Node>): map<string, Node>
    requires |refs| == |carried|
  {
    var base := map["__value" := value];
    var tagged := if tag.Some? then base["__tag" := Str(tag.value)] else base;
    tagged + CarriedFields(carried, refs)
  }

  function CarriedFields(carried: seq<string>, refs: seq<Node>): map<string, Node>
    requires |refs| == |carried|
  {
    if carried == [] then map[]
    else
      var n := |carried| - 1;
      CarriedFields(carried[..n], refs[..n])[carried[n] := refs[n]]
  }

  /** The statements of a loop body; the end of the list is the recursive call. */
  function EmitLoop(stmts: seq<Stmt>, shape: LoopShape, scopes: Scopes, counter: Counter,
                    lastBound: Option<string>): Emitted
    requires scopes != []
    decreases StmtsSize(stmts), |stmts|
  {
    if stmts == [] then
      var lastArg := if shape.last.None? then []
                     else [if lastBound.Some? then Ref(lastBound.value) else Null];
      Emitted(Call(Ref(shape.name), CarriedRefs(shape.carried, scopes) + lastArg), counter)
    else
      var rest := stmts[1..];
      assert StmtsSize(stmts) == StmtSize(stmts[0]) + StmtsSize(rest);
      match stmts[0]
      case Return(result) =>
        var value := if result.Some? then EmitExpr(result.value, scopes) else Null;
        Emitted(
          if shape.pack then
            Construct(PackedFields(Some("return"), value, shape.carried, CarriedRefs(shape.carried, scopes)))
          else value,
          counter)
      case VarStmt(isLet, decls) =>
        if decls == [] then Rejected("E999")
        else
          assert StmtSize(stmts[0]) == 1 + |decls|;
          EmitDecls(isLet, decls, rest, shape, scopes, counter)
      case Assign(x, e) =>
        if !IsLetBinding(x, scopes) then Rejected("E003")
        else
          var scopes' := BumpVersion(x, scopes);
          var name := ResolveRef(x, scopes');
          LetThen(name, EmitExpr(e, scopes), EmitLoop(rest, shape, scopes', counter, Some(name)))
      case IfStmt(cond, then_, else_) =>
        assert StmtSize(stmts[0]) ==
               1 + StmtsSize(then_) + (if else_.Present? then StmtsSize(else_.stmts) else 0);
        SizeAppend(then_, rest);
        SizeAppend(if else_.Present? then else_.stmts else [], rest);
        (match EmitLoop(BranchStmts(then_, rest), shape, scopes, counter, None)
         case Emitted(t, counter') =>
           (match EmitLoop(if else_.Present? then BranchStmts(else_.stmts, rest) else rest,
                           shape, scopes, counter', None)
            case Emitted(f, counter'') => Emitted(If(EmitExpr(cond, scopes), t, Some(f)), counter'')
            case rejected => rejected)
         case rejected => rejected)
      case ExprStmt(e) =>
        var name := NextName(counter, "discard");
        LetThen(name, EmitExpr(e, scopes),
                EmitLoop(rest, shape, scopes, Advance(counter, "discard"), Some(name)))
      case ThrowStmt(m) => Emitted(Throw(EmitExpr(m, scopes)), counter)
      case _ => Rejected("E999")
  }

  /** Declarations left to right; each is in scope for the next. */
  function EmitDecls(isLet: bool, decls: seq<Decl>, rest: seq<Stmt>, shape: LoopShape, scopes: Scopes,
                     counter: Counter): Emitted
    requires scopes != [] && decls != []
    decreases StmtsSize(rest) + |decls|, |rest|
  {
    var x := decls[0].name;
    if Reserved(x) then Rejected("E028")
    else
      var scopes' := DeclareBinding(x, isLet, scopes);
      var name := if isLet then Versioned(x, 0) else x;
      LetThen(name, EmitExpr(decls[0].init, scopes),
              if |decls| == 1 then EmitLoop(rest, shape, scopes', counter, Some(name))
              else EmitDecls(isLet, decls[1..], rest, shape, scopes', counter))
  }

  function LetThen(name: string, value: Node, rest: Emitted): Emitted
  {
    match rest
    case Emitted(code, counter) => Emitted(Let(name, value, code), counter)
    case rejected => rejected
  }

  // ----- the loop -----

  /** Names assigned anywhere in the statements, in order of first assignment. */
  function Assigned(stmts: seq<Stmt>, seen: seq<string>): seq<string>
    decreases stmts, 2
  {
    if stmts == [] then seen else Assigned(stmts[1..], AssignedOne(stmts[0], seen))
  }

  function AssignedOne(s: Stmt, seen: seq<string>): seq<string>
    decreases s, 1
  {
    match s
    case Assign(x, _) => if x in seen then seen else seen + [x]
    case IfStmt(_, then_, else_) =>
      var a := Assigned(then_, seen);
      if else_.Present? then Assigned(else_.stmts, a) else a
    case WhileStmt(_, body) => Assigned(body, seen)
    case Block(stmts) => Assigned(stmts, seen)
    case TryStmt(tried, handler, finalizer) =>
      var a := Assigned(tried, seen);
      var b := if handler.Some? then Assigned(handler.value.body, a) else a;
      if finalizer.Present? then Assigned(finalizer.stmts, b) else b
    case _ => seen
  }

  /** The outer `let` variables that the loop assigns. */
  function Carried(names: seq<string>, scopes: Scopes): seq<string>
  {
    if names == [] then []
    else (if IsLetBinding(names[0], scopes) then [names[0]] else []) + Carried(names[1..], scopes)
  }

  predicate ContainsReturn(stmts: seq<Stmt>)
    decreases stmts, 2
  {
    stmts != [] && (ContainsReturnOne(stmts[0]) || ContainsReturn(stmts[1..]))
  }

  predicate ContainsReturnOne(s: Stmt)
    decreases s, 1
  {
    match s
    case Return(_) => true
    case Block(stmts) => ContainsReturn(stmts)
    case IfStmt(_, then_, else_) =>
      ContainsReturn(then_) || (else_.Present? && ContainsReturn(else_.stmts))
    case _ => false
  }

  function BumpAll(names: seq<string>, scopes: Scopes): Scopes
    decreases |names|
  {
    if names == [] || LookupBinding(names[0], scopes).None? then scopes
    else BumpAll(names[1..], BumpVersion(names[0], scopes))
  }

  /** A lowered loop, short of its continuation: the context is the one in which the
      statements after the loop are compiled. */
  datatype Lowered =
    | Lowered(shape: LoopShape, fn: Node, call: Node, result: string, rebound: seq<string>,
              scopes: Scopes, counter: Counter)
    | NotLowered(reason: string)

  function ParamNames(carried: seq<string>, scopes: Scopes): (r: seq<string>)
    ensures |r| == |carried|
    ensures forall i :: 0 <= i < |carried| ==> r[i] == ResolveRef(carried[i], scopes)
  {
    seq(|carried|, i requires 0 <= i < |carried| => ResolveRef(carried[i], scopes))
  }

  /** The exit taken when the condition is false. */
  function ExitCode(shape: LoopShape, params: seq<string>, last: string): Node
    requires |params| == |shape.carried|
  {
    Construct(PackedFields(if shape.pack then Some("exit") else None, Ref(last), shape.carried,
                           seq(|params|, i requires 0 <= i < |params| => Ref(params[i]))))
  }

  /** The names of a loop: its function, its accumulator, its carried variables. */
  function ShapeOf(w: Stmt, scopes: Scopes, counter: Counter): LoopShape
    requires w.WhileStmt?
  {
    LoopShape(NextName(counter, "loop"), Carried(Assigned(w.body, []), scopes),
              if w.test.None? then None else Some(NextName(Advance(counter, "loop"), "last")),
              ContainsReturn(w.body))
  }

  /** The counter with which the body is compiled. */
  function BodyCounter(w: Stmt, counter: Counter): Counter
    requires w.WhileStmt?
  {
    var counter1 := Advance(counter, "loop");
    if w.test.None? then counter1 else Advance(counter1, "last")
  }

  /** The loop function around the code of the body. */
  function LoopFunction(w: Stmt, shape: LoopShape, scopes: Scopes, code: Node): Node
  {
    var params := ParamNames(shape.carried, scopes);
    Fn(params + (if shape.last.Some? then [shape.last.value] else []),
       if w.WhileStmt? && w.test.Some? && shape.last.Some? then
         If(EmitExpr(w.test.value, scopes), code, Some(ExitCode(shape, params, shape.last.value)))
       else code)
  }

  /** `emitWhileCaseB` for a loop that is not the last statement of its list. */
  function LowerLoop(w: Stmt, scopes: Scopes, counter: Counter): Lowered
    requires w.WhileStmt? && scopes != []
  {
    var shape := ShapeOf(w, scopes, counter);
    match EmitLoop(w.body, shape, scopes, BodyCounter(w, counter), None)
    case Rejected(reason) => NotLowered(reason)
    case Emitted(code, counter') =>
      var scopes' := BumpAll(shape.carried, scopes);
      Lowered(shape, LoopFunction(w, shape, scopes, code),
              Call(Ref(shape.name), CarriedRefs(shape.carried, scopes) + (if shape.last.Some? then [Null] else [])),
              NextName(counter', "loop_result"), ParamNames(shape.carried, scopes'),
              scopes', Advance(counter', "loop_result"))
  }

  /** The loop variables take their values from the packed result. */
  function RebindChain(names: seq<string>, carried: seq<string>, result: string, rest: Node): Node
    requires |names| == |carried|
  {
    if names == [] then rest
    else Let(names[0], Get(Ref(result), carried[0]), RebindChain(names[1..], carried[1..], result, rest))
  }

  /** The whole lowering around the code of the statements after the loop. */
  function Assemble(l: Lowered, rest: Node): Node
    requires l.Lowered? && |l.rebound| == |l.shape.carried|
  {
    var continuation := RebindChain(l.rebound, l.shape.carried, l.result, rest);
    Let(l.shape.name, l.fn,
        Let(l.result, l.call,
            if l.shape.pack then
              If(Prim(Eq, [Get(Ref(l.result), "__tag"), Str("return")]),
                 Get(Ref(l.result), "__value"), Some(continuation))
            else continuation))
  }

  /** Loops lowered this way: those that contain a return or carry a variable. */
  predicate IsCaseB(w: Stmt, scopes: Scopes)
    requires w.WhileStmt?
  {
    ContainsReturn(w.body) || Carried(Assigned(w.body, []), scopes) != []
  }
}
