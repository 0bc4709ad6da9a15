/** The lowering as it runs: a counter of synthetic names that all contexts share, and a
    context whose scope stack is changed on the way and copied for each branch. */
module EmitContext {
  import opened Text
  import opened Ir
  import opened Source
  import opened Emit
  import opened LoweringVerdict

  datatype Result<T> = Ok(value: T) | Err(reason: string)

  class Names {
    var counts: Counter

    constructor ()
      ensures counts == map[]
    {
      counts := map[];
    }

    method Next(prefix: string) returns (name: string)
      modifies this
      ensures name == NextName(old(counts), prefix) && counts == Emit.Advance(old(counts), prefix)
    {
      var n := if prefix in counts then counts[prefix] else 0;
      counts := counts[prefix := n + 1];
      name := CounterName(prefix, n);
    }
  }

  class Context {
    const counter: Names
    var scopeStack: Scopes

    /** A context of its own on a copy of a scope stack; the counter is shared. */
    constructor (names: Names, stack: Scopes)
      ensures counter == names && scopeStack == stack
    {
      counter := names;
      scopeStack := stack;
    }

    /** The frame that owns a name, searched from the innermost outward. */
    method Find(name: string) returns (at: Option<nat>)
      ensures at.None? <==> LookupBinding(name, scopeStack).None?
      ensures at.Some? ==>
                && at.value < |scopeStack| && name in scopeStack[at.value]
                && LookupBinding(name, scopeStack) == Some(scopeStack[at.value][name])
                && (forall j :: at.value < j < |scopeStack| ==> name !in scopeStack[j])
    {
      var i := |scopeStack|;
      assert scopeStack[..i] == scopeStack;
      while i > 0
        invariant 0 <= i <= |scopeStack|
        invariant LookupBinding(name, scopeStack) == LookupBinding(name, scopeStack[..i])
        invariant forall j :: i <= j < |scopeStack| ==> name !in scopeStack[j]
        decreases i
      {
        i := i - 1;
        assert scopeStack[..i + 1][..i] == scopeStack[..i];
        if name in scopeStack[i] {
          return Some(i);
        }
      }
      at := None;
    }

    method Declare(name: string, isLet: bool)
      requires scopeStack != []
      modifies this
      ensures scopeStack == DeclareBinding(name, isLet, old(scopeStack))
    {
      var top := |scopeStack| - 1;
      scopeStack := scopeStack[top := scopeStack[top][name := Info(isLet, 0)]];
    }

    /** Bumps a `let` binding in the frame that owns it; the new versioned name. */
    method Bump(name: string) returns (r: Result<string>)
      modifies this
      ensures if IsLetBinding(name, old(scopeStack)) then
                scopeStack == BumpVersion(name, old(scopeStack)) && r == Ok(Emit.ResolveRef(name, scopeStack))
              else r.Err? && scopeStack == old(scopeStack)
    {
      var at := Find(name);
      if at.None? || !scopeStack[at.value][name].isLet {
        return Err("Cannot bump version of non-let binding: " + name);
      }
      var i := at.value;
      var info := scopeStack[i][name];
      BumpAt(name, scopeStack, i);
      scopeStack := scopeStack[i := scopeStack[i][name := info.(version := info.version + 1)]];
      r := Ok(Versioned(name, info.version + 1));
    }

    method Resolve(name: string) returns (r: string)
      ensures r == Emit.ResolveRef(name, scopeStack)
    {
      var at := Find(name);
      r := if at.Some? then InfoName(name, scopeStack[at.value][name]) else name;
    }

    /** The current references of the carried variables. */
    method CurrentRefs(carried: seq<string>) returns (r: seq<Node>)
      ensures r == CarriedRefs(carried, scopeStack)
    {
      r := [];
      for i := 0 to |carried|
        invariant r == CarriedRefs(carried[..i], scopeStack)
      {
        var name := Resolve(carried[i]);
        r := r + [Ref(name)];
      }
      assert carried[..|carried|] == carried;
    }

    // ----- the loop body -----

    method EmitLoopStatements(stmts: seq<Stmt>, shape: LoopShape, lastBound: Option<string>) returns (r: Result<Node>)
      requires scopeStack != []
      modifies this, counter
      ensures Does(EmitLoop(stmts, shape, old(scopeStack), old(counter.counts), lastBound), r, counter.counts)
      ensures r.Ok? <==> Faultless(stmts, old(scopeStack))
      decreases StmtsSize(stmts), |stmts|, 1
    {
      hide EmitExpr, BumpVersion, DeclareBinding, PackedFields, CounterName, Emit.ResolveRef, BranchStmts, Faultless;
      var scopes := scopeStack;
      EmittedExactly(stmts, shape, scopes, counter.counts, lastBound);
      if stmts == [] {
        var args := CurrentRefs(shape.carried);
        if shape.last.Some? {
          args := args + [if lastBound.Some? then Ref(lastBound.value) else Null];
        } else {
          assert args + [] == args;
        }
        return Ok(Call(Ref(shape.name), args));
      }
      var rest := stmts[1..];
      assert StmtsSize(stmts) == StmtSize(stmts[0]) + StmtsSize(rest);
      match stmts[0] {
        case Return(result) =>
          var value := if result.Some? then EmitExpr(result.value, scopes) else Null;
          if shape.pack {
            var refs := CurrentRefs(shape.carried);
            r := Ok(Construct(PackedFields(Some("return"), value, shape.carried, refs)));
          } else {
            r := Ok(value);
          }
        case VarStmt(isLet, decls) =>
          if decls == [] {
            return Err("E999");
          }
          r := EmitDeclarations(isLet, decls, rest, shape);
        case Assign(x, e) =>
          if !IsLetBinding(x, scopes) {
            return Err("E003");
          }
          var value := EmitExpr(e, scopes);
          var name := Bump(x);
          BumpKeepsStack(x, scopes);
          var next := EmitLoopStatements(rest, shape, Some(name.value));
          r := LetBefore(name.value, value, next);
        case IfStmt(cond, then_, else_) =>
          IfSizes(stmts);
          r := EmitLoopIfStatement(cond, then_, else_, rest, shape);
        case ExprStmt(e) =>
          var name := counter.Next("discard");
          var next := EmitLoopStatements(rest, shape, Some(name));
          r := LetBefore(name, EmitExpr(e, scopes), next);
        case ThrowStmt(m) => r := Ok(Throw(EmitExpr(m, scopes)));
        case _ => r := Err("E999");
      }
    }

    /** Each branch is compiled in a context of its own, with the rest of the body in it
        unless it cannot fall through. */
    method EmitLoopIfStatement(cond: Node, then_: seq<Stmt>, else_: Body, rest: seq<Stmt>, shape: LoopShape)
      returns (r: Result<Node>)
      requires scopeStack != []
      modifies counter
      ensures Does(EmitLoop([IfStmt(cond, then_, else_)] + rest, shape, scopeStack, old(counter.counts), None), r,
                   counter.counts)
      decreases StmtSize(IfStmt(cond, then_, else_)) + StmtsSize(rest), 1 + |rest|, 0
    {
      hide EmitExpr;
      var stmts := [IfStmt(cond, then_, else_)] + rest;
      assert stmts[1..] == rest;
      IfSizes(stmts);
      var condition := EmitExpr(cond, scopeStack);
      var thenCtx := new Context(counter, scopeStack);
      var thenBranch := thenCtx.EmitLoopStatements(BranchStmts(then_, rest), shape, None);
      if thenBranch.Err? {
        return thenBranch;
      }
      var elseCtx := new Context(counter, scopeStack);
      var elseBranch :=
        elseCtx.EmitLoopStatements(if else_.Present? then BranchStmts(else_.stmts, rest) else rest, shape, None);
      if elseBranch.Err? {
        return elseBranch;
      }
      r := Ok(If(condition, thenBranch.value, Some(elseBranch.value)));
    }

    method EmitDeclarations(isLet: bool, decls: seq<Decl>, rest: seq<Stmt>, shape: LoopShape) returns (r: Result<Node>)
      requires scopeStack != [] && decls != []
      modifies this, counter
      ensures Does(EmitDecls(isLet, decls, rest, shape, old(scopeStack), old(counter.counts)), r, counter.counts)
      decreases StmtsSize(rest) + |decls|, |rest|, 1
    {
      hide EmitExpr;
      var x := decls[0].name;
      if Reserved(x) {
        return Err("E028");
      }
      var value := EmitExpr(decls[0].init, scopeStack);
      Declare(x, isLet);
      var name := if isLet then Versioned(x, 0) else x;
      var next;
      if |decls| == 1 {
        next := EmitLoopStatements(rest, shape, Some(name));
      } else {
        next := EmitDeclarations(isLet, decls[1..], rest, shape);
      }
      r := LetBefore(name, value, next);
    }

    // ----- the loop -----

    /** `emitWhileCaseB` up to the continuation, which is compiled in the context that this
        leaves behind: the carried variables stand at new versions. */
    method EmitWhileCaseB(w: Stmt) returns (r: Result<Lowered>)
      requires w.WhileStmt? && scopeStack != []
      modifies this, counter
      ensures match LowerLoop(w, old(scopeStack), old(counter.counts))
              case NotLowered(reason) => r == Err(reason)
              case l => r == Ok(l) && scopeStack == l.scopes && counter.counts == l.counter
      ensures r.Ok? <==> Faultless(w.body, old(scopeStack))
      ensures forall reason :: r == Err(reason) <==>
                exists choices, i :: FirstFault(w.body, choices, i, old(scopeStack), reason)
    {
      hide EmitExpr, EmitLoop, BumpVersion, Faultless, FirstFault;
      var scopes, counts := scopeStack, counter.counts;
      LoweredExactly(w, scopes, counts);
      ghost var lowered := LowerLoop(w, scopes, counts);
      var loopName := counter.Next("loop");
      var last: Option<string> := None;
      if w.test.Some? {
        var lastName := counter.Next("last");
        last := Some(lastName);
      }
      var shape := LoopShape(loopName, Carried(Assigned(w.body, []), scopeStack), last, ContainsReturn(w.body));
      assert shape == ShapeOf(w, scopes, counts) && counter.counts == BodyCounter(w, counts);
      var initArgs := CurrentRefs(shape.carried);
      var fnCtx := new Context(counter, scopeStack);
      var body := fnCtx.EmitLoopStatements(w.body, shape, None);
      if body.Err? {
        assert forall reason :: body == Err(reason) <==> lowered == NotLowered(reason);
        return Err(body.reason);
      }
      var fn := LoopFunction(w, shape, scopeStack, body.value);
      var call := Call(Ref(shape.name), initArgs + (if last.Some? then [Null] else []));
      var resultName := counter.Next("loop_result");
      var rebound := BumpCarried(shape.carried);
      r := Ok(Lowered(shape, fn, call, resultName, rebound, scopeStack, counter.counts));
      assert forall reason :: lowered != NotLowered(reason) && r != Err(reason);
    }

    /** New versions for all carried variables, in order; their names after the loop. */
    method BumpCarried(names: seq<string>) returns (rebound: seq<string>)
      modifies this
      ensures scopeStack == BumpAll(names, old(scopeStack)) && rebound == ParamNames(names, scopeStack)
    {
      ghost var was := scopeStack;
      var i := 0;
      while i < |names| && LookupBinding(names[i], scopeStack).Some?
        invariant 0 <= i <= |names|
        invariant BumpAll(names, was) == BumpAll(names[i..], scopeStack)
        decreases |names| - i
      {
        assert names[i..][1..] == names[i + 1..];
        var at := Find(names[i]);
        BumpAt(names[i], scopeStack, at.value);
        var info := scopeStack[at.value][names[i]];
        scopeStack := scopeStack[at.value := scopeStack[at.value][names[i] := info.(version := info.version + 1)]];
        i := i + 1;
      }
      rebound := ParamNames(names, scopeStack);
    }
  }

  /** What a method must return for an emission, and the counter it must leave. */
  predicate Does(e: Emitted, r: Result<Node>, counts: Counter)
  {
    match e
    case Emitted(code, counts') => r == Ok(code) && counts == counts'
    case Rejected(reason) => r == Err(reason)
  }

  function LetBefore(name: string, value: Node, rest: Result<Node>): Result<Node>
  {
    if rest.Ok? then Ok(Let(name, value, rest.value)) else rest
  }

  /** Bumping changes the owning frame only. */
  lemma {:induction false} BumpAt(name: string, scopes: Scopes, i: nat)
    requires i < |scopes| && name in scopes[i] && forall j :: i < j < |scopes| ==> name !in scopes[j]
    ensures var info := scopes[i][name];
            && LookupBinding(name, scopes) == Some(info)
            && BumpVersion(name, scopes) == scopes[i := scopes[i][name := info.(version := info.version + 1)]]
            && LookupBinding(name, BumpVersion(name, scopes)) == Some(info.(version := info.version + 1))
    decreases |scopes|
  {
    var top := |scopes| - 1;
    if i < top {
      BumpAt(name, scopes[..top], i);
      var info := scopes[i][name];
      var frame := scopes[i][name := info.(version := info.version + 1)];
      assert scopes == scopes[..top] + [scopes[top]];
      assert scopes[i := frame] == scopes[..top][i := frame] + [scopes[top]];
      assert scopes[i := frame][..top] == scopes[..top][i := frame];
    }
  }

  lemma {:induction false} BumpKeepsStack(name: string, scopes: Scopes)
    requires IsLetBinding(name, scopes)
    ensures BumpVersion(name, scopes) != []
  {
  }

  /** Branches with the rest inlined are smaller than the list they come from. */
  lemma {:induction false} IfSizes(stmts: seq<Stmt>)
    requires stmts != [] && stmts[0].IfStmt?
    ensures var s, rest := stmts[0], stmts[1..];
            && StmtsSize(stmts) == StmtSize(s) + StmtsSize(rest)
            && StmtsSize(BranchStmts(s.then_, rest)) < StmtsSize(stmts)
            && StmtsSize(if s.else_.Present? then BranchStmts(s.else_.stmts, rest) else rest) < StmtsSize(stmts)
  {
    var s, rest := stmts[0], stmts[1..];
    Emit.SizeAppend(s.then_, rest);
    if s.else_.Present? {
      Emit.SizeAppend(s.else_.stmts, rest);
    }
  }
}
