/** Which loops are lowered, and the error that any other loop gets, said of the ways through the
    loop body: the statements that stand on such a way, and the declarations before them. */
module LoweringVerdict {
  import opened Text
  import opened Ir
  import opened Source
  import opened Emit

  // ----- ways through a loop body -----

  /** The statements on the way through the body that these choices take, `true` for the first
      branch. A way ends at a return, at a throw, at a statement of another kind, and at an `if`
      for which there is no choice left. */
  function Way(stmts: seq<Stmt>, choices: seq<bool>): seq<Stmt>
    decreases StmtsSize(stmts)
  {
    if stmts == [] then []
    else
      var s, rest := stmts[0], stmts[1..];
      assert StmtsSize(stmts) == StmtSize(s) + StmtsSize(rest);
      if s.IfStmt? && choices != [] then
        var branch := Branch(s, choices[0]);
        SizeAppend(branch, rest);
        [s] + Way(branch + rest, choices[1..])
      else if s.VarStmt? || s.Assign? || s.ExprStmt? then [s] + Way(rest, choices)
      else [s]
  }

  function Branch(s: Stmt, choice: bool): (b: seq<Stmt>)
    requires s.IfStmt?
    ensures StmtsSize(b) < StmtSize(s)
  {
    if choice then s.then_ else if s.else_.Present? then s.else_.stmts else []
  }

  /** What the last declaration of `x` makes of it: a `let` or a constant. */
  function LastDeclared(before: seq<Stmt>, x: string): Option<bool>
  {
    if before == [] then None
    else
      var s := before[|before| - 1];
      if s.VarStmt? && Declares(s.decls, x) then Some(s.isLet) else LastDeclared(before[..|before| - 1], x)
  }

  predicate Declares(decls: seq<Decl>, x: string) { exists i :: 0 <= i < |decls| && decls[i].name == x }

  /** Behind these statements `x` is a `let`. */
  predicate LetBehind(before: seq<Stmt>, x: string, scopes: Scopes)
  {
    var d := LastDeclared(before, x);
    if d.Some? then d.value else IsLetBinding(x, scopes)
  }

  /** What is wrong with the statement at `i`, if anything is. */
  function Fault(way: seq<Stmt>, i: nat, scopes: Scopes): Option<string>
    requires i < |way|
  {
    match way[i]
    case VarStmt(_, decls) =>
      if decls == [] then Some("E999")
      else if exists j :: 0 <= j < |decls| && Reserved(decls[j].name) then Some("E028")
      else None
    case Assign(x, _) => if LetBehind(way[..i], x, scopes) then None else Some("E003")
    case ExprStmt(_) => None
    case IfStmt(_, _, _) => None
    case Return(_) => None
    case ThrowStmt(_) => None
    case _ => Some("E999")
  }

  predicate Faulty(stmts: seq<Stmt>, choices: seq<bool>, i: nat, scopes: Scopes, reason: string)
  {
    i < |Way(stmts, choices)| && Fault(Way(stmts, choices), i, scopes) == Some(reason)
  }

  /** Where two ways part, `a` takes the first branch. */
  predicate Sooner(a: seq<bool>, b: seq<bool>)
  {
    a != [] && b != [] && if a[0] == b[0] then Sooner(a[1..], b[1..]) else a[0]
  }

  /** The first fault, branches in order. */
  ghost predicate FirstFault(stmts: seq<Stmt>, choices: seq<bool>, i: nat, scopes: Scopes, reason: string)
  {
    && Faulty(stmts, choices, i, scopes, reason)
    && (forall j: nat, r :: j < i ==> !Faulty(stmts, choices, j, scopes, r))
    && (forall c, j: nat, r :: Sooner(c, choices) ==> !Faulty(stmts, c, j, scopes, r))
  }

  ghost predicate Faultless(stmts: seq<Stmt>, scopes: Scopes)
  {
    forall c, j: nat, r :: !Faulty(stmts, c, j, scopes, r)
  }

  /** What an emission must say of a statement list. */
  ghost predicate Judged(e: Emitted, stmts: seq<Stmt>, scopes: Scopes, choices: seq<bool>, i: nat)
  {
    match e
    case Emitted(_, _) => Faultless(stmts, scopes)
    case Rejected(reason) => FirstFault(stmts, choices, i, scopes, reason)
  }

  // ----- one statement more -----

  lemma {:induction false} LastDeclaredAppend(s: Stmt, before: seq<Stmt>, x: string)
    ensures LastDeclared([s] + before, x) ==
            if LastDeclared(before, x).Some? then LastDeclared(before, x) else LastDeclared([s], x)
    decreases |before|
  {
    if before != [] {
      var m := |before| - 1;
      LastDeclaredAppend(s, before[..m], x);
      assert ([s] + before)[|before|] == before[m] && ([s] + before)[..|before|] == [s] + before[..m];
    } else {
      assert [s] + before == [s];
    }
  }

  lemma {:induction false} LastOfOne(s: Stmt, x: string)
    ensures LastDeclared([s], x) == if s.VarStmt? && Declares(s.decls, x) then Some(s.isLet) else None
  {
    assert [s][..0] == [] && [s][0] == s;
    assert LastDeclared([], x) == None;
  }

  /** `after` are the scopes behind the statement `s`, as far as assignments go. */
  ghost predicate Behind(s: Stmt, scopes: Scopes, after: Scopes)
  {
    forall x :: IsLetBinding(x, after) <==> LetBehind([s], x, scopes)
  }

  lemma {:induction false} FaultNext(s: Stmt, way: seq<Stmt>, i: nat, scopes: Scopes, after: Scopes)
    requires Behind(s, scopes, after) && i < |way|
    ensures Fault([s] + way, i + 1, scopes) == Fault(way, i, after)
  {
    assert ([s] + way)[i + 1] == way[i] && ([s] + way)[..i + 1] == [s] + way[..i];
    if way[i].Assign? {
      LastDeclaredAppend(s, way[..i], way[i].name);
    }
  }

  /** Behind a statement that is no branch the ways are those of the rest. */
  lemma {:induction false} FaultyNext(stmts: seq<Stmt>, choices: seq<bool>, scopes: Scopes, after: Scopes)
    requires stmts != [] && (stmts[0].VarStmt? || stmts[0].Assign? || stmts[0].ExprStmt?)
    requires Behind(stmts[0], scopes, after)
    ensures forall i: nat, r :: Faulty(stmts, choices, i + 1, scopes, r) <==> Faulty(stmts[1..], choices, i, after, r)
    ensures Way(stmts, choices) != [] && Way(stmts, choices)[0] == stmts[0]
  {
    hide Fault, Behind;
    var way := Way(stmts[1..], choices);
    forall i: nat | i < |way| ensures Fault([stmts[0]] + way, i + 1, scopes) == Fault(way, i, after) {
      FaultNext(stmts[0], way, i, scopes, after);
    }
  }

  lemma {:induction false} FaultyBranch(stmts: seq<Stmt>, choices: seq<bool>, scopes: Scopes)
    requires stmts != [] && stmts[0].IfStmt? && choices != []
    ensures forall i: nat, r ::
              Faulty(stmts, choices, i + 1, scopes, r) <==>
              Faulty(Branch(stmts[0], choices[0]) + stmts[1..], choices[1..], i, scopes, r)
    ensures Way(stmts, choices) != [] && Way(stmts, choices)[0] == stmts[0]
  {
    hide Fault;
    var way := Way(Branch(stmts[0], choices[0]) + stmts[1..], choices[1..]);
    assert Behind(stmts[0], scopes, scopes) by { BehindOther(stmts[0], scopes); }
    forall i: nat | i < |way| ensures Fault([stmts[0]] + way, i + 1, scopes) == Fault(way, i, scopes) {
      FaultNext(stmts[0], way, i, scopes, scopes);
    }
  }

  lemma {:induction false} BehindOther(s: Stmt, scopes: Scopes)
    requires !s.VarStmt?
    ensures Behind(s, scopes, scopes)
  {
    forall x ensures LastDeclared([s], x).None? {
      LastOfOne(s, x);
    }
  }

  lemma {:induction false} BehindAssign(x: string, e: Node, scopes: Scopes)
    requires IsLetBinding(x, scopes)
    ensures Behind(Assign(x, e), scopes, BumpVersion(x, scopes)) && BumpVersion(x, scopes) != []
  {
    BehindOther(Assign(x, e), scopes);
    forall y ensures IsLetBinding(y, BumpVersion(x, scopes)) <==> IsLetBinding(y, scopes) {
      BumpKeepsKind(x, scopes, y);
    }
  }

  lemma {:induction false} BumpKeepsKind(x: string, scopes: Scopes, y: string)
    requires LookupBinding(x, scopes).Some?
    ensures IsLetBinding(y, BumpVersion(x, scopes)) <==> IsLetBinding(y, scopes)
    decreases |scopes|
  {
    var top := |scopes| - 1;
    if x in scopes[top] {
      assert BumpVersion(x, scopes)[..top] == scopes[..top];
    } else {
      BumpKeepsKind(x, scopes[..top], y);
      var r := BumpVersion(x, scopes);
      assert r[..|r| - 1] == BumpVersion(x, scopes[..top]) && r[|r| - 1] == scopes[top];
    }
  }

  // ----- declarations -----

  function DeclareAll(isLet: bool, decls: seq<Decl>, scopes: Scopes): (r: Scopes)
    requires scopes != []
    ensures r != []
    decreases |decls|
  {
    if decls == [] then scopes else DeclareAll(isLet, decls[1..], DeclareBinding(decls[0].name, isLet, scopes))
  }

  lemma {:induction false} DeclaredKind(isLet: bool, decls: seq<Decl>, scopes: Scopes, y: string)
    requires scopes != []
    ensures IsLetBinding(y, DeclareAll(isLet, decls, scopes)) <==>
            if Declares(decls, y) then isLet else IsLetBinding(y, scopes)
    decreases |decls|
  {
    if decls != [] {
      var scopes' := DeclareBinding(decls[0].name, isLet, scopes);
      DeclaredKind(isLet, decls[1..], scopes', y);
      assert scopes'[..|scopes| - 1] == scopes[..|scopes| - 1];
      DeclaresRest(decls, y);
    }
  }

  lemma {:induction false} DeclaresRest(decls: seq<Decl>, y: string)
    requires decls != []
    ensures Declares(decls, y) <==> decls[0].name == y || Declares(decls[1..], y)
  {
    if i :| 0 <= i < |decls| && decls[i].name == y {
      assert i > 0 ==> decls[1..][i - 1].name == y;
    }
    if i :| 0 <= i < |decls[1..]| && decls[1..][i].name == y {
      assert decls[i + 1].name == y;
    }
  }

  lemma {:induction false} BehindDeclarations(isLet: bool, decls: seq<Decl>, scopes: Scopes)
    requires scopes != []
    ensures Behind(VarStmt(isLet, decls), scopes, DeclareAll(isLet, decls, scopes))
  {
    var s := VarStmt(isLet, decls);
    forall x ensures IsLetBinding(x, DeclareAll(isLet, decls, scopes)) <==> LetBehind([s], x, scopes) {
      DeclaredKind(isLet, decls, scopes, x);
      LastOfOne(s, x);
    }
  }

  /** What the emission of declarations says is what that of the rest says behind them. */
  lemma {:induction false} DeclarationsThen(isLet: bool, decls: seq<Decl>, rest: seq<Stmt>, shape: LoopShape,
                                            scopes: Scopes, counter: Counter) returns (last: Option<string>)
    requires scopes != [] && decls != []
    ensures var e := EmitDecls(isLet, decls, rest, shape, scopes, counter);
            if exists j :: 0 <= j < |decls| && Reserved(decls[j].name) then e == Rejected("E028")
            else
              match EmitLoop(rest, shape, DeclareAll(isLet, decls, scopes), counter, last)
              case Emitted(_, _) => e.Emitted?
              case rejected => e == rejected
    decreases |decls|
  {
    hide EmitLoop, EmitExpr;
    var x := decls[0].name;
    var scopes' := DeclareBinding(x, isLet, scopes);
    last := Some(if isLet then Versioned(x, 0) else x);
    if |decls| == 1 {
      assert decls[1..] == [] && DeclareAll(isLet, [], scopes') == scopes';
      assert DeclareAll(isLet, decls, scopes) == scopes';
    } else if !Reserved(x) {
      last := DeclarationsThen(isLet, decls[1..], rest, shape, scopes', counter);
      if j :| 0 <= j < |decls| && Reserved(decls[j].name) {
        assert Reserved(decls[1..][j - 1].name);
      }
    }
  }

  // ----- branches that do not go on -----

  lemma {:induction false} TerminatesAppend(a: seq<Stmt>, b: seq<Stmt>)
    requires SomeTerminates(a) || SomeTerminates(b)
    ensures SomeTerminates(a + b)
    decreases |a|
  {
    if a == [] {
      assert a + b == b;
    } else {
      assert (a + b)[0] == a[0] && (a + b)[1..] == a[1..] + b;
      if !AlwaysTerminates(a[0]) {
        TerminatesAppend(a[1..], b);
      }
    }
  }

  /** No way leads through such a branch to what is behind it. */
  lemma {:induction false} WayEnds(branch: seq<Stmt>, rest: seq<Stmt>, choices: seq<bool>)
    requires SomeTerminates(branch)
    ensures Way(branch + rest, choices) == Way(branch, choices)
    decreases StmtsSize(branch)
  {
    var s, more := branch[0], branch[1..];
    assert (branch + rest)[0] == s && (branch + rest)[1..] == more + rest;
    assert StmtsSize(branch) == StmtSize(s) + StmtsSize(more);
    if s.IfStmt? && choices != [] {
      var b := Branch(s, choices[0]);
      SizeAppend(b, more);
      TerminatesAppend(b, more);
      WayEnds(b + more, rest, choices[1..]);
      assert (b + more) + rest == b + (more + rest);
    } else if s.VarStmt? || s.Assign? || s.ExprStmt? {
      WayEnds(more, rest, choices);
    }
  }

  lemma {:induction false} SameWays(branch: seq<Stmt>, rest: seq<Stmt>, scopes: Scopes)
    ensures forall c, i: nat, r ::
              Faulty(BranchStmts(branch, rest), c, i, scopes, r) <==> Faulty(branch + rest, c, i, scopes, r)
  {
    hide Fault, Way;
    if SomeTerminates(branch) {
      forall c ensures Way(branch + rest, c) == Way(branch, c) {
        WayEnds(branch, rest, c);
      }
    }
  }

  // ----- the verdict -----

  /** The emission succeeds when nothing is wrong on any way, and else it gives the first fault. */
  lemma {:induction false} Verdict(stmts: seq<Stmt>, shape: LoopShape, scopes: Scopes, counter: Counter,
                                   last: Option<string>) returns (choices: seq<bool>, i: nat)
    requires scopes != []
    ensures Judged(EmitLoop(stmts, shape, scopes, counter, last), stmts, scopes, choices, i)
    decreases StmtsSize(stmts), |stmts|
  {
    hide EmitExpr, Faultless, FirstFault, Faulty, BumpVersion, BranchStmts, Behind;
    choices, i := [], 0;
    if stmts == [] {
      NothingWrong(scopes);
      return;
    }
    var s, rest := stmts[0], stmts[1..];
    assert StmtsSize(stmts) == StmtSize(s) + StmtsSize(rest);
    match s {
      case VarStmt(isLet, decls) =>
        if decls == [] || exists j :: 0 <= j < |decls| && Reserved(decls[j].name) {
          WrongHere(stmts, scopes);
          if decls != [] {
            var l := DeclarationsThen(isLet, decls, rest, shape, scopes, counter);
          }
        } else {
          var l := DeclarationsThen(isLet, decls, rest, shape, scopes, counter);
          var after := DeclareAll(isLet, decls, scopes);
          choices, i := Verdict(rest, shape, after, counter, l);
          BehindDeclarations(isLet, decls, scopes);
          Later(stmts, scopes, after, EmitLoop(rest, shape, after, counter, l), choices, i);
          i := i + 1;
        }
      case Assign(x, e) =>
        if !IsLetBinding(x, scopes) {
          WrongHere(stmts, scopes);
        } else {
          BehindAssign(x, e, scopes);
          var after := BumpVersion(x, scopes);
          var l := Some(ResolveRef(x, after));
          choices, i := Verdict(rest, shape, after, counter, l);
          Later(stmts, scopes, after, EmitLoop(rest, shape, after, counter, l), choices, i);
          i := i + 1;
        }
      case ExprStmt(e) =>
        BehindOther(s, scopes);
        var name := NextName(counter, "discard");
        choices, i := Verdict(rest, shape, scopes, Advance(counter, "discard"), Some(name));
        var e' := EmitLoop(rest, shape, scopes, Advance(counter, "discard"), Some(name));
        Later(stmts, scopes, scopes, e', choices, i);
        i := i + 1;
      case IfStmt(_, _, _) => choices, i := VerdictOnBranches(stmts, shape, scopes, counter, last);
      case Return(_) => NothingWrongHere(stmts, scopes);
      case ThrowStmt(_) => NothingWrongHere(stmts, scopes);
      case _ => WrongHere(stmts, scopes);
    }
  }

  lemma {:induction false} VerdictOnBranches(stmts: seq<Stmt>, shape: LoopShape, scopes: Scopes, counter: Counter,
                                             last: Option<string>) returns (choices: seq<bool>, i: nat)
    requires scopes != [] && stmts != [] && stmts[0].IfStmt?
    ensures Judged(EmitLoop(stmts, shape, scopes, counter, last), stmts, scopes, choices, i)
    decreases StmtsSize(stmts), 0
  {
    hide EmitExpr, Faultless, FirstFault, Faulty, BranchStmts;
    var s, rest := stmts[0], stmts[1..];
    BranchSizes(s, rest);
    var first := BranchStmts(s.then_, rest);
    var second := if s.else_.Present? then BranchStmts(s.else_.stmts, rest) else rest;
    choices, i := Verdict(first, shape, scopes, counter, None);
    SameWays(s.then_, rest, scopes);
    var e := EmitLoop(first, shape, scopes, counter, None);
    if e.Rejected? {
      InFirst(stmts, scopes, first, e.reason, choices, i);
      choices, i := [true] + choices, i + 1;
    } else {
      choices, i := Verdict(second, shape, scopes, e.counter, None);
      if s.else_.Present? {
        SameWays(s.else_.stmts, rest, scopes);
      } else {
        assert [] + rest == rest;
      }
      var e' := EmitLoop(second, shape, scopes, e.counter, None);
      InSecond(stmts, scopes, first, second, e', choices, i);
      choices, i := [false] + choices, i + 1;
    }
  }

  lemma {:induction false} BranchSizes(s: Stmt, rest: seq<Stmt>)
    requires s.IfStmt?
    ensures StmtsSize(BranchStmts(s.then_, rest)) < StmtSize(s) + StmtsSize(rest)
    ensures s.else_.Present? ==> StmtsSize(BranchStmts(s.else_.stmts, rest)) < StmtSize(s) + StmtsSize(rest)
    ensures StmtsSize(rest) < StmtSize(s) + StmtsSize(rest)
  {
    SizeAppend(s.then_, rest);
    if s.else_.Present? {
      SizeAppend(s.else_.stmts, rest);
    }
  }

  lemma {:induction false} NothingWrong(scopes: Scopes)
    ensures Faultless([], scopes)
  {
  }

  lemma {:induction false} NothingWrongHere(stmts: seq<Stmt>, scopes: Scopes)
    requires stmts != [] && (stmts[0].Return? || stmts[0].ThrowStmt?)
    ensures Faultless(stmts, scopes)
  {
  }

  lemma {:induction false} WrongHere(stmts: seq<Stmt>, scopes: Scopes)
    requires stmts != [] && Fault([stmts[0]], 0, scopes).Some?
    ensures FirstFault(stmts, [], 0, scopes, Fault([stmts[0]], 0, scopes).value)
  {
    assert Way(stmts, []) != [] && Way(stmts, [])[0] == stmts[0];
    assert Way(stmts, [])[..0] == [stmts[0]][..0];
  }

  /** A statement at which nothing is wrong does not change the verdict on the rest. */
  lemma {:induction false} Later(stmts: seq<Stmt>, scopes: Scopes, after: Scopes, e: Emitted, choices: seq<bool>,
                                 i: nat)
    requires stmts != [] && (stmts[0].VarStmt? || stmts[0].Assign? || stmts[0].ExprStmt?)
    requires Behind(stmts[0], scopes, after) && Fault([stmts[0]], 0, scopes).None?
    requires Judged(e, stmts[1..], after, choices, i)
    ensures Judged(e, stmts, scopes, choices, i + 1)
  {
    hide Faulty, Sooner, Fault, Behind;
    forall c, j: nat, r ensures Faulty(stmts, c, j, scopes, r) <==> j > 0 && Faulty(stmts[1..], c, j - 1, after, r) {
      FaultyNext(stmts, c, scopes, after);
      if j == 0 {
        FineHere(stmts, c, scopes, r);
      } else {
        assert Faulty(stmts, c, (j - 1) + 1, scopes, r) <==> Faulty(stmts[1..], c, j - 1, after, r);
      }
    }
  }

  lemma {:induction false} FineHere(stmts: seq<Stmt>, c: seq<bool>, scopes: Scopes, r: string)
    requires stmts != [] && Fault([stmts[0]], 0, scopes).None?
    ensures !Faulty(stmts, c, 0, scopes, r)
  {
    assert Way(stmts, c) != [] && Way(stmts, c)[0] == stmts[0];
    assert Way(stmts, c)[..0] == [stmts[0]][..0];
  }

  /** The ways through an `if` are those through its branches. */
  lemma {:induction false} BranchWays(stmts: seq<Stmt>, scopes: Scopes, c: seq<bool>, j: nat, r: string)
    requires stmts != [] && stmts[0].IfStmt?
    ensures Faulty(stmts, c, j, scopes, r) <==>
            c != [] && j > 0 && Faulty(Branch(stmts[0], c[0]) + stmts[1..], c[1..], j - 1, scopes, r)
  {
    hide Faulty;
    if j == 0 {
      FineHere(stmts, c, scopes, r);
    } else if c == [] {
      NoWayOn(stmts, scopes, j, r);
    } else {
      FaultyBranch(stmts, c, scopes);
      assert Faulty(stmts, c, (j - 1) + 1, scopes, r) <==>
             Faulty(Branch(stmts[0], c[0]) + stmts[1..], c[1..], j - 1, scopes, r);
    }
  }

  lemma {:induction false} NoWayOn(stmts: seq<Stmt>, scopes: Scopes, j: nat, r: string)
    requires stmts != [] && stmts[0].IfStmt? && j > 0
    ensures !Faulty(stmts, [], j, scopes, r)
  {
  }

  lemma {:induction false} InFirst(stmts: seq<Stmt>, scopes: Scopes, first: seq<Stmt>, reason: string,
                                   choices: seq<bool>, i: nat)
    requires stmts != [] && stmts[0].IfStmt? && FirstFault(first, choices, i, scopes, reason)
    requires forall c, j: nat, r ::
               Faulty(first, c, j, scopes, r) <==> Faulty(stmts[0].then_ + stmts[1..], c, j, scopes, r)
    ensures FirstFault(stmts, [true] + choices, i + 1, scopes, reason)
  {
    hide Faulty;
    var whole := [true] + choices;
    assert whole[1..] == choices;
    BranchWays(stmts, scopes, whole, i + 1, reason);
    forall j: nat, r | j < i + 1 ensures !Faulty(stmts, whole, j, scopes, r) {
      BranchWays(stmts, scopes, whole, j, r);
    }
    forall c, j: nat, r | Sooner(c, whole) ensures !Faulty(stmts, c, j, scopes, r) {
      BranchWays(stmts, scopes, c, j, r);
    }
  }

  lemma {:induction false} InSecond(stmts: seq<Stmt>, scopes: Scopes, first: seq<Stmt>, second: seq<Stmt>, e: Emitted,
                                    choices: seq<bool>, i: nat)
    requires stmts != [] && stmts[0].IfStmt? && Faultless(first, scopes) && Judged(e, second, scopes, choices, i)
    requires forall c, j: nat, r ::
               Faulty(first, c, j, scopes, r) <==> Faulty(Branch(stmts[0], true) + stmts[1..], c, j, scopes, r)
    requires forall c, j: nat, r ::
               Faulty(second, c, j, scopes, r) <==> Faulty(Branch(stmts[0], false) + stmts[1..], c, j, scopes, r)
    ensures Judged(e, stmts, scopes, [false] + choices, i + 1)
  {
    hide Faulty;
    var whole := [false] + choices;
    assert whole[1..] == choices;
    if e.Emitted? {
      forall c, j: nat, r ensures !Faulty(stmts, c, j, scopes, r) {
        BranchWays(stmts, scopes, c, j, r);
      }
    } else {
      BranchWays(stmts, scopes, whole, i + 1, e.reason);
      forall j: nat, r | j < i + 1 ensures !Faulty(stmts, whole, j, scopes, r) {
        BranchWays(stmts, scopes, whole, j, r);
      }
      forall c, j: nat, r | Sooner(c, whole) ensures !Faulty(stmts, c, j, scopes, r) {
        BranchWays(stmts, scopes, c, j, r);
      }
    }
  }

  lemma {:induction false} EmittedExactly(stmts: seq<Stmt>, shape: LoopShape, scopes: Scopes, counter: Counter,
                                          last: Option<string>)
    requires scopes != []
    ensures EmitLoop(stmts, shape, scopes, counter, last).Emitted? <==> Faultless(stmts, scopes)
  {
    hide EmitLoop, Faulty, Sooner;
    var choices, i := Verdict(stmts, shape, scopes, counter, last);
  }

  /** A loop is lowered exactly when nothing is wrong on any way through its body. Any other one
      is refused with its first fault. Names and numbers of the context play no part. */
  lemma {:induction false} LoweredExactly(w: Stmt, scopes: Scopes, counter: Counter)
    requires w.WhileStmt? && scopes != []
    ensures LowerLoop(w, scopes, counter).Lowered? <==> Faultless(w.body, scopes)
    ensures forall reason :: LowerLoop(w, scopes, counter) == NotLowered(reason) <==>
              exists choices, i :: FirstFault(w.body, choices, i, scopes, reason)
  {
    hide EmitLoop, Way, Faulty, Sooner;
    var choices, i := Verdict(w.body, ShapeOf(w, scopes, counter), scopes, BodyCounter(w, counter), None);
    var l := LowerLoop(w, scopes, counter);
    forall reason, c, j: nat | FirstFault(w.body, c, j, scopes, reason) ensures l == NotLowered(reason) {
      if l.NotLowered? {
        FirstFaultUnique(w.body, scopes, choices, i, l.reason, c, j, reason);
      }
    }
  }

  /** There is one first fault. */
  lemma {:induction false} FirstFaultUnique(stmts: seq<Stmt>, scopes: Scopes, c: seq<bool>, i: nat, r: string,
                                            c': seq<bool>, i': nat, r': string)
    requires FirstFault(stmts, c, i, scopes, r) && FirstFault(stmts, c', i', scopes, r')
    ensures i == i' && r == r'
  {
    hide Faulty;
    assert !Sooner(c, c') && !Sooner(c', c);
    OneLonger(c, c');
    if c <= c' {
      SameFault(stmts, scopes, c, c', i, r);
      SameFault(stmts, scopes, c, c', i', r');
      OneFault(stmts, scopes, c, i, r, r');
    } else {
      SameFault(stmts, scopes, c', c, i', r');
      SameFault(stmts, scopes, c', c, i, r);
      OneFault(stmts, scopes, c', i', r, r');
    }
  }

  lemma {:induction false} OneLonger(a: seq<bool>, b: seq<bool>)
    requires !Sooner(a, b) && !Sooner(b, a)
    ensures a <= b || b <= a
  {
    if a != [] && b != [] {
      OneLonger(a[1..], b[1..]);
      assert a == [a[0]] + a[1..] && b == [b[0]] + b[1..];
    }
  }

  /** With more choices a way goes on as it began. */
  lemma {:induction false} Longer(stmts: seq<Stmt>, c: seq<bool>, c': seq<bool>)
    requires c <= c'
    ensures Way(stmts, c) <= Way(stmts, c')
    decreases StmtsSize(stmts)
  {
    if stmts != [] {
      var s, rest := stmts[0], stmts[1..];
      assert StmtsSize(stmts) == StmtSize(s) + StmtsSize(rest);
      if s.IfStmt? && c != [] {
        SizeAppend(Branch(s, c[0]), rest);
        Longer(Branch(s, c[0]) + rest, c[1..], c'[1..]);
      } else if s.VarStmt? || s.Assign? || s.ExprStmt? {
        Longer(rest, c, c');
      }
    }
  }

  lemma {:induction false} SameFault(stmts: seq<Stmt>, scopes: Scopes, c: seq<bool>, c': seq<bool>, i: nat, r: string)
    requires c <= c'
    ensures Faulty(stmts, c, i, scopes, r) ==> Faulty(stmts, c', i, scopes, r)
    ensures i < |Way(stmts, c)| ==> (Faulty(stmts, c', i, scopes, r) ==> Faulty(stmts, c, i, scopes, r))
    ensures Faulty(stmts, c, i, scopes, r) ==> i < |Way(stmts, c)|
  {
    Longer(stmts, c, c');
    if i < |Way(stmts, c)| {
      assert Way(stmts, c)[..i] == Way(stmts, c')[..i];
    }
  }

  /** At one place there is one fault. */
  lemma {:induction false} OneFault(stmts: seq<Stmt>, scopes: Scopes, c: seq<bool>, i: nat, r: string, r': string)
    requires Faulty(stmts, c, i, scopes, r) && Faulty(stmts, c, i, scopes, r')
    ensures r == r'
  {
  }

  // ----- branches that are cut -----

  /** That what is behind such a branch is left out of it makes no difference to the code: a
      classifier that finds fewer branches would do as well. */
  lemma {:induction false} CutMakesNoDifference(branch: seq<Stmt>, rest: seq<Stmt>, shape: LoopShape, scopes: Scopes,
                                                counter: Counter, last: Option<string>)
    requires SomeTerminates(branch) && scopes != []
    ensures EmitLoop(branch + rest, shape, scopes, counter, last) == EmitLoop(branch, shape, scopes, counter, last)
    decreases StmtsSize(branch), 2
  {
    hide EmitExpr, BumpVersion;
    var s, more := branch[0], branch[1..];
    var whole := branch + rest;
    assert whole[0] == s && whole[1..] == more + rest;
    assert StmtsSize(branch) == StmtSize(s) + StmtsSize(more);
    match s
    case VarStmt(isLet, decls) =>
      if decls != [] {
        CutDeclarations(isLet, decls, more, rest, shape, scopes, counter);
      }
    case Assign(x, e) =>
      if IsLetBinding(x, scopes) {
        BehindAssign(x, e, scopes);
        var after := BumpVersion(x, scopes);
        CutMakesNoDifference(more, rest, shape, after, counter, Some(ResolveRef(x, after)));
      }
    case ExprStmt(_) =>
      var name := NextName(counter, "discard");
      CutMakesNoDifference(more, rest, shape, scopes, Advance(counter, "discard"), Some(name));
    case IfStmt(_, _, _) => CutIf(branch, rest, shape, scopes, counter, last);
    case _ =>
  }

  lemma {:induction false} CutDeclarations(isLet: bool, decls: seq<Decl>, more: seq<Stmt>, rest: seq<Stmt>,
                                           shape: LoopShape, scopes: Scopes, counter: Counter)
    requires SomeTerminates(more) && scopes != [] && decls != []
    ensures EmitDecls(isLet, decls, more + rest, shape, scopes, counter) ==
            EmitDecls(isLet, decls, more, shape, scopes, counter)
    decreases StmtsSize(more) + |decls|, 0
  {
    hide EmitExpr;
    var x := decls[0].name;
    var after := DeclareBinding(x, isLet, scopes);
    if |decls| == 1 {
      CutMakesNoDifference(more, rest, shape, after, counter, Some(if isLet then Versioned(x, 0) else x));
    } else {
      CutDeclarations(isLet, decls[1..], more, rest, shape, after, counter);
    }
  }

  lemma {:induction false} CutIf(branch: seq<Stmt>, rest: seq<Stmt>, shape: LoopShape, scopes: Scopes,
                                 counter: Counter, last: Option<string>)
    requires SomeTerminates(branch) && scopes != [] && branch[0].IfStmt?
    ensures EmitLoop(branch + rest, shape, scopes, counter, last) == EmitLoop(branch, shape, scopes, counter, last)
    decreases StmtsSize(branch), 1
  {
    var s, more := branch[0], branch[1..];
    var whole := branch + rest;
    assert whole[0] == s && whole[1..] == more + rest;
    assert StmtsSize(branch) == StmtSize(s) + StmtsSize(more);
    var other := if s.else_.Present? then s.else_.stmts else [];
    CutBranch(s, s.then_, more, rest, shape, scopes, counter);
    var e := EmitLoop(BranchStmts(s.then_, more), shape, scopes, counter, None);
    if e.Emitted? {
      CutBranch(s, other, more, rest, shape, scopes, e.counter);
      if s.else_.Absent? {
        assert [] + more == more && [] + (more + rest) == more + rest;
      }
    }
  }

  lemma {:induction false} CutBranch(s: Stmt, b: seq<Stmt>, more: seq<Stmt>, rest: seq<Stmt>, shape: LoopShape,
                                     scopes: Scopes, counter: Counter)
    requires s.IfStmt? && scopes != [] && (SomeTerminates(b) || SomeTerminates(more)) && StmtsSize(b) < StmtSize(s)
    ensures EmitLoop(BranchStmts(b, more + rest), shape, scopes, counter, None) ==
            EmitLoop(BranchStmts(b, more), shape, scopes, counter, None)
    decreases StmtSize(s) + StmtsSize(more), 0
  {
    hide EmitLoop;
    if !SomeTerminates(b) {
      TerminatesAppend(b, more);
      SizeAppend(b, more);
      CutMakesNoDifference(b + more, rest, shape, scopes, counter, None);
      assert b + more + rest == b + (more + rest);
    }
  }
}
