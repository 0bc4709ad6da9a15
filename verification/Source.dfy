/** The workflow language the compiler reads: statements, their block-scoped meaning, and
    the termination classifiers. Expressions are kernel expressions over source names. */
module Source {
  import opened Text
  import opened Ir
  import opened Kernel

  datatype Decl = Decl(name: string, init: Node)

  datatype Stmt =
    | VarStmt(isLet: bool, decls: seq<Decl>)
    | Assign(name: string, value: Node)
    | ExprStmt(expr: Node)
    | IfStmt(cond: Node, then_: seq<Stmt>, else_: Body)
    | Return(result: Option<Node>)
    | ThrowStmt(message: Node)                            // throw new Error(message)
    | WhileStmt(test: Option<Node>, body: seq<Stmt>)      // None is `while (true)`
    | Block(stmts: seq<Stmt>)
    | TryStmt(tried: seq<Stmt>, handler: Option<Handler>, finalizer: Body)

  datatype Body = Absent | Present(stmts: seq<Stmt>)

  datatype Handler = Handler(param: Option<string>, body: seq<Stmt>)

  type Store = map<string, Node>

  /** How a statement list leaves: it falls through, returns, throws, waits for an answer,
      or runs out of fuel. */
  datatype Exit =
    | Fall(store: Store, rest: seq<Answer>)
    | Returned(value: Node, store: Store, rest: seq<Answer>)
    | Thrown(error: Error, store: Store, rest: seq<Answer>)
    | Waiting(request: Request)
    | NoFuel

  // ----- meaning -----

  /** An expression over the variables of `store`. */
  ghost function Read(e: Node, store: Store, answers: seq<Answer>, fuel: nat): Out
  {
    Eval(e, Frame(store, Empty), answers, fuel)
  }

  /** The exit of a statement whose expression did not yield a value. */
  function Abrupt(o: Out, store: Store): Exit
    requires !o.Done?
  {
    match o
    case Raised(e, rest) => Thrown(e, store, rest)
    case Suspended(r) => Waiting(r)
    case OutOfFuel => NoFuel
  }

  /** The variables of `store` that were there when the block was entered. */
  function Leave(store: Store, outer: set<string>): Store
  {
    map x | x in store && x in outer :: store[x]
  }

  function LeaveExit(x: Exit, outer: set<string>): Exit
  {
    match x
    case Fall(s, rest) => Fall(Leave(s, outer), rest)
    case Returned(v, s, rest) => Returned(v, Leave(s, outer), rest)
    case Thrown(e, s, rest) => Thrown(e, Leave(s, outer), rest)
    case other => other
  }

  ghost function Exec(stmts: seq<Stmt>, store: Store, answers: seq<Answer>, fuel: nat): Exit
    decreases fuel, stmts, 2
  {
    if stmts == [] then Fall(store, answers)
    else
      match ExecOne(stmts[0], store, answers, fuel)
      case Fall(store', rest) => Exec(stmts[1..], store', rest, fuel)
      case other => other
  }

  ghost function ExecOne(s: Stmt, store: Store, answers: seq<Answer>, fuel: nat): Exit
    decreases fuel, s, 2
  {
    match s
    case VarStmt(_, decls) => Declare(decls, store, answers, fuel)
    case Assign(x, e) =>
      var o := Read(e, store, answers, fuel);
      if o.Done? then Fall(store[x := o.value], o.rest) else Abrupt(o, store)
    case ExprStmt(e) =>
      var o := Read(e, store, answers, fuel);
      if o.Done? then Fall(store, o.rest) else Abrupt(o, store)
    case IfStmt(cond, then_, else_) =>
      var o := Read(cond, store, answers, fuel);
      if !o.Done? then Abrupt(o, store)
      else if Truthy(o.value) then ExecBlock(then_, store, o.rest, fuel)
      else if else_.Present? then ExecBlock(else_.stmts, store, o.rest, fuel)
      else Fall(store, o.rest)
    case Return(None) => Returned(Null, store, answers)
    case Return(Some(e)) =>
      var o := Read(e, store, answers, fuel);
      if o.Done? then Returned(o.value, store, o.rest) else Abrupt(o, store)
    case ThrowStmt(m) =>
      var o := Read(m, store, answers, fuel);
      if o.Done? then Thrown(ThrownError(o.value), store, o.rest) else Abrupt(o, store)
    case WhileStmt(_, _) => ExecWhile(s, store, answers, fuel)
    case Block(stmts) => ExecBlock(stmts, store, answers, fuel)
    case TryStmt(tried, handler, finalizer) =>
      var x := ExecBlock(tried, store, answers, fuel);
      var x' :=
        if x.Thrown? && Catchable(x.error) && handler.Some? then
          var h := handler.value;
          var inner := if h.param.Some? then x.store[h.param.value := ErrorToValue(x.error)] else x.store;
          LeaveExit(Exec(h.body, inner, x.rest, fuel), store.Keys)
        else x;
      if finalizer.Absent? || x'.Waiting? || x'.NoFuel? then x'
      else
        match ExecBlock(finalizer.stmts, x'.store, x'.rest, fuel)
        case Fall(store', rest) => Rejoin(x', store', rest)
        case other => other
  }

  /** The exit `x` once a finalizer has run. */
  function Rejoin(x: Exit, store: Store, rest: seq<Answer>): Exit
  {
    match x
    case Fall(_, _) => Fall(store, rest)
    case Returned(v, _, _) => Returned(v, store, rest)
    case Thrown(e, _, _) => Thrown(e, store, rest)
    case other => other
  }

  ghost function Declare(decls: seq<Decl>, store: Store, answers: seq<Answer>, fuel: nat): Exit
    decreases fuel, decls, 1
  {
    if decls == [] then Fall(store, answers)
    else
      var o := Read(decls[0].init, store, answers, fuel);
      if o.Done? then Declare(decls[1..], store[decls[0].name := o.value], o.rest, fuel)
      else Abrupt(o, store)
  }

  /** A block: its own declarations are gone when it ends. */
  ghost function ExecBlock(stmts: seq<Stmt>, store: Store, answers: seq<Answer>, fuel: nat): Exit
    decreases fuel, stmts, 3
  {
    LeaveExit(Exec(stmts, store, answers, fuel), store.Keys)
  }

  ghost function ExecWhile(w: Stmt, store: Store, answers: seq<Answer>, fuel: nat): Exit
    requires w.WhileStmt?
    decreases fuel, w, 1
  {
    if fuel == 0 then NoFuel
    else
      var o := if w.test.Some? then Read(w.test.value, store, answers, fuel - 1)
               else Done(Bool(true), answers);
      if !o.Done? then Abrupt(o, store)
      else if !Truthy(o.value) then Fall(store, o.rest)
      else
        match ExecBlock(w.body, store, o.rest, fuel - 1)
        case Fall(store', rest) => ExecWhile(w, store', rest, fuel - 1)
        case other => other
  }

  // ----- termination classifiers -----

  /** Every path through the statement reaches a return or a throw. */
  predicate AlwaysTerminates(s: Stmt)
  {
    match s
    case Return(_) => true
    case ThrowStmt(_) => true
    case Block(stmts) => SomeTerminates(stmts)
    case IfStmt(_, then_, else_) =>
      else_.Present? && SomeTerminates(then_) && SomeTerminates(else_.stmts)
    case TryStmt(tried, handler, _) =>
      SomeTerminates(tried) && (handler.Some? ==> SomeTerminates(handler.value.body))
    case _ => false
  }

  predicate SomeTerminates(stmts: seq<Stmt>)
  {
    stmts != [] && (AlwaysTerminates(stmts[0]) || SomeTerminates(stmts[1..]))
  }

  /** Every reachable normal exit of the statement is a return. */
  predicate AlwaysReturns(s: Stmt)
  {
    match s
    case Return(_) => true
    case Block(stmts) => ListReturns(stmts)
    case IfStmt(_, then_, else_) =>
      else_.Present? && ListReturns(then_) && ListReturns(else_.stmts)
    case TryStmt(tried, handler, finalizer) =>
      !(finalizer.Present? && SomeTerminates(finalizer.stmts)) && ListReturns(tried) &&
      (handler.Some? ==> ListReturns(handler.value.body))
    case _ => false
  }

  predicate ListReturns(stmts: seq<Stmt>)
  {
    stmts != [] &&
    (AlwaysReturns(stmts[0]) || (!AlwaysTerminates(stmts[0]) && ListReturns(stmts[1..])))
  }

  /** `AlwaysTerminates` is sound: such a statement never falls through. */
  lemma {:induction false} TerminatingNeverFalls(s: Stmt, store: Store, answers: seq<Answer>, fuel: nat)
    requires AlwaysTerminates(s)
    ensures !ExecOne(s, store, answers, fuel).Fall?
    decreases s
  {
    match s
    case Return(_) =>
    case ThrowStmt(_) =>
    case Block(stmts) => TerminatingListNeverFalls(stmts, store, answers, fuel);
    case IfStmt(cond, then_, else_) =>
      var o := Read(cond, store, answers, fuel);
      if o.Done? {
        TerminatingListNeverFalls(then_, store, o.rest, fuel);
        TerminatingListNeverFalls(else_.stmts, store, o.rest, fuel);
      }
    case TryStmt(tried, handler, _) =>
      TerminatingListNeverFalls(tried, store, answers, fuel);
      var x := ExecBlock(tried, store, answers, fuel);
      if x.Thrown? && Catchable(x.error) && handler.Some? {
        var h := handler.value;
        var inner := if h.param.Some? then x.store[h.param.value := ErrorToValue(x.error)] else x.store;
        TerminatingListNeverFalls(h.body, inner, x.rest, fuel);
      }
  }

  lemma {:induction false} TerminatingListNeverFalls(stmts: seq<Stmt>, store: Store, answers: seq<Answer>, fuel: nat)
    requires SomeTerminates(stmts)
    ensures !Exec(stmts, store, answers, fuel).Fall?
    decreases stmts
  {
    var x := ExecOne(stmts[0], store, answers, fuel);
    if AlwaysTerminates(stmts[0]) {
      TerminatingNeverFalls(stmts[0], store, answers, fuel);
    } else if x.Fall? {
      TerminatingListNeverFalls(stmts[1..], x.store, x.rest, fuel);
    }
  }

  /** `AlwaysReturns` implies `AlwaysTerminates`. */
  lemma {:induction false} ReturningTerminates(s: Stmt)
    requires AlwaysReturns(s)
    ensures AlwaysTerminates(s)
    decreases s
  {
    match s
    case Return(_) =>
    case Block(stmts) => ReturningListTerminates(stmts);
    case IfStmt(_, then_, else_) =>
      ReturningListTerminates(then_);
      ReturningListTerminates(else_.stmts);
    case TryStmt(tried, handler, _) =>
      ReturningListTerminates(tried);
      if handler.Some? {
        ReturningListTerminates(handler.value.body);
      }
  }

  lemma {:induction false} ReturningListTerminates(stmts: seq<Stmt>)
    requires ListReturns(stmts)
    ensures SomeTerminates(stmts)
    decreases stmts
  {
    if AlwaysReturns(stmts[0]) {
      ReturningTerminates(stmts[0]);
    } else {
      ReturningListTerminates(stmts[1..]);
    }
  }

  /** `AlwaysReturns` is sound: every exit that is neither a throw nor a stop is a return. */
  lemma {:induction false} ReturningExits(s: Stmt, store: Store, answers: seq<Answer>, fuel: nat)
    requires AlwaysReturns(s)
    ensures var x := ExecOne(s, store, answers, fuel);
            x.Returned? || x.Thrown? || x.Waiting? || x.NoFuel?
  {
    ReturningTerminates(s);
    TerminatingNeverFalls(s, store, answers, fuel);
  }
}
