/** IR as the constructor DSL reads and writes it, and the table of constructors. Numbers
    are their numerals, objects list their entries in order. */
module Term {
  import opened Text

  datatype BinaryOp = Add | Sub | Mul | Div | Mod | Gt | Gte | Lt | Lte | Eq | Neq | And | Or

  datatype UnaryOp = Not | Neg

  datatype ListKind = Seq | Arr | Concat | ConcatArrays | MergeObjects | All | Race

  datatype Term =
    | Undefined                                          // only the parser makes it
    | Null | Bool(b: bool) | Num(text: string) | Str(s: string)
    | Array(items: seq<Term>)
    | Object(entries: seq<Entry>)
    | Derived(own: seq<Entry>, above: Term)              // an object whose prototype has been set
    | Ref(name: string)
    | Quote(expr: Term)
    | Fn(params: seq<string>, body: Term)
    | Let(bound: string, value: Term, scope: Term)
    | If(cond: Term, then_: Term, else_: Option<Term>)
    | While(test: Term, exprs: seq<Term>)
    | Call(fn: Term, args: seq<Term>)
    | Get(obj: Term, key: string)
    | Binary(bop: BinaryOp, left: Term, right: Term)
    | Unary(uop: UnaryOp, operand: Term)
    | Listed(kind: ListKind, parts: seq<Term>)
    | Construct(built: Term)
    | Throw(message: Term)
    | Try(tried: Term, catchParam: Option<string>, catchBody: Option<Term>,
          finallyBody: Option<Term>, finallyPayload: Option<string>)
    | Eval(id: string, data: Term)
    | Timebox(duration: Term, timed: Term)

  datatype Entry = Entry(key: string, value: Term)

  // ----- size -----

  function Size(t: Term): (n: nat)
    ensures n > 0
  {
    match t
    case Array(items) => 1 + SizeAll(items)
    case Object(entries) => 1 + SizeEntries(entries)
    case Derived(own, above) => 1 + SizeEntries(own) + Size(above)
    case Quote(e) => 1 + Size(e)
    case Fn(params, body) => 2 + |params| + Size(body)
    case Let(_, value, scope) => 2 + Size(value) + Size(scope)
    case If(c, t, e) => 1 + Size(c) + Size(t) + SizeOption(e)
    case While(c, exprs) => 2 + Size(c) + SizeAll(exprs)
    case Call(f, args) => 1 + Size(f) + SizeAll(args)
    case Get(o, _) => 2 + Size(o)
    case Binary(_, a, b) => 1 + Size(a) + Size(b)
    case Unary(_, a) => 1 + Size(a)
    case Listed(_, parts) => 1 + SizeAll(parts)
    case Construct(built) => 1 + Size(built)
    case Throw(m) => 1 + Size(m)
    case Try(b, _, c, f, _) => 6 + Size(b) + SizeOption(c) + SizeOption(f)
    case Eval(_, d) => 2 + Size(d)
    case Timebox(d, b) => 1 + Size(d) + Size(b)
    case Ref(_) => 2
    case _ => 1
  }

  function SizeOption(o: Option<Term>): nat { if o.Some? then Size(o.value) else 0 }

  lemma {:induction false} SizeOfPart(o: Option<Term>)
    ensures o.Some? ==> SizeOption(o) == Size(o.value)
  {
  }

  function SizeAll(ts: seq<Term>): nat
  {
    if ts == [] then 0 else Size(ts[0]) + SizeAll(ts[1..])
  }

  function SizeEntries(es: seq<Entry>): nat
  {
    if es == [] then 0 else Size(es[0].value) + SizeEntries(es[1..])
  }

  /** The entries an object has itself. */
  function Own(t: Term): (es: seq<Entry>)
    ensures SizeEntries(es) < Size(t)
  {
    match t
    case Object(entries) => entries
    case Derived(own, _) => own
    case _ => []
  }

  // ----- calls -----

  function BinaryName(op: BinaryOp): string
  {
    match op
    case Add => "Add" case Sub => "Sub" case Mul => "Mul" case Div => "Div" case Mod => "Mod"
    case Gt => "Gt" case Gte => "Gte" case Lt => "Lt" case Lte => "Lte"
    case Eq => "Eq" case Neq => "Neq" case And => "And" case Or => "Or"
  }

  function ListName(k: ListKind): string
  {
    match k
    case Seq => "Seq" case Arr => "Arr" case Concat => "Concat" case ConcatArrays => "ConcatArrays"
    case MergeObjects => "MergeObjects" case All => "All" case Race => "Race"
  }

  /** Nodes that are written as a constructor call. */
  predicate IsCall(t: Term)
  {
    !(t.Undefined? || t.Null? || t.Bool? || t.Num? || t.Str? || t.Array? || t.Object? || t.Derived?)
  }

  function Name(t: Term): string
    requires IsCall(t)
  {
    match t
    case Ref(_) => "Ref"
    case Quote(_) => "Q"
    case Fn(_, _) => "Fn"
    case Let(_, _, _) => "Let"
    case If(_, _, _) => "If"
    case While(_, _) => "While"
    case Call(_, _) => "Call"
    case Get(_, _) => "Get"
    case Binary(op, _, _) => BinaryName(op)
    case Unary(op, _) => if op == Not then "Not" else "Neg"
    case Listed(kind, _) => ListName(kind)
    case Construct(_) => "Construct"
    case Throw(_) => "Throw"
    case Try(_, _, _, _, _) => "Try"
    case Eval(_, _) => "Eval"
    case Timebox(_, _) => "Timebox"
  }

  function Strings(names: seq<string>): (r: seq<Term>)
    ensures |r| == |names| && forall i :: 0 <= i < |names| ==> r[i] == Str(names[i])
    ensures SizeAll(r) == |names|
  {
    if names == [] then [] else
      var r := [Str(names[0])] + Strings(names[1..]);
      assert r[1..] == Strings(names[1..]);
      r
  }

  function OrUndefined(o: Option<Term>): Term { if o.Some? then o.value else Undefined }

  function NameOrUndefined(o: Option<string>): Term { if o.Some? then Str(o.value) else Undefined }

  function When(present: bool, t: Term): (r: seq<Term>)
    ensures SizeAll(r) == if present then Size(t) else 0
  {
    if present then
      assert [t][1..] == [];
      [t]
    else []
  }

  /** The arguments that are written for a node; a `try` stops after the last part it has. */
  function Args(t: Term): seq<Term>
    requires IsCall(t)
  {
    match t
    case Ref(name) => [Str(name)]
    case Quote(e) => [e]
    case Fn(params, body) => [Array(Strings(params)), body]
    case Let(name, value, scope) => [Str(name), value, scope]
    case If(c, t, e) => if e.Some? then [c, t, e.value] else [c, t]
    case While(c, exprs) => [c, Array(exprs)]
    case Call(f, args) => [f] + args
    case Get(o, key) => [o, Str(key)]
    case Binary(_, a, b) => [a, b]
    case Unary(_, a) => [a]
    case Listed(_, parts) => parts
    case Construct(built) => [built]
    case Throw(m) => [m]
    case Try(b, param, c, f, payload) =>
      var third, fourth := f.Some? || payload.Some?, payload.Some?;
      [b] +
      When(param.Some? || c.Some? || third, NameOrUndefined(param)) +
      When(c.Some? || third, OrUndefined(c)) +
      When(third, OrUndefined(f)) +
      When(fourth, NameOrUndefined(payload))
    case Eval(id, d) => [Str(id), d]
    case Timebox(d, b) => [d, b]
  }

  lemma {:induction false} SizeOne(a: Term)
    ensures SizeAll([a]) == Size(a)
  {
    assert [a][1..] == [];
  }

  lemma {:induction false} SizeAppend(a: seq<Term>, b: seq<Term>)
    ensures SizeAll(a + b) == SizeAll(a) + SizeAll(b)
  {
    if a == [] {
      assert a + b == b;
    } else {
      SizeAppend(a[1..], b);
      assert (a + b)[1..] == a[1..] + b;
    }
  }

  /** Arguments are smaller than the node. */
  lemma {:induction false} ArgsSmaller(t: Term)
    requires IsCall(t)
    ensures SizeAll(Args(t)) < Size(t)
  {
    hide SizeAll;
    match t
    case Let(name, value, scope) =>
      assert Args(t) == [Str(name)] + ([value] + [scope]);
      SizeAppend([Str(name)], [value] + [scope]);
      SizeAppend([value], [scope]);
      SizeOne(Str(name));
      SizeOne(value);
      SizeOne(scope);
    case If(c, th, e) =>
      var rest := When(e.Some?, OrUndefined(e));
      assert Args(t) == [c] + ([th] + rest);
      SizeAppend([c], [th] + rest);
      SizeAppend([th], rest);
      SizeOne(c);
      SizeOne(th);
    case Call(f, args) =>
      SizeAppend([f], args);
      SizeOne(f);
    case Try(b, _, _, _, _) => TryArgsSmaller(t);
    case Listed(_, _) =>
    case Ref(name) => SizeOne(Str(name));
    case Quote(e) => SizeOne(e);
    case Unary(_, a) => SizeOne(a);
    case Construct(built) => SizeOne(built);
    case Throw(m) => SizeOne(m);
    case Fn(params, body) => SizeTwo(Array(Strings(params)), body);
    case While(c, exprs) => SizeTwo(c, Array(exprs));
    case Get(o, key) => SizeTwo(o, Str(key));
    case Binary(_, a, b) => SizeTwo(a, b);
    case Eval(id, d) => SizeTwo(Str(id), d);
    case Timebox(d, b) => SizeTwo(d, b);
  }

  lemma {:induction false} SizeTwo(a: Term, b: Term)
    ensures SizeAll([a, b]) == Size(a) + Size(b)
  {
    assert [a, b] == [a] + [b];
    SizeAppend([a], [b]);
    SizeOne(a);
    SizeOne(b);
  }

  lemma {:induction false} TryArgsSmaller(t: Term)
    requires t.Try?
    ensures SizeAll(Args(t)) < Size(t)
  {
    hide SizeAll, When;
    var third := t.finallyBody.Some? || t.finallyPayload.Some?;
    var p1 := When(t.catchParam.Some? || t.catchBody.Some? || third, NameOrUndefined(t.catchParam));
    var p2 := When(t.catchBody.Some? || third, OrUndefined(t.catchBody));
    var p3 := When(third, OrUndefined(t.finallyBody));
    var p4 := When(t.finallyPayload.Some?, NameOrUndefined(t.finallyPayload));
    SizeAppend([t.tried] + p1 + p2 + p3, p4);
    SizeAppend([t.tried] + p1 + p2, p3);
    SizeAppend([t.tried] + p1, p2);
    SizeAppend([t.tried], p1);
    SizeOne(t.tried);
  }

  // ----- the table of constructors -----

  /** Bounds on the number of arguments; no upper bound is None. */
  datatype Arity = Arity(min: nat, max: Option<nat>)

  function ArityOf(name: string): Option<Arity>
  {
    if name in {"Ref", "Q", "Neg", "Not", "Construct", "Throw"} then Some(Arity(1, Some(1)))
    else if name in {"Fn", "While", "Get", "Eval", "Timebox", "Add", "Sub", "Mul", "Div", "Mod",
                     "Gt", "Gte", "Lt", "Lte", "Eq", "Neq", "And", "Or"} then Some(Arity(2, Some(2)))
    else if name == "Let" then Some(Arity(3, Some(3)))
    else if name == "If" then Some(Arity(2, Some(3)))
    else if name == "Call" then Some(Arity(1, None))
    else if name == "Try" then Some(Arity(1, Some(5)))
    else if name == "Converge" then Some(Arity(4, Some(4)))
    else if name in {"Seq", "Arr", "Concat", "ConcatArrays", "MergeObjects", "All", "Race"} then Some(Arity(0, None))
    else None
  }

  predicate Admits(a: Arity, n: nat) { a.min <= n && (a.max.Some? ==> n <= a.max.value) }

  predicate AllStrings(ts: seq<Term>) { forall i :: 0 <= i < |ts| ==> ts[i].Str? }

  function NamesOf(ts: seq<Term>): seq<string>
    requires AllStrings(ts)
  {
    seq(|ts|, i requires 0 <= i < |ts| => ts[i].s)
  }

  /** An object that is a tagged node in disguise. */
  predicate Tagged(entries: seq<Entry>)
  {
    exists i :: 0 <= i < |entries| && entries[i].key == "tisyn" &&
                entries[i].value in {Str("eval"), Str("quote"), Str("ref"), Str("fn")}
  }

  predicate HasKey(es: seq<Entry>, key: string) { exists i :: 0 <= i < |es| && es[i].key == key }

  /** Reading `tisyn` of the value gives the tag of a node: a property that an object does not
      have itself is looked up along its prototypes. Nodes have a tag of their own. */
  predicate ReadsTagged(t: Term)
  {
    match t
    case Object(entries) => Tagged(entries)
    case Derived(own, above) => Tagged(own) || (!HasKey(own, "tisyn") && ReadsTagged(above))
    case _ => IsCall(t)
  }

  function Arg(args: seq<Term>, i: nat): Term { if i < |args| then args[i] else Undefined }

  function Given(t: Term): Option<Term> { if t.Undefined? then None else Some(t) }

  function GivenName(t: Term): Option<string> { if t.Str? then Some(t.s) else None }

  function BinaryOf(name: string): Option<BinaryOp>
  {
    if name == "Add" then Some(Add) else if name == "Sub" then Some(Sub) else if name == "Mul" then Some(Mul)
    else if name == "Div" then Some(Div) else if name == "Mod" then Some(Mod) else if name == "Gt" then Some(Gt)
    else if name == "Gte" then Some(Gte) else if name == "Lt" then Some(Lt) else if name == "Lte" then Some(Lte)
    else if name == "Eq" then Some(Eq) else if name == "Neq" then Some(Neq) else if name == "And" then Some(And)
    else if name == "Or" then Some(Or) else None
  }

  function ListOf(name: string): Option<ListKind>
  {
    if name == "Seq" then Some(Seq) else if name == "Arr" then Some(Arr) else if name == "Concat" then Some(Concat)
    else if name == "ConcatArrays" then Some(ConcatArrays) else if name == "MergeObjects" then Some(MergeObjects)
    else if name == "All" then Some(All) else if name == "Race" then Some(Race) else None
  }

  /** What a constructor makes of its arguments; None is a refusal. */
  function Dispatch(name: string, args: seq<Term>): Option<Term>
    requires ArityOf(name).Some? && Admits(ArityOf(name).value, |args|)
  {
    if BinaryOf(name).Some? then Some(Binary(BinaryOf(name).value, args[0], args[1]))
    else if ListOf(name).Some? then Some(Listed(ListOf(name).value, args))
    else if name == "Ref" then (if args[0].Str? then Some(Ref(args[0].s)) else None)
    else if name == "Q" then Some(Quote(args[0]))
    else if name == "Fn" then
      if args[0].Array? && AllStrings(args[0].items) then Some(Fn(NamesOf(args[0].items), args[1])) else None
    else if name == "Let" then (if args[0].Str? then Some(Let(args[0].s, args[1], args[2])) else None)
    else if name == "If" then Some(If(args[0], args[1], Given(Arg(args, 2))))
    else if name == "While" then (if args[1].Array? then Some(While(args[0], args[1].items)) else None)
    else if name == "Call" then Some(Call(args[0], args[1..]))
    else if name == "Get" then (if args[1].Str? then Some(Get(args[0], args[1].s)) else None)
    else if name == "Not" then Some(Unary(Not, args[0]))
    else if name == "Neg" then Some(Unary(Neg, args[0]))
    else if name == "Construct" then
      if (args[0].Object? || args[0].Derived?) && !ReadsTagged(args[0]) then Some(Construct(args[0])) else None
    else if name == "Throw" then Some(Throw(args[0]))
    else if name == "Try" then MakeTry(args[0], Arg(args, 1), Arg(args, 2), Arg(args, 3), Arg(args, 4))
    else if name == "Eval" then (if args[0].Str? then Some(Eval(args[0].s, args[1])) else None)
    else if name == "Timebox" then Some(Timebox(args[0], args[1]))
    else if name == "Converge" then Some(Converge(args[0], args[1], args[2], args[3]))
    else None
  }

  function MakeTry(body: Term, param: Term, catchBody: Term, finallyBody: Term, payload: Term): Option<Term>
  {
    if !param.Undefined? && (!param.Str? || param.s == "") then None
    else if !param.Undefined? && catchBody.Undefined? then None
    else if catchBody.Undefined? && finallyBody.Undefined? then None
    else if !payload.Undefined? && (!payload.Str? || payload.s == "") then None
    else Some(Try(body, GivenName(param), Given(catchBody), Given(finallyBody), GivenName(payload)))
  }

  /** The polling loop that `Converge` stands for. */
  function Converge(probe: Term, until: Term, interval: Term, timeout: Term): Term
  {
    var poll := Call(Ref("__poll_0"), []);
    var again := Let("__discard_0", Eval("sleep", Array([interval])), poll);
    var test := If(Call(Ref("__until_0"), [Ref("__probe_0")]), Ref("__probe_0"), Some(again));
    var loop := Fn([], Let("__probe_0", probe, test));
    Timebox(timeout, Let("__until_0", until, Let("__poll_0", loop, poll)))
  }
}
