/** The kernel evaluator as a function of the answers its effects receive.

    `Eval(e, env, answers, fuel)` runs `e` and hands it one answer per effect. It stops
    with a value, with an error, at the first effect that has no answer left, or when a
    `while` or a call would go past `fuel` iterations or calls. */
module Kernel {
  import opened Text
  import opened Ir

  // ----- environments -----

  datatype Env = Empty | Frame(bindings: map<string, Node>, parent: Env)

  /** The innermost binding of a name. */
  function Lookup(name: string, env: Env): Option<Node>
  {
    match env
    case Empty => None
    case Frame(bindings, parent) =>
      if name in bindings then Some(bindings[name]) else Lookup(name, parent)
  }

  function Extend(env: Env, name: string, value: Node): Env
  {
    Frame(map[name := value], env)
  }

  /** Parameters bound in order; a repeated name keeps its last value. */
  function Bindings(names: seq<string>, values: seq<Node>): map<string, Node>
    requires |names| == |values|
  {
    if names == [] then map[]
    else
      var last := |names| - 1;
      Bindings(names[..last], values[..last])[names[last] := values[last]]
  }

  function ExtendMulti(env: Env, names: seq<string>, values: seq<Node>): Env
    requires |names| == |values|
  {
    Frame(Bindings(names, values), env)
  }

  // ----- errors, answers, requests -----

  datatype Error =
    | UnboundVariable(variable: string)
    | NotCallable
    | ArityMismatch(expected: nat, got: nat)
    | TypeError(text: string)
    | DivisionByZero
    | ExplicitThrow(text: string, errorName: string)
    | EffectError(text: string, errorName: string)
    | HostError(text: string, errorName: string)

  /** Host errors (halts, divergence, runtime faults) pass through `catch`. */
  predicate Catchable(e: Error) { !e.HostError? }

  function ErrorName(e: Error): string
  {
    match e
    case UnboundVariable(_) => "UnboundVariable"
    case NotCallable => "NotCallable"
    case ArityMismatch(_, _) => "ArityMismatch"
    case TypeError(_) => "TypeError"
    case DivisionByZero => "DivisionByZero"
    case ExplicitThrow(_, name) => if name == "" then "ExplicitThrow" else name
    case EffectError(_, name) => if name == "" then "EffectError" else name
    case HostError(_, name) => name
  }

  function ErrorText(e: Error): string
  {
    match e
    case UnboundVariable(x) => "Unbound variable: " + x
    case NotCallable => "Value is not callable"
    case ArityMismatch(expected, got) =>
      "Expected " + Decimal(expected) + " arguments, got " + Decimal(got)
    case TypeError(t) => t
    case DivisionByZero => "Division by zero"
    case ExplicitThrow(t, _) => t
    case EffectError(t, _) => t
    case HostError(t, _) => t
  }

  function ErrorToValue(e: Error): Node
  {
    Obj(map["message" := Str(ErrorText(e)), "name" := Str(ErrorName(e))])
  }

  /** What the driver feeds back: `next(value)` or `throw(error)`. */
  datatype Answer = Ok(value: Node) | Fail(error: Error)

  /** What the kernel asks for when it suspends. */
  datatype Request =
    | Standard(id: string, data: Node)
    | Fork(kind: CompoundKind, branches: seq<Node>, env: Env)

  datatype Out =
    | Done(value: Node, rest: seq<Answer>)
    | Raised(error: Error, rest: seq<Answer>)
    | Suspended(request: Request)
    | OutOfFuel

  function Deliver(a: Answer, rest: seq<Answer>): Out
  {
    match a
    case Ok(v) => Done(v, rest)
    case Fail(e) => Raised(e, rest)
  }

  function Ask(request: Request, answers: seq<Answer>): Out
  {
    if answers == [] then Suspended(request) else Deliver(answers[0], answers[1..])
  }

  // ----- primitive operations -----

  function OpName(op: PrimOp): string
  {
    match op
    case Add => "add" case Sub => "sub" case Mul => "mul" case Mod => "mod"
    case Gt => "gt" case Gte => "gte" case Lt => "lt" case Lte => "lte"
    case Eq => "eq" case Neq => "neq" case Not => "not" case Neg => "neg"
    case ArrayOf => "array" case Concat => "concat"
    case ConcatArrays => "concat-arrays" case MergeObjects => "merge-objects"
  }

  /** JavaScript's `%` on integers: the result has the sign of the dividend. */
  function Remainder(a: int, b: int): int
    requires b != 0
  {
    var m := (if a < 0 then -a else a) % (if b < 0 then -b else b);
    if a < 0 then -m else m
  }

  /** An operand that `concat-arrays` or `merge-objects` rejects as soon as it is seen. */
  function ItemFault(op: PrimOp, v: Node): Option<Error>
  {
    if op == ConcatArrays && !v.Arr? then
      Some(TypeError("concat-arrays: operand is not an array"))
    else if op == MergeObjects && (v.Null? || v.Bool? || v.Num? || v.Str? || v.Arr?) then
      Some(TypeError("merge-objects: operand is not an object"))
    else None
  }

  function Flatten(vs: seq<Node>): seq<Node>
  {
    if vs == [] then []
    else Flatten(vs[..|vs| - 1]) + (if vs[|vs| - 1].Arr? then vs[|vs| - 1].items else [])
  }

  /** `Object.assign` left to right. */
  function Merge(vs: seq<Node>): map<string, Node>
  {
    if vs == [] then map[]
    else Merge(vs[..|vs| - 1]) + (if vs[|vs| - 1].Obj? then vs[|vs| - 1].fields else map[])
  }

  function ConcatStrings(vs: seq<Node>): string
  {
    if vs == [] then "" else ConcatStrings(vs[..|vs| - 1]) + StringOf(vs[|vs| - 1])
  }

  function Arithmetic(op: PrimOp, a: int, b: int): Answer
  {
    match op
    case Add => Ok(Num(a + b))
    case Sub => Ok(Num(a - b))
    case Mul => Ok(Num(a * b))
    case Mod => if b == 0 then Fail(DivisionByZero) else Ok(Num(Remainder(a, b)))
    case Gt => Ok(Bool(a > b))
    case Gte => Ok(Bool(a >= b))
    case Lt => Ok(Bool(a < b))
    case _ => Ok(Bool(a <= b))
  }

  /** The action of an operation on its operands. A wrong number of operands is
      malformed IR; it reads as a type error. */
  function Apply(op: PrimOp, vs: seq<Node>): Answer
  {
    match op
    case ArrayOf => Ok(Arr(vs))
    case Concat => Ok(Str(ConcatStrings(vs)))
    case ConcatArrays => Ok(Arr(Flatten(vs)))
    case MergeObjects => Ok(Obj(Merge(vs)))
    case Not => if |vs| == 1 then Ok(Bool(!Truthy(vs[0]))) else Malformed(op)
    case Neg =>
      if |vs| != 1 then Malformed(op)
      else if vs[0].Num? then Ok(Num(-vs[0].n))
      else Fail(TypeError("neg: operand is not a number"))
    case Eq => if |vs| == 2 then Ok(Bool(vs[0] == vs[1])) else Malformed(op)
    case Neq => if |vs| == 2 then Ok(Bool(vs[0] != vs[1])) else Malformed(op)
    case _ =>
      if |vs| != 2 then Malformed(op)
      else if !vs[0].Num? then Fail(TypeError(OpName(op) + ": left operand is not a number"))
      else if !vs[1].Num? then Fail(TypeError(OpName(op) + ": right operand is not a number"))
      else Arithmetic(op, vs[0].n, vs[1].n)
  }

  function Malformed(op: PrimOp): Answer
  {
    Fail(TypeError(OpName(op) + ": malformed operands"))
  }

  function ThrownError(m: Node): Error
  {
    if m.Obj? && "message" in m.fields && "name" in m.fields then
      ExplicitThrow(StringOf(m.fields["message"]), if Truthy(m.fields["name"]) then StringOf(m.fields["name"]) else "")
    else ExplicitThrow(StringOf(m), "")
  }

  function ReadKey(o: Node, key: string): Node
  {
    if o.Obj? && key in o.fields then o.fields[key] else Null
  }

  /** The environment of a `catch` clause. */
  function CatchEnv(t: Node, env: Env, e: Error): Env
    requires t.Try?
  {
    if t.catchParam.Some? then Extend(env, t.catchParam.value, ErrorToValue(e)) else env
  }

  /** The environment of a `finally` clause: the payload name holds the value of a
      normal outcome. */
  function FinallyEnv(t: Node, env: Env, outcome: Answer): Env
    requires t.Try?
  {
    if t.finallyPayload.Some? && outcome.Ok? then
      Extend(env, t.finallyPayload.value, outcome.value)
    else env
  }

  // ----- evaluation -----

  function Eval(e: Node, env: Env, answers: seq<Answer>, fuel: nat): (o: Out)
    decreases fuel, e, 3
  {
    match e
    case Ref(name) =>
      var found := Lookup(name, env);
      if found.Some? then Done(found.value, answers) else Raised(UnboundVariable(name), answers)
    case Quote(inner) => Done(inner, answers)
    case Let(name, value, body) =>
      (match Eval(value, env, answers, fuel)
       case Done(v, rest) => Eval(body, Extend(env, name, v), rest, fuel)
       case other => other)
    case Seq(exprs) => EvalSeq(exprs, Null, env, answers, fuel)
    case If(cond, then_, else_) =>
      (match Eval(cond, env, answers, fuel)
       case Done(v, rest) =>
         if Truthy(v) then Eval(then_, env, rest, fuel)
         else if else_.Some? then Eval(else_.value, env, rest, fuel)
         else Done(Null, rest)
       case other => other)
    case While(_, _) => Loop(e, Null, env, answers, fuel)
    case Call(fn, args) =>
      (match Eval(fn, env, answers, fuel)
       case Done(f, rest) =>
         if !f.Fn? then Raised(NotCallable, rest)
         else
           (match EvalList(ArrayOf, [], args, env, rest, fuel)
            case Done(vs, rest') =>
              // the body runs in the caller's environment plus the parameters
              if |f.params| != |vs.items| then
                Raised(ArityMismatch(|f.params|, |vs.items|), rest')
              else if fuel == 0 then OutOfFuel
              else Eval(f.body, ExtendMulti(env, f.params, vs.items), rest', fuel - 1)
            case other => other)
       case other => other)
    case Get(obj, key) =>
      (match Eval(obj, env, answers, fuel)
       case Done(o, rest) => Done(ReadKey(o, key), rest)
       case other => other)
    case Prim(op, operands) =>
      (match EvalList(op, [], operands, env, answers, fuel)
       case Done(vs, rest) => Deliver(Apply(op, vs.items), rest)
       case other => other)
    case And(a, b) =>
      (match Eval(a, env, answers, fuel)
       case Done(v, rest) => if Truthy(v) then Eval(b, env, rest, fuel) else Done(v, rest)
       case other => other)
    case Or(a, b) =>
      (match Eval(a, env, answers, fuel)
       case Done(v, rest) => if Truthy(v) then Done(v, rest) else Eval(b, env, rest, fuel)
       case other => other)
    case Construct(entries) => EvalFields(e, SortedKeys(entries.Keys), map[], env, answers, fuel)
    case Throw(message) =>
      (match Eval(message, env, answers, fuel)
       case Done(m, rest) => Raised(ThrownError(m), rest)
       case other => other)
    case Try(body, _, catchBody, _, _) =>
      (match Eval(body, env, answers, fuel)
       case Done(v, rest) => Finally(e, env, Ok(v), rest, fuel)
       case Raised(err, rest) =>
         if Catchable(err) && catchBody.Some? then
           (match Eval(catchBody.value, CatchEnv(e, env, err), rest, fuel)
            case Done(v, rest') => Finally(e, env, Ok(v), rest', fuel)
            case Raised(err', rest') => Finally(e, env, Fail(err'), rest', fuel)
            case other => other)
         else Finally(e, env, Fail(err), rest, fuel)
       case other => other)
    case Effect(id, data) =>
      (match Resolve(data, env, answers, fuel)
       case Done(d, rest) => Ask(Standard(id, d), rest)
       case other => other)
    case Compound(kind, branches) => Ask(Fork(kind, branches, env), answers)
    case _ => Done(e, answers)
  }

  /** Expressions in order; the value is that of the last one. */
  function EvalSeq(es: seq<Node>, last: Node, env: Env, answers: seq<Answer>, fuel: nat): (o: Out)
    decreases fuel, es, 2
  {
    if es == [] then Done(last, answers)
    else
      match Eval(es[0], env, answers, fuel)
      case Done(v, rest) => EvalSeq(es[1..], v, env, rest, fuel)
      case other => other
  }

  function Loop(w: Node, last: Node, env: Env, answers: seq<Answer>, fuel: nat): (o: Out)
    requires w.While?
    decreases fuel, w, 2
  {
    if fuel == 0 then OutOfFuel
    else
      match Eval(w.test, env, answers, fuel - 1)
      case Done(v, rest) =>
        if !Truthy(v) then Done(last, rest)
        else
          (match EvalSeq(w.loop, last, env, rest, fuel - 1)
           case Done(v', rest') => Loop(w, v', env, rest', fuel - 1)
           case other => other)
      case other => other
  }

  /** The values of a list of expressions, appended to `done`. */
  function EvalList(op: PrimOp, done: seq<Node>, es: seq<Node>, env: Env,
                          answers: seq<Answer>, fuel: nat): (o: Out)
    ensures o.Done? ==> o.value.Arr? && |o.value.items| == |done| + |es|
    decreases fuel, es, 2
  {
    if es == [] then Done(Arr(done), answers)
    else
      match Eval(es[0], env, answers, fuel)
      case Done(v, rest) =>
        var fault := ItemFault(op, v);
        if fault.Some? then Raised(fault.value, rest)
        else EvalList(op, done + [v], es[1..], env, rest, fuel)
      case other => other
  }

  /** The entries of a `construct` node at `keys`, in that order. */
  function EvalFields(c: Node, keys: seq<string>, done: map<string, Node>, env: Env,
                            answers: seq<Answer>, fuel: nat): (o: Out)
    requires c.Construct? && forall k :: k in keys ==> k in c.entries
    decreases fuel, c, 2, |keys|
  {
    if keys == [] then Done(Obj(done), answers)
    else
      assert keys[0] in c.entries;
      match Eval(c.entries[keys[0]], env, answers, fuel)
      case Done(v, rest) => EvalFields(c, keys[1..], done[keys[0] := v], env, rest, fuel)
      case other => other
  }

  /** The last phase of `try`: its value is discarded, its error replaces the outcome. */
  function Finally(t: Node, env: Env, outcome: Answer, answers: seq<Answer>, fuel: nat): (o: Out)
    requires t.Try?
    decreases fuel, t, 2
  {
    if t.finallyBody.None? then Deliver(outcome, answers)
    else
      match Eval(t.finallyBody.value, FinallyEnv(t, env, outcome), answers, fuel)
      case Done(_, rest) => Deliver(outcome, rest)
      case other => other
  }

  /** Effect data: references and Eval nodes are replaced by their values, quotes lose one
      layer, plain arrays and objects are walked, everything else stands. */
  function Resolve(n: Node, env: Env, answers: seq<Answer>, fuel: nat): (o: Out)
    decreases fuel, n, 4
  {
    match n
    case Arr(items) => ResolveItems([], items, env, answers, fuel)
    case Obj(fields) => ResolveFields(n, SortedKeys(fields.Keys), map[], env, answers, fuel)
    case _ => Eval(n, env, answers, fuel)
  }

  function ResolveItems(done: seq<Node>, items: seq<Node>, env: Env,
                              answers: seq<Answer>, fuel: nat): (o: Out)
    decreases fuel, items, 2
  {
    if items == [] then Done(Arr(done), answers)
    else
      match Resolve(items[0], env, answers, fuel)
      case Done(v, rest) => ResolveItems(done + [v], items[1..], env, rest, fuel)
      case other => other
  }

  function ResolveFields(n: Node, keys: seq<string>, done: map<string, Node>, env: Env,
                               answers: seq<Answer>, fuel: nat): (o: Out)
    requires n.Obj? && forall k :: k in keys ==> k in n.fields
    decreases fuel, n, 2, |keys|
  {
    if keys == [] then Done(Obj(done), answers)
    else
      assert keys[0] in n.fields;
      match Resolve(n.fields[keys[0]], env, answers, fuel)
      case Done(v, rest) => ResolveFields(n, keys[1..], done[keys[0] := v], env, rest, fuel)
      case other => other
  }
}
