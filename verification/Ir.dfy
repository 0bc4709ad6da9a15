/** Tisyn IR. Expressions and values share one tree, as they do in the source:
    a value is any node that evaluation returns without looking inside. */
module Ir {
  import opened Text

  /** Operations that evaluate every operand, left to right, before they act. */
  datatype PrimOp =
    | Add | Sub | Mul | Mod
    | Gt | Gte | Lt | Lte
    | Eq | Neq | Not | Neg
    | ArrayOf | Concat | ConcatArrays | MergeObjects

  datatype Node =
    // plain JSON
    | Null
    | Bool(b: bool)
    | Num(n: int)
    | Str(s: string)
    | Arr(items: seq<Node>)
    | Obj(fields: map<string, Node>)
    // tagged nodes
    | Ref(name: string)
    | Quote(expr: Node)
    | Fn(params: seq<string>, body: Node)
    // structural operations
    | Let(bound: string, value: Node, scope: Node)
    | Seq(exprs: seq<Node>)
    | If(cond: Node, then_: Node, else_: Option<Node>)
    | While(test: Node, loop: seq<Node>)
    | Call(fn: Node, args: seq<Node>)
    | Get(obj: Node, key: string)
    | Prim(op: PrimOp, operands: seq<Node>)
    | And(a: Node, b_: Node)
    | Or(a: Node, b_: Node)
    | Construct(entries: map<string, Node>)
    | Throw(message: Node)
    | Try(tried: Node, catchParam: Option<string>, catchBody: Option<Node>,
          finallyBody: Option<Node>, finallyPayload: Option<string>)
    // external operations
    | Effect(id: string, data: Node)
    | Compound(kind: CompoundKind, branches: seq<Node>)

  /** The compound operations whose data is a quoted list of expressions. */
  datatype CompoundKind = All | Race

  /** Truthiness of the kernel: everything but false, null, 0 and "". */
  predicate Truthy(v: Node)
  {
    v != Bool(false) && v != Null && v != Num(0) && v != Str("")
  }

  /** Nodes that `resolve` and `evaluate` classify as Eval nodes. */
  predicate IsEval(n: Node)
  {
    n.Let? || n.Seq? || n.If? || n.While? || n.Call? || n.Get? || n.Prim? || n.And? || n.Or? ||
    n.Construct? || n.Throw? || n.Try? || n.Effect? || n.Compound?
  }

  /** JavaScript's `String(v)`: array elements are joined by commas, null elements
      as nothing; every object reads the same. */
  function StringOf(v: Node): string
  {
    match v
    case Null => "null"
    case Bool(b) => if b then "true" else "false"
    case Num(n) => if n < 0 then "-" + Decimal(-n) else Decimal(n)
    case Str(s) => s
    case Arr(items) => JoinStrings(items)
    case _ => "[object Object]"
  }

  function JoinStrings(items: seq<Node>): string
  {
    if items == [] then ""
    else
      var head := if items[0].Null? then "" else StringOf(items[0]);
      if |items| == 1 then head else head + "," + JoinStrings(items[1..])
  }
}
