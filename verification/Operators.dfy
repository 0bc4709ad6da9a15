/** What the operators of the kernel compute, said of the outcome of evaluating their operands:
    arithmetic, comparisons, equality, the joining of strings, arrays and objects, what counts
    as false, and what errors carry. */
module Operators {
  import opened Text
  import opened Ir
  import opened Kernel
  import Canonical

  // ----- operands -----

  /** The expressions come to these values, one after another. */
  ghost predicate Yields(es: seq<Node>, vs: seq<Node>, env: Env, answers: seq<Answer>, rest: seq<Answer>, fuel: nat)
    decreases es
  {
    |es| == |vs| &&
    if es == [] then rest == answers
    else
      var o := Eval(es[0], env, answers, fuel);
      o.Done? && o.value == vs[0] && Yields(es[1..], vs[1..], env, o.rest, rest, fuel)
  }

  lemma {:induction false} OperandValues(op: PrimOp, done: seq<Node>, es: seq<Node>, vs: seq<Node>, env: Env,
                                         answers: seq<Answer>, rest: seq<Answer>, fuel: nat)
    requires Yields(es, vs, env, answers, rest, fuel)
    requires forall i :: 0 <= i < |vs| ==> ItemFault(op, vs[i]).None?
    ensures EvalList(op, done, es, env, answers, fuel) == Done(Arr(done + vs), rest)
    decreases es
  {
    hide Eval, ItemFault;
    if es == [] {
      assert done + vs == done;
    } else {
      var o := Eval(es[0], env, answers, fuel);
      OperandValues(op, done + [vs[0]], es[1..], vs[1..], env, o.rest, rest, fuel);
      assert done + [vs[0]] + vs[1..] == done + vs;
    }
  }

  lemma {:induction false} PrimOutcome(op: PrimOp, es: seq<Node>, vs: seq<Node>, env: Env, answers: seq<Answer>,
                                       rest: seq<Answer>, fuel: nat)
    requires Yields(es, vs, env, answers, rest, fuel)
    requires forall i :: 0 <= i < |vs| ==> ItemFault(op, vs[i]).None?
    ensures Eval(Prim(op, es), env, answers, fuel) == Deliver(Apply(op, vs), rest)
  {
    hide Eval, EvalList, Apply, ItemFault, Yields;
    OperandValues(op, [], es, vs, env, answers, rest, fuel);
    PrimUnfold(op, es, env, answers, fuel);
    assert [] + vs == vs;
  }

  lemma {:induction false} PrimUnfold(op: PrimOp, es: seq<Node>, env: Env, answers: seq<Answer>, fuel: nat)
    ensures var o := EvalList(op, [], es, env, answers, fuel);
            Eval(Prim(op, es), env, answers, fuel) == if o.Done? then Deliver(Apply(op, o.value.items), o.rest) else o
  {
    hide EvalList, EvalFields, EvalSeq, Loop, Finally, Resolve, Apply, Lookup;
  }

  // ----- arithmetic -----

  lemma {:induction false} Sums(a: Node, b: Node, x: int, y: int, env: Env, answers: seq<Answer>, rest: seq<Answer>,
                                fuel: nat)
    requires Yields([a, b], [Num(x), Num(y)], env, answers, rest, fuel)
    ensures Eval(Prim(Add, [a, b]), env, answers, fuel) == Done(Num(x + y), rest)
    ensures Eval(Prim(Sub, [a, b]), env, answers, fuel) == Done(Num(x - y), rest)
    ensures Eval(Prim(Mul, [a, b]), env, answers, fuel) == Done(Num(x * y), rest)
  {
    hide Eval, Yields;
    forall op | op in {Add, Sub, Mul} {
      PrimOutcome(op, [a, b], [Num(x), Num(y)], env, answers, rest, fuel);
    }
  }

  /** The remainder of a division whose quotient is cut off towards zero. */
  predicate IsRemainder(x: int, y: int, q: int, r: int)
  {
    && x == q * y + r && Magnitude(r) < Magnitude(y)
    && (r > 0 ==> x > 0) && (r < 0 ==> x < 0)
  }

  function Magnitude(n: int): nat { if n < 0 then -n else n }

  lemma {:induction false} Divisions(a: Node, b: Node, x: int, y: int, env: Env, answers: seq<Answer>,
                                     rest: seq<Answer>, fuel: nat)
    requires Yields([a, b], [Num(x), Num(y)], env, answers, rest, fuel)
    ensures y == 0 ==> Eval(Prim(Mod, [a, b]), env, answers, fuel) == Raised(DivisionByZero, rest)
    ensures y != 0 ==> exists q, r :: IsRemainder(x, y, q, r) &&
                                      Eval(Prim(Mod, [a, b]), env, answers, fuel) == Done(Num(r), rest)
  {
    hide Eval, Yields, Remainder, IsRemainder;
    PrimOutcome(Mod, [a, b], [Num(x), Num(y)], env, answers, rest, fuel);
    if y != 0 {
      Quotient(x, y);
    }
  }

  lemma {:induction false} Quotient(x: int, y: int)
    requires y != 0
    ensures exists q :: IsRemainder(x, y, q, Remainder(x, y))
  {
    hide Remainder, IsRemainder;
    var n, k: nat := Magnitude(x), Magnitude(y);
    var m := n / k;
    var d := Euclid(n, k);
    SignsOut(m, k);
    var product: int := k * m;
    RemainderIs(x, y, d);
    var q: int := if (x < 0) == (y < 0) then m else -(m as int);
    Divided(x, y, q, if x < 0 then -product else product);
  }

  lemma {:induction false} Euclid(n: nat, k: nat) returns (d: nat)
    requires k > 0
    ensures d == n % k && d < k && n == k * (n / k) + d
  {
    d := n % k;
  }

  lemma {:induction false} RemainderIs(x: int, y: int, d: nat)
    requires y != 0 && d == Magnitude(x) % Magnitude(y)
    ensures Remainder(x, y) == if x < 0 then -(d as int) else d
  {
  }

  lemma {:induction false} Divided(x: int, y: int, q: int, product: int)
    requires y != 0 && product == q * y && x == product + Remainder(x, y)
    requires Magnitude(Remainder(x, y)) < Magnitude(y)
    requires (x <= 0 ==> Remainder(x, y) <= 0) && (x >= 0 ==> Remainder(x, y) >= 0)
    ensures IsRemainder(x, y, q, Remainder(x, y))
  {
    hide Remainder;
  }

  lemma {:induction false} SignsOut(m: int, k: int)
    ensures m * k == k * m && m * (-k) == -(k * m) && (-m) * k == -(k * m) && (-m) * (-k) == k * m
  {
  }

  /** There is one such remainder. */
  lemma {:induction false} RemainderUnique(x: int, y: int, q: int, r: int, q': int, r': int)
    requires y != 0 && IsRemainder(x, y, q, r) && IsRemainder(x, y, q', r')
    ensures r == r'
  {
    var k := Magnitude(y);
    SignsOut(q, k);
    SignsOut(q', k);
    if y < 0 {
      Apart(-q, k, -q', r, r');
    } else {
      Apart(q, k, q', r, r');
    }
  }

  lemma {:induction false} Apart(q: int, k: nat, q': int, r: int, r': int)
    requires q * k + r == q' * k + r' && -(k as int) < r - r' < k
    ensures r == r'
  {
    var d := q - q';
    assert d * k == r' - r;
    assert d > 0 ==> (d - 1) * k >= 0;
    assert d < 0 ==> (-d - 1) * k >= 0;
  }

  /** Subtraction undoes addition, whatever the operands do on the way. */
  lemma {:induction false} SubtractionUndoes(a: Node, b: Node, c: Node, x: int, y: int, env: Env, answers: seq<Answer>,
                                             middle: seq<Answer>, rest: seq<Answer>, fuel: nat)
    requires Yields([a, b], [Num(x), Num(y)], env, answers, middle, fuel)
    requires Eval(c, env, middle, fuel) == Done(Num(y), rest)
    ensures Eval(Prim(Sub, [Prim(Add, [a, b]), c]), env, answers, fuel) == Done(Num(x), rest)
  {
    hide Eval, Yields;
    Sums(a, b, x, y, env, answers, middle, fuel);
    Two(Prim(Add, [a, b]), c, Num(x + y), Num(y), env, answers, middle, rest, fuel);
    Sums(Prim(Add, [a, b]), c, x + y, y, env, answers, rest, fuel);
  }

  lemma {:induction false} Two(a: Node, b: Node, v: Node, u: Node, env: Env, answers: seq<Answer>, middle: seq<Answer>,
                               rest: seq<Answer>, fuel: nat)
    requires Eval(a, env, answers, fuel) == Done(v, middle) && Eval(b, env, middle, fuel) == Done(u, rest)
    ensures Yields([a, b], [v, u], env, answers, rest, fuel)
  {
    hide Eval;
    assert [a, b][1..] == [b] && [v, u][1..] == [u] && [b][1..] == [] && [u][1..] == [];
    assert Yields([], [], env, rest, rest, fuel);
    assert Yields([b], [u], env, middle, rest, fuel);
  }

  /** Multiplication distributes over addition, and has one as its unit. */
  lemma {:induction false} Distributes(a: int, b: int, c: int, env: Env, answers: seq<Answer>, fuel: nat)
    ensures var x, y, z := Quote(Num(a)), Quote(Num(b)), Quote(Num(c));
            Eval(Prim(Mul, [x, Prim(Add, [y, z])]), env, answers, fuel) ==
            Eval(Prim(Add, [Prim(Mul, [x, y]), Prim(Mul, [x, z])]), env, answers, fuel)
    ensures Eval(Prim(Mul, [Quote(Num(a)), Quote(Num(1))]), env, answers, fuel) == Done(Num(a), answers)
  {
    var x, y, z := Quote(Num(a)), Quote(Num(b)), Quote(Num(c));
    Quoted(Num(a), env, answers, fuel);
    Quoted(Num(b), env, answers, fuel);
    Quoted(Num(c), env, answers, fuel);
    Quoted(Num(1), env, answers, fuel);
    hide Eval, Yields;
    Two(y, z, Num(b), Num(c), env, answers, answers, answers, fuel);
    Sums(y, z, b, c, env, answers, answers, fuel);
    Two(x, Prim(Add, [y, z]), Num(a), Num(b + c), env, answers, answers, answers, fuel);
    Sums(x, Prim(Add, [y, z]), a, b + c, env, answers, answers, fuel);
    Two(x, y, Num(a), Num(b), env, answers, answers, answers, fuel);
    Sums(x, y, a, b, env, answers, answers, fuel);
    Two(x, z, Num(a), Num(c), env, answers, answers, answers, fuel);
    Sums(x, z, a, c, env, answers, answers, fuel);
    Two(Prim(Mul, [x, y]), Prim(Mul, [x, z]), Num(a * b), Num(a * c), env, answers, answers, answers, fuel);
    Sums(Prim(Mul, [x, y]), Prim(Mul, [x, z]), a * b, a * c, env, answers, answers, fuel);
    assert a * (b + c) == a * b + a * c;
    Two(x, Quote(Num(1)), Num(a), Num(1), env, answers, answers, answers, fuel);
    Sums(x, Quote(Num(1)), a, 1, env, answers, answers, fuel);
  }

  lemma {:induction false} Quoted(v: Node, env: Env, answers: seq<Answer>, fuel: nat)
    ensures Eval(Quote(v), env, answers, fuel) == Done(v, answers)
  {
  }

  /** The sign is turned round. */
  lemma {:induction false} Negation(a: Node, x: Node, env: Env, answers: seq<Answer>, rest: seq<Answer>, fuel: nat)
    requires Yields([a], [x], env, answers, rest, fuel)
    ensures var o := Eval(Prim(Neg, [a]), env, answers, fuel);
            if x.Num? then o.Done? && o.rest == rest && o.value.Num? && o.value.n + x.n == 0
            else o == Raised(TypeError("neg: operand is not a number"), rest)
  {
    hide Eval, Yields;
    PrimOutcome(Neg, [a], [x], env, answers, rest, fuel);
  }

  /** The name of an operator in its complaints. */
  predicate Named(op: PrimOp, name: string)
  {
    match op
    case Add => name == "add" case Sub => name == "sub" case Mul => name == "mul" case Mod => name == "mod"
    case Gt => name == "gt" case Gte => name == "gte" case Lt => name == "lt" case Lte => name == "lte"
    case _ => false
  }

  /** Both operands are evaluated before the left and then the right one is refused. */
  lemma {:induction false} OnlyNumbers(op: PrimOp, name: string, a: Node, b: Node, x: Node, y: Node, env: Env,
                                       answers: seq<Answer>, rest: seq<Answer>, fuel: nat)
    requires Named(op, name) && Yields([a, b], [x, y], env, answers, rest, fuel)
    ensures !x.Num? ==> Eval(Prim(op, [a, b]), env, answers, fuel) ==
                        Raised(TypeError(name + ": left operand is not a number"), rest)
    ensures x.Num? && !y.Num? ==> Eval(Prim(op, [a, b]), env, answers, fuel) ==
                                  Raised(TypeError(name + ": right operand is not a number"), rest)
  {
    NotJoining(op, name);
    NoFault(op, x);
    NoFault(op, y);
    hide Eval, Yields, ItemFault, Apply, Named;
    PrimOutcome(op, [a, b], [x, y], env, answers, rest, fuel);
    Complaint(op, name, x, y);
  }

  lemma {:induction false} NotJoining(op: PrimOp, name: string)
    requires Named(op, name)
    ensures op != ConcatArrays && op != MergeObjects
  {
  }

  lemma {:induction false} NoFault(op: PrimOp, v: Node)
    requires op != ConcatArrays && op != MergeObjects
    ensures ItemFault(op, v).None?
  {
  }

  lemma {:induction false} Complaint(op: PrimOp, name: string, x: Node, y: Node)
    requires Named(op, name)
    ensures !x.Num? ==> Apply(op, [x, y]) == Fail(TypeError(name + ": left operand is not a number"))
    ensures x.Num? && !y.Num? ==> Apply(op, [x, y]) == Fail(TypeError(name + ": right operand is not a number"))
  {
    hide Arithmetic, ConcatStrings, Flatten, Merge, Truthy;
  }

  // ----- comparisons -----

  lemma {:induction false} Comparisons(a: Node, b: Node, x: int, y: int, env: Env, answers: seq<Answer>,
                                       rest: seq<Answer>, fuel: nat)
    requires Yields([a, b], [Num(x), Num(y)], env, answers, rest, fuel)
    ensures Eval(Prim(Gt, [a, b]), env, answers, fuel) == Done(Bool(x > y), rest)
    ensures Eval(Prim(Gte, [a, b]), env, answers, fuel) == Done(Bool(x >= y), rest)
    ensures Eval(Prim(Lt, [a, b]), env, answers, fuel) == Done(Bool(x < y), rest)
    ensures Eval(Prim(Lte, [a, b]), env, answers, fuel) == Done(Bool(x <= y), rest)
  {
    hide Eval, Yields;
    forall op | op in {Gt, Gte, Lt, Lte} {
      PrimOutcome(op, [a, b], [Num(x), Num(y)], env, answers, rest, fuel);
    }
  }

  /** Equality of data is that of canonical encodings. */
  lemma {:induction false} Equalities(a: Node, b: Node, x: Node, y: Node, env: Env, answers: seq<Answer>,
                                      rest: seq<Answer>, fuel: nat)
    requires Yields([a, b], [x, y], env, answers, rest, fuel) && Canonical.IsData(x) && Canonical.IsData(y)
    ensures var same := Canonical.Encode(Canonical.ToJson(x)) == Canonical.Encode(Canonical.ToJson(y));
            && Eval(Prim(Eq, [a, b]), env, answers, fuel) == Done(Bool(same), rest)
            && Eval(Prim(Neq, [a, b]), env, answers, fuel) == Done(Bool(!same), rest)
  {
    hide Eval, Yields, Canonical.Encode, Canonical.ToJson;
    Canonical.EqIsStructural(x, y);
    forall op | op in {Eq, Neq} {
      PrimOutcome(op, [a, b], [x, y], env, answers, rest, fuel);
    }
  }

  // ----- what counts as false -----

  const FalseValues: set<Node> := {Bool(false), Null, Num(0), Str("")}

  lemma {:induction false} Choices(a: Node, b: Node, c: Node, v: Node, env: Env, answers: seq<Answer>,
                                   rest: seq<Answer>, fuel: nat)
    requires Eval(a, env, answers, fuel) == Done(v, rest)
    ensures Eval(If(a, b, Some(c)), env, answers, fuel) == Eval(if v in FalseValues then c else b, env, rest, fuel)
    ensures Eval(If(a, b, None), env, answers, fuel) ==
            if v in FalseValues then Done(Null, rest) else Eval(b, env, rest, fuel)
  {
    hide EvalList, EvalFields, EvalSeq, Loop, Finally, Resolve, Apply, Lookup;
  }

  /** `and` and `or` give an operand back. */
  lemma {:induction false} ShortCircuits(a: Node, b: Node, v: Node, env: Env, answers: seq<Answer>, rest: seq<Answer>,
                                         fuel: nat)
    requires Eval(a, env, answers, fuel) == Done(v, rest)
    ensures Eval(And(a, b), env, answers, fuel) == if v in FalseValues then Done(v, rest) else Eval(b, env, rest, fuel)
    ensures Eval(Or(a, b), env, answers, fuel) == if v in FalseValues then Eval(b, env, rest, fuel) else Done(v, rest)
  {
    hide Eval;
    AndUnfold(a, b, env, answers, fuel);
    OrUnfold(a, b, env, answers, fuel);
  }

  lemma {:induction false} AndUnfold(a: Node, b: Node, env: Env, answers: seq<Answer>, fuel: nat)
    ensures var o := Eval(a, env, answers, fuel);
            Eval(And(a, b), env, answers, fuel) ==
            if o.Done? && Truthy(o.value) then Eval(b, env, o.rest, fuel) else o
  {
    hide EvalList, EvalFields, EvalSeq, Loop, Finally, Resolve, Apply, Lookup, Truthy;
  }

  lemma {:induction false} OrUnfold(a: Node, b: Node, env: Env, answers: seq<Answer>, fuel: nat)
    ensures var o := Eval(a, env, answers, fuel);
            Eval(Or(a, b), env, answers, fuel) ==
            if o.Done? && !Truthy(o.value) then Eval(b, env, o.rest, fuel) else o
  {
    hide EvalList, EvalFields, EvalSeq, Loop, Finally, Resolve, Apply, Lookup, Truthy;
  }

  lemma {:induction false} Negations(a: Node, v: Node, env: Env, answers: seq<Answer>, rest: seq<Answer>, fuel: nat)
    requires Yields([a], [v], env, answers, rest, fuel)
    ensures Eval(Prim(Not, [a]), env, answers, fuel) == Done(Bool(v in FalseValues), rest)
  {
    hide Eval, Yields;
    PrimOutcome(Not, [a], [v], env, answers, rest, fuel);
  }

  // ----- joining -----

  /** `whole` is the parts, one after another, cut at `cuts`. */
  predicate Joins<T(==)>(whole: seq<T>, parts: seq<seq<T>>, cuts: seq<nat>)
  {
    && |cuts| == |parts| + 1 && cuts[0] == 0 && cuts[|parts|] == |whole|
    && forall i :: 0 <= i < |parts| ==> PieceAt(whole, parts[i], cuts, i)
  }

  predicate PieceAt<T(==)>(whole: seq<T>, part: seq<T>, cuts: seq<nat>, i: nat)
  {
    i + 1 < |cuts| && cuts[i] <= cuts[i + 1] <= |whole| && whole[cuts[i]..cuts[i + 1]] == part
  }

  lemma {:induction false} JoinNext<T>(whole: seq<T>, parts: seq<seq<T>>, cuts: seq<nat>, part: seq<T>)
    requires Joins(whole, parts, cuts)
    ensures Joins(whole + part, parts + [part], cuts + [|whole| + |part|])
  {
    var cuts' := cuts + [|whole| + |part|];
    forall i | 0 <= i < |parts| + 1 ensures PieceAt(whole + part, (parts + [part])[i], cuts', i) {
      if i < |parts| {
        assert PieceAt(whole, parts[i], cuts, i);
        assert (whole + part)[cuts[i]..cuts[i + 1]] == whole[cuts[i]..cuts[i + 1]];
      }
    }
  }

  function Texts(vs: seq<Node>): (r: seq<string>)
    ensures |r| == |vs| && forall i :: 0 <= i < |vs| ==> r[i] == StringOf(vs[i])
  {
    seq(|vs|, i requires 0 <= i < |vs| => StringOf(vs[i]))
  }

  lemma {:induction false} StringsJoin(vs: seq<Node>) returns (cuts: seq<nat>)
    ensures Joins(ConcatStrings(vs), Texts(vs), cuts)
  {
    if vs == [] {
      cuts := [0];
    } else {
      var m := |vs| - 1;
      var before := StringsJoin(vs[..m]);
      hide Joins, StringOf;
      JoinNext(ConcatStrings(vs[..m]), Texts(vs[..m]), before, StringOf(vs[m]));
      cuts := before + [|ConcatStrings(vs[..m])| + |StringOf(vs[m])|];
      assert Texts(vs) == Texts(vs[..m]) + [StringOf(vs[m])];
    }
  }

  /** `concat` is the text of its operands, one after another. */
  lemma {:induction false} Concatenation(es: seq<Node>, vs: seq<Node>, env: Env, answers: seq<Answer>,
                                         rest: seq<Answer>, fuel: nat)
    requires Yields(es, vs, env, answers, rest, fuel)
    ensures exists s, cuts :: Joins(s, Texts(vs), cuts) &&
                              Eval(Prim(Concat, es), env, answers, fuel) == Done(Str(s), rest)
  {
    hide Eval, Yields;
    PrimOutcome(Concat, es, vs, env, answers, rest, fuel);
    var cuts := StringsJoin(vs);
  }

  /** Scalars as text; an array is its elements with commas between them, nulls left out. */
  lemma {:induction false} TextForms(n: nat, s: string, items: seq<Node>)
    ensures StringOf(Null) == "null" && StringOf(Bool(true)) == "true" && StringOf(Bool(false)) == "false"
    ensures StringOf(Num(n)) == Decimal(n) && (n > 0 ==> StringOf(Num(-(n as int))) == "-" + Decimal(n))
    ensures StringOf(Str(s)) == s
    ensures StringOf(Arr([])) == ""
    ensures |items| == 1 ==> StringOf(Arr(items)) == if items[0].Null? then "" else StringOf(items[0])
    ensures |items| > 1 ==> StringOf(Arr(items)) == StringOf(Arr(items[..1])) + "," + StringOf(Arr(items[1..]))
  {
    if |items| > 1 {
      assert items[..1][0] == items[0] && |items[..1]| == 1;
    }
  }

  function ItemsOf(vs: seq<Node>): (r: seq<seq<Node>>)
    requires forall i :: 0 <= i < |vs| ==> vs[i].Arr?
    ensures |r| == |vs| && forall i :: 0 <= i < |vs| ==> r[i] == vs[i].items
  {
    seq(|vs|, i requires 0 <= i < |vs| => vs[i].items)
  }

  lemma {:induction false} ArraysJoin(vs: seq<Node>) returns (cuts: seq<nat>)
    requires forall i :: 0 <= i < |vs| ==> vs[i].Arr?
    ensures Joins(Flatten(vs), ItemsOf(vs), cuts)
  {
    if vs == [] {
      cuts := [0];
    } else {
      var m := |vs| - 1;
      var before := ArraysJoin(vs[..m]);
      hide Joins;
      JoinNext(Flatten(vs[..m]), ItemsOf(vs[..m]), before, vs[m].items);
      cuts := before + [|Flatten(vs[..m])| + |vs[m].items|];
      assert ItemsOf(vs) == ItemsOf(vs[..m]) + [vs[m].items];
    }
  }

  /** `concat-arrays` is the elements of its operands, one array after another. */
  lemma {:induction false} ArrayConcatenation(es: seq<Node>, vs: seq<Node>, env: Env, answers: seq<Answer>,
                                              rest: seq<Answer>, fuel: nat)
    requires Yields(es, vs, env, answers, rest, fuel) && forall i :: 0 <= i < |vs| ==> vs[i].Arr?
    ensures exists items, cuts :: Joins(items, ItemsOf(vs), cuts) &&
                                  Eval(Prim(ConcatArrays, es), env, answers, fuel) == Done(Arr(items), rest)
  {
    hide Eval, Yields;
    PrimOutcome(ConcatArrays, es, vs, env, answers, rest, fuel);
    var cuts := ArraysJoin(vs);
  }

  /** Of the objects the last one that has the key gives the value. */
  predicate LastHas(vs: seq<Node>, key: string, i: int)
  {
    && 0 <= i < |vs| && vs[i].Obj? && key in vs[i].fields
    && forall j :: i < j < |vs| ==> vs[j].Obj? && key !in vs[j].fields
  }

  lemma {:induction false} MergedKeys(vs: seq<Node>, key: string)
    requires forall i :: 0 <= i < |vs| ==> vs[i].Obj?
    ensures key in Merge(vs) <==> exists i :: 0 <= i < |vs| && key in vs[i].fields
  {
    if vs != [] {
      var m := |vs| - 1;
      MergedKeys(vs[..m], key);
      assert forall i :: 0 <= i < m ==> vs[..m][i] == vs[i];
    }
  }

  lemma {:induction false} MergedValue(vs: seq<Node>, key: string, i: int)
    requires (forall j :: 0 <= j < |vs| ==> vs[j].Obj?) && LastHas(vs, key, i)
    ensures key in Merge(vs) && Merge(vs)[key] == vs[i].fields[key]
  {
    var m := |vs| - 1;
    if i < m {
      MergedValue(vs[..m], key, i);
    }
  }

  /** `merge-objects` has the keys of its operands, each with the value of the last one that
      has it. */
  lemma {:induction false} Merging(es: seq<Node>, vs: seq<Node>, env: Env, answers: seq<Answer>, rest: seq<Answer>,
                                   fuel: nat)
    requires Yields(es, vs, env, answers, rest, fuel) && forall i :: 0 <= i < |vs| ==> vs[i].Obj?
    ensures var o := Eval(Prim(MergeObjects, es), env, answers, fuel);
            && o.Done? && o.rest == rest && o.value.Obj?
            && (forall key :: key in o.value.fields <==> exists i :: 0 <= i < |vs| && key in vs[i].fields)
            && (forall key, i :: LastHas(vs, key, i) ==>
                  key in o.value.fields && o.value.fields[key] == vs[i].fields[key])
  {
    hide Eval, Yields;
    PrimOutcome(MergeObjects, es, vs, env, answers, rest, fuel);
    forall key ensures key in Merge(vs) <==> exists i :: 0 <= i < |vs| && key in vs[i].fields {
      MergedKeys(vs, key);
    }
    forall key, i | LastHas(vs, key, i) ensures key in Merge(vs) && Merge(vs)[key] == vs[i].fields[key] {
      MergedValue(vs, key, i);
    }
  }

  /** The array of its operands. */
  lemma {:induction false} Gathering(es: seq<Node>, vs: seq<Node>, env: Env, answers: seq<Answer>, rest: seq<Answer>,
                                     fuel: nat)
    requires Yields(es, vs, env, answers, rest, fuel)
    ensures Eval(Prim(ArrayOf, es), env, answers, fuel) == Done(Arr(vs), rest)
  {
    hide Eval, Yields;
    PrimOutcome(ArrayOf, es, vs, env, answers, rest, fuel);
  }

  /** Operands that joining refuses. */
  predicate Refused(op: PrimOp, v: Node)
  {
    || (op == ConcatArrays && !v.Arr?)
    || (op == MergeObjects && (v.Null? || v.Bool? || v.Num? || v.Str? || v.Arr?))
  }

  /** Such an operand is refused before the next one is evaluated. */
  lemma {:induction false} Refusals(op: PrimOp, es: seq<Node>, vs: seq<Node>, bad: Node, v: Node, after: seq<Node>,
                                    env: Env, answers: seq<Answer>, middle: seq<Answer>, rest: seq<Answer>, fuel: nat)
    requires Yields(es, vs, env, answers, middle, fuel) && Eval(bad, env, middle, fuel) == Done(v, rest)
    requires Refused(op, v) && forall i :: 0 <= i < |vs| ==> !Refused(op, vs[i])
    ensures Eval(Prim(op, es + [bad] + after), env, answers, fuel) ==
            Raised(TypeError(if op == ConcatArrays then "concat-arrays: operand is not an array"
                             else "merge-objects: operand is not an object"), rest)
  {
    hide Eval, EvalList, Apply, Yields, Refused;
    PrimUnfold(op, es + [bad] + after, env, answers, fuel);
    RefusedAt(op, [], es, vs, bad, v, after, env, answers, middle, rest, fuel);
  }

  lemma {:induction false} RefusedAt(op: PrimOp, done: seq<Node>, es: seq<Node>, vs: seq<Node>, bad: Node, v: Node,
                                     after: seq<Node>, env: Env, answers: seq<Answer>, middle: seq<Answer>,
                                     rest: seq<Answer>, fuel: nat)
    requires Yields(es, vs, env, answers, middle, fuel) && Eval(bad, env, middle, fuel) == Done(v, rest)
    requires Refused(op, v) && forall i :: 0 <= i < |vs| ==> !Refused(op, vs[i])
    ensures EvalList(op, done, es + [bad] + after, env, answers, fuel) ==
            Raised(TypeError(if op == ConcatArrays then "concat-arrays: operand is not an array"
                             else "merge-objects: operand is not an object"), rest)
    decreases es
  {
    hide Eval;
    var all := es + [bad] + after;
    if es == [] {
      assert all[0] == bad;
    } else {
      assert all[0] == es[0] && all[1..] == es[1..] + [bad] + after;
      RefusedAt(op, done + [vs[0]], es[1..], vs[1..], bad, v, after, env, Eval(es[0], env, answers, fuel).rest, middle,
                rest, fuel);
    }
  }

  // ----- errors -----

  /** The text and the name of an error, as they are journaled and as a handler sees them. */
  predicate Carries(e: Error, text: string, name: string)
  {
    match e
    case UnboundVariable(x) => text == "Unbound variable: " + x && name == "UnboundVariable"
    case NotCallable => text == "Value is not callable" && name == "NotCallable"
    case ArityMismatch(expected, got) =>
      && text == "Expected " + Decimal(expected) + " arguments, got " + Decimal(got)
      && name == "ArityMismatch"
    case TypeError(t) => text == t && name == "TypeError"
    case DivisionByZero => text == "Division by zero" && name == "DivisionByZero"
    case ExplicitThrow(t, n) => text == t && name == (if n == "" then "ExplicitThrow" else n)
    case EffectError(t, n) => text == t && name == (if n == "" then "EffectError" else n)
    case HostError(t, n) => text == t && name == n
  }

  /** What `throw` raises: of an object with a message and a name these two, of any other value
      its text. */
  lemma {:induction false} Thrown(m: Node, v: Node, env: Env, answers: seq<Answer>, rest: seq<Answer>, fuel: nat)
    requires Eval(m, env, answers, fuel) == Done(v, rest)
    ensures var o := Eval(Throw(m), env, answers, fuel);
            && o.Raised? && o.rest == rest && !o.error.HostError?
            && if v.Obj? && "message" in v.fields && "name" in v.fields then
                 var name := v.fields["name"];
                 Carries(o.error, StringOf(v.fields["message"]),
                         if name in FalseValues || StringOf(name) == "" then "ExplicitThrow" else StringOf(name))
               else Carries(o.error, StringOf(v), "ExplicitThrow")
  {
    hide ThrownError, Carries, StringOf;
    ThrownCarries(v);
    assert Eval(Throw(m), env, answers, fuel) == Raised(ThrownError(v), rest) by {
      hide EvalList, EvalFields, EvalSeq, Loop, Finally, Resolve, Apply, Lookup;
    }
  }

  lemma {:induction false} ThrownCarries(v: Node)
    ensures var e := ThrownError(v);
            && !e.HostError?
            && if v.Obj? && "message" in v.fields && "name" in v.fields then
                 var name := v.fields["name"];
                 Carries(e, StringOf(v.fields["message"]),
                         if name in FalseValues || StringOf(name) == "" then "ExplicitThrow" else StringOf(name))
               else Carries(e, StringOf(v), "ExplicitThrow")
  {
    hide StringOf;
  }

  lemma {:induction false} ErrorSeen(e: Error, text: string, name: string)
    requires Carries(e, text, name)
    ensures ErrorToValue(e) == Obj(map["message" := Str(text), "name" := Str(name)])
    ensures Catchable(e) <==> !e.HostError?
  {
  }

  /** A handler sees message and name of the error; what the host raises passes it by. */
  lemma {:induction false} Caught(body: Node, x: string, h: Node, e: Error, text: string, name: string, env: Env,
                                  answers: seq<Answer>, rest: seq<Answer>, fuel: nat)
    requires Eval(body, env, answers, fuel) == Raised(e, rest) && Carries(e, text, name)
    ensures var seen := Obj(map["message" := Str(text), "name" := Str(name)]);
            Eval(Try(body, Some(x), Some(h), None, None), env, answers, fuel) ==
            if e.HostError? then Raised(e, rest) else Eval(h, Frame(map[x := seen], env), rest, fuel)
    ensures Eval(Try(body, None, Some(h), None, None), env, answers, fuel) ==
            if e.HostError? then Raised(e, rest) else Eval(h, env, rest, fuel)
  {
    hide EvalList, EvalFields, EvalSeq, Loop, Resolve, Lookup, Apply, ErrorToValue, Catchable, Carries, Finally;
    ErrorSeen(e, text, name);
    var t, u := Try(body, Some(x), Some(h), None, None), Try(body, None, Some(h), None, None);
    forall o: Answer, left: seq<Answer>
      ensures Finally(t, env, o, left, fuel) == Deliver(o, left) == Finally(u, env, o, left, fuel)
    {
      NoFinalizer(t, env, o, left, fuel);
      NoFinalizer(u, env, o, left, fuel);
    }
  }

  lemma {:induction false} NoFinalizer(t: Node, env: Env, o: Answer, left: seq<Answer>, fuel: nat)
    requires t.Try? && t.finallyBody.None?
    ensures Finally(t, env, o, left, fuel) == Deliver(o, left)
  {
  }

  /** A finalizer runs behind every outcome, sees the value of a normal one, and changes the
      outcome only by an error or a request of its own. */
  lemma {:induction false} Finalized(body: Node, f: Node, p: string, env: Env, answers: seq<Answer>, fuel: nat)
    ensures var whole := Eval(Try(body, None, None, Some(f), Some(p)), env, answers, fuel);
            match Eval(body, env, answers, fuel)
            case Done(v, rest) =>
              var last := Eval(f, Frame(map[p := v], env), rest, fuel);
              whole == if last.Done? then Done(v, last.rest) else last
            case Raised(e, rest) =>
              var last := Eval(f, env, rest, fuel);
              whole == if last.Done? then Raised(e, last.rest) else last
            case o => whole == o
  {
    hide EvalList, EvalFields, EvalSeq, Loop, Resolve, Apply, Lookup;
  }

  /** Effects are answered one by one: with a value, or with an error. */
  lemma {:induction false} Asked(id: string, d: Node, v: Node, e: Error, env: Env, rest: seq<Answer>, fuel: nat)
    ensures Eval(Effect(id, Quote(d)), env, [], fuel) == Suspended(Standard(id, d))
    ensures Eval(Effect(id, Quote(d)), env, [Ok(v)] + rest, fuel) == Done(v, rest)
    ensures Eval(Effect(id, Quote(d)), env, [Fail(e)] + rest, fuel) == Raised(e, rest)
  {
    forall answers: seq<Answer> ensures Resolve(Quote(d), env, answers, fuel) == Done(d, answers) {
    }
    assert ([Ok(v)] + rest)[1..] == rest && ([Fail(e)] + rest)[1..] == rest;
  }

  /** A property is that of an object that has it, and null otherwise. */
  lemma {:induction false} Property(a: Node, v: Node, key: string, env: Env, answers: seq<Answer>, rest: seq<Answer>,
                                    fuel: nat)
    requires Eval(a, env, answers, fuel) == Done(v, rest)
    ensures Eval(Get(a, key), env, answers, fuel) ==
            Done(if v.Obj? && key in v.fields then v.fields[key] else Null, rest)
  {
    hide EvalList, EvalFields, EvalSeq, Loop, Finally, Resolve, Apply, Lookup;
  }

  /** A `let` binds its name and no other. */
  lemma {:induction false} Bound(x: string, y: string, a: Node, v: Node, env: Env, answers: seq<Answer>,
                                 rest: seq<Answer>, fuel: nat)
    requires Eval(a, env, answers, fuel) == Done(v, rest)
    ensures Eval(Let(x, a, Ref(x)), env, answers, fuel) == Done(v, rest)
    ensures x != y ==> Eval(Let(x, a, Ref(y)), env, answers, fuel) == Eval(Ref(y), env, rest, fuel)
  {
    hide EvalList, EvalFields, EvalSeq, Loop, Finally, Resolve, Apply;
  }

  // ----- sequences and calls -----

  /** A sequence comes to the value of its last expression, an empty one to null. */
  lemma {:induction false} Sequences(es: seq<Node>, vs: seq<Node>, env: Env, answers: seq<Answer>, rest: seq<Answer>,
                                     fuel: nat)
    requires Yields(es, vs, env, answers, rest, fuel)
    ensures Eval(Seq(es), env, answers, fuel) == Done(if vs == [] then Null else vs[|vs| - 1], rest)
  {
    SequenceValue(es, vs, Null, env, answers, rest, fuel);
  }

  lemma {:induction false} SequenceValue(es: seq<Node>, vs: seq<Node>, last: Node, env: Env, answers: seq<Answer>,
                                         rest: seq<Answer>, fuel: nat)
    requires Yields(es, vs, env, answers, rest, fuel)
    ensures EvalSeq(es, last, env, answers, fuel) == Done(if vs == [] then last else vs[|vs| - 1], rest)
    decreases es
  {
    hide Eval;
    if es != [] {
      SequenceValue(es[1..], vs[1..], vs[0], env, Eval(es[0], env, answers, fuel).rest, rest, fuel);
    }
  }

  /** A frame that binds each parameter to the last argument given for it. */
  ghost predicate Binds(frame: map<string, Node>, params: seq<string>, vs: seq<Node>)
    requires |params| == |vs|
  {
    && (forall x :: x in frame <==> x in params)
    && (forall i :: 0 <= i < |params| && params[i] !in params[i + 1..] ==>
          params[i] in frame && frame[params[i]] == vs[i])
  }

  lemma {:induction false} BindingsBind(params: seq<string>, vs: seq<Node>)
    requires |params| == |vs|
    ensures Binds(Bindings(params, vs), params, vs)
  {
    hide Bindings;
    BoundNames(params, vs);
    forall i | 0 <= i < |params| && params[i] !in params[i + 1..] ensures Bindings(params, vs)[params[i]] == vs[i] {
      BoundValue(params, vs, i);
    }
  }

  lemma {:induction false} BoundNames(params: seq<string>, vs: seq<Node>)
    requires |params| == |vs|
    ensures forall x :: x in Bindings(params, vs) <==> x in params
  {
    if params != [] {
      var m := |params| - 1;
      BoundNames(params[..m], vs[..m]);
      assert params == params[..m] + [params[m]];
    }
  }

  lemma {:induction false} BoundValue(params: seq<string>, vs: seq<Node>, i: nat)
    requires |params| == |vs| && i < |params| && params[i] !in params[i + 1..]
    ensures params[i] in Bindings(params, vs) && Bindings(params, vs)[params[i]] == vs[i]
  {
    var m := |params| - 1;
    if i < m {
      LastBefore(params, i);
      BoundValue(params[..m], vs[..m], i);
    }
  }

  lemma {:induction false} LastBefore(params: seq<string>, i: nat)
    requires i < |params| - 1 && params[i] !in params[i + 1..]
    ensures var before := params[..|params| - 1];
            params[i] != params[|params| - 1] && before[i] == params[i] && before[i] !in before[i + 1..]
  {
    var m := |params| - 1;
    assert params[i + 1..][m - i - 1] == params[m];
    assert params[i + 1..] == params[..m][i + 1..] + [params[m]];
  }

  lemma {:induction false} CallUnfold(f: Node, args: seq<Node>, env: Env, answers: seq<Answer>, fuel: nat)
    ensures var o := Eval(f, env, answers, fuel);
            o.Done? ==>
              Eval(Call(f, args), env, answers, fuel) ==
              if !o.value.Fn? then Raised(NotCallable, o.rest)
              else
                var vs := EvalList(ArrayOf, [], args, env, o.rest, fuel);
                if !vs.Done? then vs
                else if |o.value.params| != |vs.value.items| then
                  Raised(ArityMismatch(|o.value.params|, |vs.value.items|), vs.rest)
                else if fuel == 0 then OutOfFuel
                else Eval(o.value.body, ExtendMulti(env, o.value.params, vs.value.items), vs.rest, fuel - 1)
  {
    hide EvalList, EvalFields, EvalSeq, Loop, Finally, Resolve, Apply, Lookup, ExtendMulti;
  }

  /** A call evaluates the body where the caller stands, with the parameters in front; what is
      called and the number of its parameters are looked at before and after the arguments. */
  lemma {:induction false} Calls(f: Node, v: Node, args: seq<Node>, vs: seq<Node>, env: Env, answers: seq<Answer>,
                                 middle: seq<Answer>, rest: seq<Answer>, fuel: nat)
    requires Eval(f, env, answers, fuel) == Done(v, middle) && fuel > 0
    ensures !v.Fn? ==> Eval(Call(f, args), env, answers, fuel) == Raised(NotCallable, middle)
    ensures v.Fn? && Yields(args, vs, env, middle, rest, fuel) && |v.params| != |vs| ==>
              Eval(Call(f, args), env, answers, fuel) == Raised(ArityMismatch(|v.params|, |vs|), rest)
    ensures v.Fn? && Yields(args, vs, env, middle, rest, fuel) && |v.params| == |vs| ==>
              exists frame :: Binds(frame, v.params, vs) &&
                Eval(Call(f, args), env, answers, fuel) == Eval(v.body, Frame(frame, env), rest, fuel - 1)
  {
    hide Eval, EvalList, Bindings, Binds;
    CallUnfold(f, args, env, answers, fuel);
    if v.Fn? && Yields(args, vs, env, middle, rest, fuel) {
      OperandValues(ArrayOf, [], args, vs, env, middle, rest, fuel);
      assert [] + vs == vs;
      if |v.params| == |vs| {
        BindingsBind(v.params, vs);
      }
    }
  }
}
