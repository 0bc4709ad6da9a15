/** The evaluator as it is written: loops over expressions, entries, items and environment
    frames, each held to the evaluator function. `answers` are what the effects will
    receive; running out of them is the suspension of the generator. */
module Evaluate {
  import opened Text
  import opened Ir
  import opened Kernel

  // ----- environments -----

  method LookupName(name: string, env: Env) returns (r: Answer)
    ensures r == if Lookup(name, env).Some? then Ok(Lookup(name, env).value) else Fail(UnboundVariable(name))
  {
    var frame := env;
    while frame != Empty
      invariant Lookup(name, env) == Lookup(name, frame)
      decreases frame
    {
      if name in frame.bindings {
        return Ok(frame.bindings[name]);
      }
      frame := frame.parent;
    }
    r := Fail(UnboundVariable(name));
  }

  datatype Extended = Extended(env: Env) | Refused(error: Error)

  /** A frame with one binding for each name, or the arity error when there are too few or too
      many values. The last value given for a name counts. */
  method ExtendAll(env: Env, names: seq<string>, values: seq<Node>) returns (r: Extended)
    ensures |names| != |values| ==> r == Refused(ArityMismatch(|names|, |values|))
    ensures |names| == |values| ==> r == Extended(ExtendMulti(env, names, values))
    ensures r.Extended? ==> forall i :: 0 <= i < |names| && names[i] !in names[i + 1..] ==>
              Lookup(names[i], r.env) == Some(values[i])
    ensures r.Extended? ==> forall x :: x !in names ==> Lookup(x, r.env) == Lookup(x, env)
  {
    if |names| != |values| {
      return Refused(ArityMismatch(|names|, |values|));
    }
    var bindings: map<string, Node> := map[];
    for i := 0 to |names|
      invariant bindings == Bindings(names[..i], values[..i])
    {
      assert names[..i + 1][..i] == names[..i] && values[..i + 1][..i] == values[..i];
      bindings := bindings[names[i] := values[i]];
    }
    assert names[..|names|] == names && values[..|values|] == values;
    BoundNames(names, values);
    forall i | 0 <= i < |names| && names[i] !in names[i + 1..]
      ensures names[i] in bindings && bindings[names[i]] == values[i]
    {
      LastBinding(names, values, i);
    }
    r := Extended(Frame(bindings, env));
  }

  lemma {:induction false} BoundNames(names: seq<string>, values: seq<Node>)
    requires |names| == |values|
    ensures forall x :: x in Bindings(names, values) <==> x in names
  {
    if names != [] {
      var n := |names| - 1;
      BoundNames(names[..n], values[..n]);
      assert names == names[..n] + [names[n]];
    }
  }

  /** The last value given for a name counts. */
  lemma {:induction false} LastBinding(names: seq<string>, values: seq<Node>, i: nat)
    requires |names| == |values| && i < |names| && names[i] !in names[i + 1..]
    ensures names[i] in Bindings(names, values) && Bindings(names, values)[names[i]] == values[i]
    decreases |names|
  {
    var n := |names| - 1;
    if i < n {
      assert names[i + 1..] == names[..n][i + 1..] + [names[n]];
      LastBinding(names[..n], values[..n], i);
    }
  }

  // ----- expressions -----

  method Evaluate(e: Node, env: Env, answers: seq<Answer>, fuel: nat) returns (o: Out)
    ensures o == Eval(e, env, answers, fuel)
    decreases fuel, e, 4
  {
    if e.Ref? {
      var found := LookupName(e.name, env);
      o := Deliver(found, answers);
    } else if e.Quote? {
      o := Done(e.expr, answers);
    } else if e.Effect? {
      o := ResolveData(e.data, env, answers, fuel);
      if o.Done? {
        o := Ask(Standard(e.id, o.value), o.rest);
      }
    } else if e.Compound? {
      o := Ask(Fork(e.kind, e.branches, env), answers);
    } else if IsEval(e) {
      o := EvaluateStructural(e, env, answers, fuel);
    } else {
      o := Done(e, answers);
    }
  }

  method EvaluateStructural(e: Node, env: Env, answers: seq<Answer>, fuel: nat) returns (o: Out)
    requires IsEval(e) && !e.Effect? && !e.Compound?
    ensures o == Eval(e, env, answers, fuel)
    decreases fuel, e, 3
  {
    hide EvalSeq, Loop, EvalList, EvalFields, Finally, Resolve, Apply, ErrorToValue, Truthy, ThrownError, ReadKey;
    hide Lookup, ExtendMulti;
    match e {
      case Let(name, value, body) =>
        o := Evaluate(value, env, answers, fuel);
        if o.Done? {
          o := Evaluate(body, Extend(env, name, o.value), o.rest, fuel);
        }
      case Seq(exprs) => o := EvaluateInOrder(exprs, Null, env, answers, fuel);
      case While(_, _) => o := EvaluateWhile(e, env, answers, fuel);
      case Call(_, _) => o := EvaluateCall(e, env, answers, fuel);
      case Construct(entries) => o := EvaluateFields(e, env, answers, fuel);
      case Try(_, _, _, _, _) => o := EvaluateTry(e, env, answers, fuel);
      case If(_, _, _) => o := EvaluateChoice(e, env, answers, fuel);
      case And(_, _) => o := EvaluateChoice(e, env, answers, fuel);
      case Or(_, _) => o := EvaluateChoice(e, env, answers, fuel);
      case _ => o := EvaluateStrict(e, env, answers, fuel);
    }
  }

  /** Operations that act on the values of all their operands. */
  method EvaluateStrict(e: Node, env: Env, answers: seq<Answer>, fuel: nat) returns (o: Out)
    requires e.Get? || e.Prim? || e.Throw?
    ensures o == Eval(e, env, answers, fuel)
    decreases fuel, e, 2
  {
    hide EvalSeq, Loop, EvalList, EvalFields, Finally, Resolve, Apply, ErrorToValue, Truthy, ThrownError, ReadKey;
    if e.Prim? {
      o := EvaluateList(e.op, e.operands, env, answers, fuel);
      if o.Done? {
        o := Deliver(Apply(e.op, o.value.items), o.rest);
      }
      return;
    }
    o := Evaluate(if e.Get? then e.obj else e.message, env, answers, fuel);
    if o.Done? {
      o := if e.Get? then Done(ReadKey(o.value, e.key), o.rest) else Raised(ThrownError(o.value), o.rest);
    }
  }

  /** `if`, and the short-circuiting operators, which give back an operand. */
  method EvaluateChoice(e: Node, env: Env, answers: seq<Answer>, fuel: nat) returns (o: Out)
    requires e.If? || e.And? || e.Or?
    ensures o == Eval(e, env, answers, fuel)
    decreases fuel, e, 2
  {
    o := Evaluate(if e.If? then e.cond else e.a, env, answers, fuel);
    if !o.Done? {
      return;
    }
    var holds := Truthy(o.value);
    if e.If? {
      if holds {
        o := Evaluate(e.then_, env, o.rest, fuel);
      } else if e.else_.Some? {
        o := Evaluate(e.else_.value, env, o.rest, fuel);
      } else {
        o := Done(Null, o.rest);
      }
    } else if e.And? == holds {
      o := Evaluate(e.b_, env, o.rest, fuel);
    }
  }

  /** The function, then the arguments, then the body under the caller's environment. */
  method EvaluateCall(e: Node, env: Env, answers: seq<Answer>, fuel: nat) returns (o: Out)
    requires e.Call?
    ensures o == Eval(e, env, answers, fuel)
    decreases fuel, e, 2
  {
    hide EvalList, EvalSeq, Loop, EvalFields, Finally, Resolve, Lookup, Bindings, Apply;
    o := Evaluate(e.fn, env, answers, fuel);
    if o.Done? {
      var f := o.value;
      if !f.Fn? {
        return Raised(NotCallable, o.rest);
      }
      o := EvaluateList(ArrayOf, e.args, env, o.rest, fuel);
      if o.Done? {
        var vs := o.value.items;
        var inner := ExtendAll(env, f.params, vs);
        if inner.Refused? {
          return Raised(inner.error, o.rest);
        }
        if fuel == 0 {
          return OutOfFuel;
        }
        o := Evaluate(f.body, inner.env, o.rest, fuel - 1);
      }
    }
  }

  method EvaluateInOrder(exprs: seq<Node>, initial: Node, env: Env, answers: seq<Answer>, fuel: nat) returns (o: Out)
    ensures o == EvalSeq(exprs, initial, env, answers, fuel)
    decreases fuel, exprs, 2
  {
    hide Eval;
    o := Done(initial, answers);
    assert exprs[0..] == exprs;
    for i := 0 to |exprs|
      invariant o.Done?
      invariant EvalSeq(exprs, initial, env, answers, fuel) == EvalSeq(exprs[i..], o.value, env, o.rest, fuel)
    {
      assert exprs[i..][0] == exprs[i] && exprs[i..][1..] == exprs[i + 1..];
      o := Evaluate(exprs[i], env, o.rest, fuel);
      if !o.Done? {
        return;
      }
    }
  }

  /** The test is evaluated anew before each round; the value is that of the last round. */
  method EvaluateWhile(w: Node, env: Env, answers: seq<Answer>, fuel: nat) returns (o: Out)
    requires w.While?
    ensures o == Loop(w, Null, env, answers, fuel)
    decreases fuel, w, 2
  {
    hide Eval, EvalSeq;
    var last, rest, left := Null, answers, fuel;
    while true
      invariant 0 <= left <= fuel
      invariant Loop(w, Null, env, answers, fuel) == Loop(w, last, env, rest, left)
      decreases left
    {
      if left == 0 {
        return OutOfFuel;
      }
      o := Evaluate(w.test, env, rest, left - 1);
      if !o.Done? {
        return;
      }
      if !Truthy(o.value) {
        return Done(last, o.rest);
      }
      o := EvaluateInOrder(w.loop, last, env, o.rest, left - 1);
      if !o.Done? {
        return;
      }
      last, rest, left := o.value, o.rest, left - 1;
    }
  }

  method EvaluateList(op: PrimOp, es: seq<Node>, env: Env, answers: seq<Answer>, fuel: nat) returns (o: Out)
    ensures o == EvalList(op, [], es, env, answers, fuel)
    decreases fuel, es, 2
  {
    hide Eval;
    var values: seq<Node> := [];
    var rest := answers;
    assert es[0..] == es;
    for i := 0 to |es|
      invariant |values| == i
      invariant EvalList(op, [], es, env, answers, fuel) == EvalList(op, values, es[i..], env, rest, fuel)
    {
      assert es[i..][0] == es[i] && es[i..][1..] == es[i + 1..];
      o := Evaluate(es[i], env, rest, fuel);
      if !o.Done? {
        return;
      }
      var fault := ItemFault(op, o.value);
      if fault.Some? {
        return Raised(fault.value, o.rest);
      }
      values, rest := values + [o.value], o.rest;
    }
    o := Done(Arr(values), rest);
  }

  /** Entries in the sorted order of their keys. */
  method EvaluateFields(c: Node, env: Env, answers: seq<Answer>, fuel: nat) returns (o: Out)
    requires c.Construct?
    ensures o == EvalFields(c, SortedKeys(c.entries.Keys), map[], env, answers, fuel)
    decreases fuel, c, 2
  {
    hide Eval, SortedKeys, Sorted;
    var keys := SortedKeys(c.entries.Keys);
    var made: map<string, Node> := map[];
    var rest := answers;
    assert keys[0..] == keys;
    for i := 0 to |keys|
      invariant EvalFields(c, keys, map[], env, answers, fuel) == EvalFields(c, keys[i..], made, env, rest, fuel)
    {
      assert keys[i..][0] == keys[i] && keys[i..][1..] == keys[i + 1..];
      o := Evaluate(c.entries[keys[i]], env, rest, fuel);
      if !o.Done? {
        return;
      }
      made, rest := made[keys[i] := o.value], o.rest;
    }
    o := Done(Obj(made), rest);
  }

  /** Body, then the handler for a catchable error, then the finalizer, whose own error or
      suspension takes over. */
  method EvaluateTry(t: Node, env: Env, answers: seq<Answer>, fuel: nat) returns (o: Out)
    requires t.Try?
    ensures o == Eval(t, env, answers, fuel)
    decreases fuel, t, 2
  {
    o := Evaluate(t.tried, env, answers, fuel);
    if o.Raised? && Catchable(o.error) && t.catchBody.Some? {
      o := Evaluate(t.catchBody.value, CatchEnv(t, env, o.error), o.rest, fuel);
    }
    if o.Suspended? || o.OutOfFuel? {
      return;
    }
    var outcome := if o.Done? then Ok(o.value) else Fail(o.error);
    var rest := o.rest;
    if t.finallyBody.Some? {
      o := Evaluate(t.finallyBody.value, FinallyEnv(t, env, outcome), rest, fuel);
      if !o.Done? {
        return;
      }
      rest := o.rest;
    }
    o := Deliver(outcome, rest);
  }

  // ----- effect data -----

  method ResolveData(n: Node, env: Env, answers: seq<Answer>, fuel: nat) returns (o: Out)
    ensures o == Resolve(n, env, answers, fuel)
    decreases fuel, n, 5
  {
    hide Eval, SortedKeys, Sorted;
    var rest := answers;
    if n.Arr? {
      var items: seq<Node> := [];
      assert n.items[0..] == n.items;
      for i := 0 to |n.items|
        invariant ResolveItems([], n.items, env, answers, fuel) == ResolveItems(items, n.items[i..], env, rest, fuel)
      {
        assert n.items[i..][0] == n.items[i] && n.items[i..][1..] == n.items[i + 1..];
        o := ResolveData(n.items[i], env, rest, fuel);
        if !o.Done? {
          return;
        }
        items, rest := items + [o.value], o.rest;
      }
      o := Done(Arr(items), rest);
    } else if n.Obj? {
      var keys := SortedKeys(n.fields.Keys);
      var made: map<string, Node> := map[];
      assert keys[0..] == keys;
      for i := 0 to |keys|
        invariant ResolveFields(n, keys, map[], env, answers, fuel)
               == ResolveFields(n, keys[i..], made, env, rest, fuel)
      {
        assert keys[i..][0] == keys[i] && keys[i..][1..] == keys[i + 1..];
        o := ResolveData(n.fields[keys[i]], env, rest, fuel);
        if !o.Done? {
          return;
        }
        made, rest := made[keys[i] := o.value], o.rest;
      }
      o := Done(Obj(made), rest);
    } else {
      o := Evaluate(n, env, answers, fuel);
    }
  }
}
