/** Main results on the loop lowering. */
module LoweringTheorem {
  import opened Text
  import opened Ir
  import opened Kernel
  import opened Source
  import opened Emit
  import opened LoweringBasics
  import opened LoweringState
  import opened LoweringProof

  /** Every tracked `let` variable is bound under its current name. */
  ghost predicate TracksBound(env: Env, scopes: Scopes)
  {
    forall x :: IsLetBinding(x, scopes) ==> Lookup(ResolveRef(x, scopes), env).Some?
  }

  /** The scopes after the loop: carried variables have moved to their next version. */
  lemma {:induction false} ScopesAfter(world: World, y: string)
    requires CarriedLets(world)
    ensures var after := BumpAll(world.shape.carried, world.base);
            LookupBinding(y, after) ==
            if y in world.shape.carried
            then Some(InfoOf(y, world.base).(version := InfoOf(y, world.base).version + 1))
            else LookupBinding(y, world.base)
  {
    var carried := world.shape.carried;
    assert forall i :: 0 <= i < |carried| ==> carried[i] in carried;
    BumpAllLookup(carried, world.base, y);
  }

  lemma {:induction false} ReboundNames(world: World)
    requires CarriedLets(world) && Named(world, world.base, world.entry)
    ensures var names := ParamNames(world.shape.carried, BumpAll(world.shape.carried, world.base));
            && Distinct(names)
            && (forall i :: 0 <= i < |names| ==>
                  names[i] == Versioned(world.shape.carried[i], InfoOf(world.shape.carried[i], world.base).version + 1)
                  && !Synthetic(names[i]))
  {
    var carried := world.shape.carried;
    var names := ParamNames(carried, BumpAll(carried, world.base));
    forall i | 0 <= i < |names|
      ensures names[i] == Versioned(carried[i], InfoOf(carried[i], world.base).version + 1) && !Synthetic(names[i])
    {
      assert carried[i] in carried;
      ScopesAfter(world, carried[i]);
      UserNamesNotSynthetic(carried[i], InfoOf(carried[i], world.base).version + 1);
    }
    forall i, j | 0 <= i < j < |names| ensures names[i] != names[j] {
      if names[i] == names[j] {
        VersionedInjective(carried[i], InfoOf(carried[i], world.base).version + 1,
                           carried[j], InfoOf(carried[j], world.base).version + 1);
      }
    }
  }

  function PackedValues(carried: seq<string>, packed: Node): (r: seq<Node>)
    ensures |r| == |carried|
  {
    seq(|carried|, i requires 0 <= i < |carried| =>
      if packed.Obj? && carried[i] in packed.fields then packed.fields[carried[i]] else Null)
  }

  /** The environment in which the statements after the loop run. */
  function EnvAfter(l: Lowered, packed: Node, env: Env): Env
    requires l.Lowered? && |l.rebound| == |l.shape.carried|
  {
    Rebound(l.rebound, PackedValues(l.shape.carried, packed),
            Extend(Extend(env, l.shape.name, l.fn), l.result, packed))
  }

  /** A name of the environment before the loop that neither the loop nor the rebinding hides. */
  lemma {:induction false} EnvAfterOld(world: World, l: Lowered, packed: Node, env: Env, n: string)
    requires LowersTo(world, l) && !Synthetic(n) && n !in l.rebound
    ensures Lookup(n, EnvAfter(l, packed, env)) == Lookup(n, env)
  {
    hide GoodWorld;
    WorldCarriedLets(world);
    WorldBasics(world);
    ReboundNames(world);
    var env1 := Extend(env, l.shape.name, l.fn);
    var env2 := Extend(env1, l.result, packed);
    assert Lookup(n, env2) == Lookup(n, env1) == Lookup(n, env);
    ReboundLookup(l.rebound, PackedValues(l.shape.carried, packed), env2);
  }

  /** A name that the loop does not rebind is bound as before. */
  ghost predicate OthersKept(l: Lowered, env: Env, env': Env)
    requires l.Lowered?
  {
    forall n :: !Synthetic(n) && n !in l.rebound ==> Lookup(n, env') == Lookup(n, env)
  }

  lemma {:induction false} EnvAfterOthers(world: World, l: Lowered, packed: Node, env: Env)
    requires LowersTo(world, l)
    ensures OthersKept(l, env, EnvAfter(l, packed, env))
  {
    hide GoodWorld, EnvAfter;
    forall n | !Synthetic(n) && n !in l.rebound ensures Lookup(n, EnvAfter(l, packed, env)) == Lookup(n, env) {
      EnvAfterOld(world, l, packed, env, n);
    }
  }

  lemma {:induction false} EnvAfterCarried(world: World, l: Lowered, packed: Node, env: Env, x: string)
    requires LowersTo(world, l) && x in l.shape.carried && packed.Obj? && x in packed.fields
    ensures Lookup(ResolveRef(x, l.scopes), EnvAfter(l, packed, env)) == Some(packed.fields[x])
  {
    WorldCarriedLets(world);
    ReboundNames(world);
    var values := PackedValues(l.shape.carried, packed);
    ReboundLookup(l.rebound, values, Extend(Extend(env, l.shape.name, l.fn), l.result, packed));
    var i :| 0 <= i < |l.shape.carried| && l.shape.carried[i] == x;
    assert l.rebound[i] == ResolveRef(x, l.scopes) && values[i] == packed.fields[x];
  }

  lemma {:induction false} RebasedNames(world: World)
    requires GoodWorld(world)
    ensures NoClash(world.consts, world.lets) && Named(world, world.base, world.entry)
    ensures world.loop.WhileStmt? && world.base != []
  {
  }

  /** An outer variable that is not carried keeps a name that no new binding hides. */
  lemma {:induction false} NotRebound(world: World, l: Lowered, x: string)
    requires LowersTo(world, l) && x !in l.shape.carried
    requires x in world.entry || IsLetBinding(x, world.base)
    ensures ResolveRef(x, l.scopes) == ResolveRef(x, world.base)
    ensures ResolveRef(x, world.base) !in l.rebound && !Synthetic(ResolveRef(x, world.base))
  {
    hide GoodWorld, WellScoped, Covered, BumpAll, Decimal, Lookup;
    RebasedNames(world);
    WorldCarriedLets(world);
    ScopesAfter(world, x);
    ReboundNames(world);
    var info := InfoOf(x, world.base);
    if x in world.entry {
      NameOfStored(world, world.base, world.entry, x);
    }
    UserNamesNotSynthetic(x, info.version);
    forall i | 0 <= i < |l.rebound| ensures l.rebound[i] != ResolveRef(x, world.base) {
      var c := world.shape.carried[i];
      assert c in world.shape.carried;
      NoClashApart(c, Info(true, InfoOf(c, world.base).version + 1), x, info, world.consts, world.lets);
    }
  }

  /** After the loop every variable has, under its new name, the value the source gave it. */
  lemma {:induction false} ContinuationSees(world: World, l: Lowered, store: Store, packed: Node, env: Env,
                                            rest: seq<Answer>)
    requires LowersTo(world, l)
    requires Represents(env, world.base, world.entry) && TracksBound(env, world.base)
    requires Agrees(world, Done(packed, rest), Fall(store, rest))
    ensures Represents(EnvAfter(l, packed, env), l.scopes, store)
    ensures TracksBound(EnvAfter(l, packed, env), l.scopes)
  {
    hide GoodWorld;
    var env' := EnvAfter(l, packed, env);
    forall x | x in store ensures Lookup(ResolveRef(x, l.scopes), env') == Some(store[x]) {
      if x in l.shape.carried {
        EnvAfterCarried(world, l, packed, env, x);
      } else {
        NotRebound(world, l, x);
        EnvAfterOld(world, l, packed, env, ResolveRef(x, world.base));
      }
    }
    forall x | IsLetBinding(x, l.scopes) ensures Lookup(ResolveRef(x, l.scopes), env').Some? {
      WorldCarriedLets(world);
      ScopesAfter(world, x);
      if x in l.shape.carried {
        EnvAfterCarried(world, l, packed, env, x);
      } else {
        NotRebound(world, l, x);
        EnvAfterOld(world, l, packed, env, ResolveRef(x, world.base));
      }
    }
  }

  /** How the lowered code answers each way the source loop can leave. */
  ghost predicate Preserved(l: Lowered, env': Env, rest: Node, fuel: nat, out: Out, exit: Exit)
    requires l.Lowered?
  {
    match exit
    case Fall(store, left) =>
      out == Eval(rest, env', left, fuel) && Represents(env', l.scopes, store) && TracksBound(env', l.scopes)
    case Returned(v, _, left) => out == Done(v, left)
    case Thrown(e, _, left) => out == Raised(e, left)
    case Waiting(r) => out == Suspended(r)
    case NoFuel => out == OutOfFuel
  }

  /** Dispatch on the tag of the packed result. */
  lemma {:induction false} TagTest(result: string, packed: Node, tag: string, rest: Node, env: Env,
                                   answers: seq<Answer>, fuel: nat)
    requires Lookup(result, env) == Some(packed) && packed.Obj?
    requires "__tag" in packed.fields && packed.fields["__tag"] == Str(tag)
    requires tag == "return" ==> "__value" in packed.fields
    ensures Eval(If(Prim(Eq, [Get(Ref(result), "__tag"), Str("return")]), Get(Ref(result), "__value"), Some(rest)),
                 env, answers, fuel)
         == if tag == "return" then Done(packed.fields["__value"], answers) else Eval(rest, env, answers, fuel)
  {
    hide Eval, EvalList, Lookup;
    var g := Get(Ref(result), "__tag");
    FieldOutcome(result, packed, "__tag", env, answers, fuel);
    EqOutcome(g, Str(tag), Str("return"), env, answers, fuel);
    IfOutcome(Prim(Eq, [g, Str("return")]), Get(Ref(result), "__value"), rest, env, answers, fuel);
    if tag == "return" {
      FieldOutcome(result, packed, "__value", env, answers, fuel);
    }
  }

  lemma {:induction false} FieldOutcome(result: string, packed: Node, key: string, env: Env, answers: seq<Answer>,
                                        fuel: nat)
    requires Lookup(result, env) == Some(packed) && packed.Obj? && key in packed.fields
    ensures Eval(Get(Ref(result), key), env, answers, fuel) == Done(packed.fields[key], answers)
  {
    RefOutcome(result, env, answers, fuel);
  }

  /** An equality with a literal on the right. */
  lemma {:induction false} EqOutcome(a: Node, v: Node, b: Node, env: Env, answers: seq<Answer>, fuel: nat)
    requires Eval(a, env, answers, fuel) == Done(v, answers) && b.Str?
    ensures Eval(Prim(Eq, [a, b]), env, answers, fuel) == Done(Bool(v == b), answers)
  {
    hide Lookup, EvalList, EvalFields, EvalSeq, Loop, Finally, Resolve;
    EqOperands(a, v, b, env, answers, fuel);
  }

  lemma {:induction false} EqOperands(a: Node, v: Node, b: Node, env: Env, answers: seq<Answer>, fuel: nat)
    requires Eval(a, env, answers, fuel) == Done(v, answers) && b.Str?
    ensures EvalList(Eq, [], [a, b], env, answers, fuel) == Done(Arr([v, b]), answers)
  {
    assert Eval(b, env, answers, fuel) == Done(b, answers);
    hide Eval;
    assert [a, b][1..] == [b] && [b][1..] == [];
    assert [] + [v] == [v] && [v] + [b] == [v, b];
    assert EvalList(Eq, [v, b], [], env, answers, fuel) == Done(Arr([v, b]), answers);
    assert EvalList(Eq, [v], [b], env, answers, fuel) == Done(Arr([v, b]), answers);
  }

  /** The code after the call, once the call has produced a packed object. */
  lemma {:induction false} PackedDispatch(world: World, l: Lowered, rest: Node, packed: Node, env: Env,
                                          left: seq<Answer>, fuel: nat,
                       exit: Exit)
    requires LowersTo(world, l)
    requires Represents(env, world.base, world.entry) && TracksBound(env, world.base)
    requires Agrees(world, Done(packed, left), exit)
    ensures var env1 := Extend(Extend(env, l.shape.name, l.fn), l.result, packed);
            var chain := RebindChain(l.rebound, l.shape.carried, l.result, rest);
            var code := if l.shape.pack then
                          If(Prim(Eq, [Get(Ref(l.result), "__tag"), Str("return")]),
                             Get(Ref(l.result), "__value"), Some(chain))
                        else chain;
            Preserved(l, EnvAfter(l, packed, env), rest, fuel, Eval(code, env1, left, fuel), exit)
  {
    hide GoodWorld, Eval, EvalList, Represents, TracksBound, RebindChain;
    var env1 := Extend(Extend(env, l.shape.name, l.fn), l.result, packed);
    var chain := RebindChain(l.rebound, l.shape.carried, l.result, rest);
    if exit.Fall? {
      FallDispatch(world, l, rest, packed, env, left, fuel, exit.store);
    } else {
      TagTest(l.result, packed, "return", chain, env1, left, fuel);
    }
  }

  lemma {:induction false} FallDispatch(world: World, l: Lowered, rest: Node, packed: Node, env: Env,
                                        left: seq<Answer>, fuel: nat,
                     store: Store)
    requires LowersTo(world, l)
    requires Represents(env, world.base, world.entry) && TracksBound(env, world.base)
    requires Agrees(world, Done(packed, left), Fall(store, left))
    ensures var env1 := Extend(Extend(env, l.shape.name, l.fn), l.result, packed);
            var chain := RebindChain(l.rebound, l.shape.carried, l.result, rest);
            var code := if l.shape.pack then
                          If(Prim(Eq, [Get(Ref(l.result), "__tag"), Str("return")]),
                             Get(Ref(l.result), "__value"), Some(chain))
                        else chain;
            Preserved(l, EnvAfter(l, packed, env), rest, fuel, Eval(code, env1, left, fuel), Fall(store, left))
  {
    hide GoodWorld, Eval, EvalList, Represents, TracksBound, RebindChain;
    var env1 := Extend(Extend(env, l.shape.name, l.fn), l.result, packed);
    var chain := RebindChain(l.rebound, l.shape.carried, l.result, rest);
    WorldCarriedLets(world);
    WorldBasics(world);
    ReboundNames(world);
    ContinuationSees(world, l, store, packed, env, left);
    var values := PackedValues(l.shape.carried, packed);
    ChainRuns(l.rebound, l.shape.carried, values, l.result, packed, rest, env1, left, fuel);
    if l.shape.pack {
      TagTest(l.result, packed, "exit", chain, env1, left, fuel);
    }
  }

  /** The lowering preserves meaning: for every fuel and every list of answers the lowered
      code suspends on the request the source loop waits on, returns what it returns,
      throws what it throws, diverges with it, or goes on to the continuation in an
      environment that shows every variable as the source loop left it. */
  lemma {:induction false} LoweringPreservesMeaning(w: Stmt, scopes: Scopes, counter: Counter, store: Store, env: Env,
                                 consts: set<string>, lets: set<string>, rest: Node,
                                 answers: seq<Answer>, fuel: nat)
    returns (env': Env)
    requires w.WhileStmt? && LoopContext(w, scopes, store, env, consts, lets) && IsCaseB(w, scopes)
    requires LowerLoop(w, scopes, counter).Lowered?
    ensures var l := LowerLoop(w, scopes, counter);
            Preserved(l, env', rest, fuel, Eval(Assemble(l, rest), env, answers, fuel),
                      ExecWhile(w, store, answers, fuel))
    ensures ExecWhile(w, store, answers, fuel).Fall? ==>
              ExecWhile(w, store, answers, fuel).store.Keys == store.Keys &&
              OthersKept(LowerLoop(w, scopes, counter), env, env')
  {
    hide GoodWorld, OthersKept, LowerLoop, ExecWhile, Eval, Assemble;
    var l := LowerLoop(w, scopes, counter);
    var world := WorldOf(w, scopes, counter, store, consts, lets);
    LoopWorld(w, scopes, counter, store, env, consts, lets);
    LoopCall(world, l, env, answers, fuel);
    var env1 := Extend(env, l.shape.name, l.fn);
    var o := Eval(l.call, env1, answers, fuel);
    AssembleOutcome(l, rest, env, answers, fuel);
    env' := env;
    if o.Done? {
      PackedDispatch(world, l, rest, o.value, env, o.rest, fuel, ExecWhile(w, store, answers, fuel));
      env' := EnvAfter(l, o.value, env);
      EnvAfterOthers(world, l, o.value, env);
    }
  }

  lemma {:induction false} AssembleOutcome(l: Lowered, rest: Node, env: Env, answers: seq<Answer>, fuel: nat)
    requires l.Lowered? && |l.rebound| == |l.shape.carried| && l.fn.Fn?
    ensures var env1 := Extend(env, l.shape.name, l.fn);
            var o := Eval(l.call, env1, answers, fuel);
            var chain := RebindChain(l.rebound, l.shape.carried, l.result, rest);
            var code := if l.shape.pack then
                          If(Prim(Eq, [Get(Ref(l.result), "__tag"), Str("return")]),
                             Get(Ref(l.result), "__value"), Some(chain))
                        else chain;
            Eval(Assemble(l, rest), env, answers, fuel) ==
            if o.Done? then Eval(code, Extend(env1, l.result, o.value), o.rest, fuel) else o
  {
    hide RebindChain;
    assert Eval(l.fn, env, answers, fuel) == Done(l.fn, answers);
    hide Eval;
    var env1 := Extend(env, l.shape.name, l.fn);
    var chain := RebindChain(l.rebound, l.shape.carried, l.result, rest);
    var code := if l.shape.pack then
                  If(Prim(Eq, [Get(Ref(l.result), "__tag"), Str("return")]),
                     Get(Ref(l.result), "__value"), Some(chain))
                else chain;
    LetOutcome(l.shape.name, l.fn, Let(l.result, l.call, code), env, answers, fuel);
    LetOutcome(l.result, l.call, code, env1, answers, fuel);
  }
}
