/** What the lowering proof rests on: renamed expressions mean the same, scopes behave like
    scopes, and names of different variables stay apart. */
module LoweringBasics {
  import opened Text
  import opened Ir
  import opened Kernel
  import opened Source
  import opened Emit

  // ----- expressions without binders -----

  /** An expression the loop lowering accepts: it binds nothing and reads only `vis`. */
  predicate Plain(e: Node, vis: set<string>)
    decreases e, 0
  {
    match e
    case Null => true
    case Bool(_) => true
    case Num(_) => true
    case Str(_) => true
    case Ref(x) => x in vis
    case If(c, t, f) => Plain(c, vis) && Plain(t, vis) && (f.Some? ==> Plain(f.value, vis))
    case Get(o, _) => Plain(o, vis)
    case Prim(_, operands) => forall i :: 0 <= i < |operands| ==> Plain(operands[i], vis)
    case And(a, b) => Plain(a, vis) && Plain(b, vis)
    case Or(a, b) => Plain(a, vis) && Plain(b, vis)
    case Construct(entries) => forall k :: k in entries ==> Plain(entries[k], vis)
    case Effect(_, data) => PlainData(data, vis)
    case _ => false
  }

  /** Effect data may nest plain expressions in arrays and objects. */
  predicate PlainData(d: Node, vis: set<string>)
    decreases d, 1
  {
    match d
    case Arr(items) => forall i :: 0 <= i < |items| ==> PlainData(items[i], vis)
    case Obj(fields) => forall k :: k in fields ==> PlainData(fields[k], vis)
    case _ => Plain(d, vis)
  }

  /** Every source variable is bound, under its current IR name, to its value. */
  ghost predicate Represents(env: Env, scopes: Scopes, store: Store)
  {
    forall x :: x in store ==> Lookup(ResolveRef(x, scopes), env) == Some(store[x])
  }

  /** Renaming preserves the meaning of a plain expression. */
  lemma {:induction false} RenamedSame(e: Node, scopes: Scopes, store: Store, env: Env, answers: seq<Answer>, fuel: nat)
    requires Plain(e, store.Keys) && Represents(env, scopes, store)
    ensures Eval(EmitExpr(e, scopes), env, answers, fuel) == Read(e, store, answers, fuel)
    decreases e, 2
  {
    hide EvalList, EvalFields, EvalSeq, Loop, Finally, Resolve, ResolveRef, Lookup, Apply, Represents, SortedKeys,
      Sorted, ReadKey;
    match e
    case Ref(x) => RenamedRef(x, scopes, store, env, answers, fuel);
    case If(c, t, f) => RenamedIf(e, scopes, store, env, answers, fuel);
    case Get(o, _) => RenamedSame(o, scopes, store, env, answers, fuel);
    case Prim(op, operands) => RenamedList(op, [], operands, scopes, store, env, answers, fuel);
    case And(a, b) => RenamedBoth(e, a, b, scopes, store, env, answers, fuel);
    case Or(a, b) => RenamedBoth(e, a, b, scopes, store, env, answers, fuel);
    case Construct(entries) => RenamedConstruct(e, scopes, store, env, answers, fuel);
    case Effect(_, data) => RenamedData(data, scopes, store, env, answers, fuel);
    case _ =>
  }

  lemma {:induction false} RenamedConstruct(e: Node, scopes: Scopes, store: Store, env: Env, answers: seq<Answer>,
                                            fuel: nat)
    requires e.Construct? && Plain(e, store.Keys) && Represents(env, scopes, store)
    ensures Eval(EmitExpr(e, scopes), env, answers, fuel) == Read(e, store, answers, fuel)
    decreases e, 1, |e.entries| + 1
  {
    hide EvalFields, Represents, SortedKeys, Sorted;
    assert EmitExpr(e, scopes).entries.Keys == e.entries.Keys;
    RenamedFields(e, SortedKeys(e.entries.Keys), map[], scopes, store, env, answers, fuel);
  }

  lemma {:induction false} RenamedRef(x: string, scopes: Scopes, store: Store, env: Env, answers: seq<Answer>,
                                      fuel: nat)
    requires x in store && Represents(env, scopes, store)
    ensures Eval(EmitExpr(Ref(x), scopes), env, answers, fuel) == Read(Ref(x), store, answers, fuel)
  {
    hide ResolveRef;
  }

  lemma {:induction false} RenamedIf(e: Node, scopes: Scopes, store: Store, env: Env, answers: seq<Answer>, fuel: nat)
    requires e.If? && Plain(e, store.Keys) && Represents(env, scopes, store)
    ensures Eval(EmitExpr(e, scopes), env, answers, fuel) == Read(e, store, answers, fuel)
    decreases e, 1
  {
    hide EvalList, EvalFields, EvalSeq, Loop, Finally, Resolve, ResolveRef, Lookup, Represents, Apply, ReadKey;
    RenamedSame(e.cond, scopes, store, env, answers, fuel);
    var o := Read(e.cond, store, answers, fuel);
    if o.Done? {
      if Truthy(o.value) {
        RenamedSame(e.then_, scopes, store, env, o.rest, fuel);
      } else if e.else_.Some? {
        RenamedSame(e.else_.value, scopes, store, env, o.rest, fuel);
      }
    }
  }

  lemma {:induction false} RenamedBoth(e: Node, a: Node, b: Node, scopes: Scopes, store: Store, env: Env,
                                       answers: seq<Answer>, fuel: nat)
    requires (e == And(a, b) || e == Or(a, b)) && Plain(e, store.Keys) && Represents(env, scopes, store)
    ensures Eval(EmitExpr(e, scopes), env, answers, fuel) == Read(e, store, answers, fuel)
    decreases e, 1
  {
    hide EvalList, EvalFields, EvalSeq, Loop, Finally, Resolve, ResolveRef, Lookup, Represents, Apply, ReadKey, Truthy;
    RenamedSame(a, scopes, store, env, answers, fuel);
    var o := Read(a, store, answers, fuel);
    if o.Done? {
      RenamedSame(b, scopes, store, env, o.rest, fuel);
    }
  }

  lemma {:induction false} RenamedList(op: PrimOp, done: seq<Node>, es: seq<Node>, scopes: Scopes, store: Store,
                                       env: Env, answers: seq<Answer>, fuel: nat)
    requires forall i :: 0 <= i < |es| ==> Plain(es[i], store.Keys)
    requires Represents(env, scopes, store)
    ensures EvalList(op, done, EmitExprs(es, scopes), env, answers, fuel)
         == EvalList(op, done, es, Frame(store, Empty), answers, fuel)
    decreases es
  {
    if es != [] {
      RenamedSame(es[0], scopes, store, env, answers, fuel);
      assert EmitExprs(es, scopes)[1..] == EmitExprs(es[1..], scopes);
      var o := Read(es[0], store, answers, fuel);
      if o.Done? {
        RenamedList(op, done + [o.value], es[1..], scopes, store, env, o.rest, fuel);
      }
    }
  }

  lemma {:induction false} RenamedFields(c: Node, keys: seq<string>, made: map<string, Node>, scopes: Scopes,
                                         store: Store, env: Env, answers: seq<Answer>, fuel: nat)
    requires c.Construct? && Plain(c, store.Keys) && (forall k :: k in keys ==> k in c.entries)
    requires Represents(env, scopes, store)
    ensures EvalFields(EmitExpr(c, scopes), keys, made, env, answers, fuel)
         == EvalFields(c, keys, made, Frame(store, Empty), answers, fuel)
    decreases c, 1, |keys|
  {
    if keys != [] {
      assert keys[0] in c.entries;
      var e := c.entries[keys[0]];
      RenamedSame(e, scopes, store, env, answers, fuel);
      var o := Read(e, store, answers, fuel);
      if o.Done? {
        RenamedFields(c, keys[1..], made[keys[0] := o.value], scopes, store, env, o.rest, fuel);
      }
    }
  }

  lemma {:induction false} RenamedData(d: Node, scopes: Scopes, store: Store, env: Env, answers: seq<Answer>, fuel: nat)
    requires PlainData(d, store.Keys) && Represents(env, scopes, store)
    ensures Resolve(EmitExpr(d, scopes), env, answers, fuel)
         == Resolve(d, Frame(store, Empty), answers, fuel)
    decreases d, 3
  {
    hide Eval, Represents, SortedKeys, Sorted;
    if d.Arr? {
      RenamedItems([], d.items, scopes, store, env, answers, fuel);
    } else if d.Obj? {
      assert EmitExpr(d, scopes).fields.Keys == d.fields.Keys;
      RenamedDataFields(d, SortedKeys(d.fields.Keys), map[], scopes, store, env, answers, fuel);
    } else {
      RenamedSame(d, scopes, store, env, answers, fuel);
    }
  }

  lemma {:induction false} RenamedItems(done: seq<Node>, es: seq<Node>, scopes: Scopes, store: Store, env: Env,
                                        answers: seq<Answer>, fuel: nat)
    requires forall i :: 0 <= i < |es| ==> PlainData(es[i], store.Keys)
    requires Represents(env, scopes, store)
    ensures ResolveItems(done, EmitExprs(es, scopes), env, answers, fuel)
         == ResolveItems(done, es, Frame(store, Empty), answers, fuel)
    decreases es
  {
    if es != [] {
      RenamedData(es[0], scopes, store, env, answers, fuel);
      assert EmitExprs(es, scopes)[1..] == EmitExprs(es[1..], scopes);
      var o := Resolve(es[0], Frame(store, Empty), answers, fuel);
      if o.Done? {
        RenamedItems(done + [o.value], es[1..], scopes, store, env, o.rest, fuel);
      }
    }
  }

  lemma {:induction false} RenamedDataFields(d: Node, keys: seq<string>, made: map<string, Node>, scopes: Scopes,
                                             store: Store, env: Env, answers: seq<Answer>, fuel: nat)
    requires d.Obj? && PlainData(d, store.Keys) && (forall k :: k in keys ==> k in d.fields)
    requires Represents(env, scopes, store)
    ensures ResolveFields(EmitExpr(d, scopes), keys, made, env, answers, fuel)
         == ResolveFields(d, keys, made, Frame(store, Empty), answers, fuel)
    decreases d, 1, |keys|
  {
    if keys != [] {
      assert keys[0] in d.fields;
      var e := d.fields[keys[0]];
      RenamedData(e, scopes, store, env, answers, fuel);
      var o := Resolve(e, Frame(store, Empty), answers, fuel);
      if o.Done? {
        RenamedDataFields(d, keys[1..], made[keys[0] := o.value], scopes, store, env, o.rest, fuel);
      }
    }
  }

  // ----- scopes -----

  lemma {:induction false} DeclaredLookup(x: string, isLet: bool, scopes: Scopes, y: string)
    requires scopes != []
    ensures LookupBinding(y, DeclareBinding(x, isLet, scopes)) ==
            if y == x then Some(Info(isLet, 0)) else LookupBinding(y, scopes)
  {
    var s := DeclareBinding(x, isLet, scopes);
    assert s[..|s| - 1] == scopes[..|scopes| - 1];
  }

  lemma {:induction false} BumpedLookup(x: string, scopes: Scopes, y: string)
    requires LookupBinding(x, scopes).Some?
    ensures var old_ := LookupBinding(x, scopes).value;
            LookupBinding(y, BumpVersion(x, scopes)) ==
            if y == x then Some(old_.(version := old_.version + 1)) else LookupBinding(y, scopes)
    decreases |scopes|
  {
    var top := |scopes| - 1;
    var s := BumpVersion(x, scopes);
    assert |s| == |scopes|;
    if x in scopes[top] {
      assert s[..top] == scopes[..top];
    } else {
      assert s[..top] == BumpVersion(x, scopes[..top]);
      BumpedLookup(x, scopes[..top], y);
    }
  }

  // ----- names -----

  /** No constant is spelled like a version of a `let` variable. */
  ghost predicate NoClash(consts: set<string>, lets: set<string>)
  {
    forall c, x, k: nat :: c in consts && x in lets ==> c != Versioned(x, k)
  }

  lemma {:induction false} VersionedInjective(x: string, i: nat, y: string, j: nat)
    requires Versioned(x, i) == Versioned(y, j)
    ensures x == y && i == j
  {
    assert Versioned(x, i) == x + ['_'] + Decimal(i);
    assert Versioned(y, j) == y + ['_'] + Decimal(j);
    LastPartUnique(x, Decimal(i), y, Decimal(j), '_');
    DecimalInjective(i, j);
  }

  /** Synthetic names: they begin with two underscores and a letter. */
  predicate Synthetic(name: string)
  {
    Reserved(name) && |name| >= 3 && !IsDigit(name[2])
  }

  lemma {:induction false} UserNamesNotSynthetic(x: string, k: nat)
    requires !Reserved(x)
    ensures !Synthetic(x) && !Synthetic(Versioned(x, k))
  {
    var v := Versioned(x, k);
    assert v == x + (['_'] + Decimal(k));
    assert v[|x|] == '_' && v[|x| + 1] == Decimal(k)[0];
  }

  lemma {:induction false} CounterNamesSynthetic(n: nat)
    ensures Synthetic(CounterName("loop", n)) && CounterName("loop", n)[3] == 'o'
    ensures Synthetic(CounterName("last", n)) && CounterName("last", n)[3] == 'a'
    ensures Synthetic(CounterName("discard", n)) && CounterName("discard", n)[3] == 'i'
    ensures Synthetic(CounterName("loop_result", n))
  {
  }

  /** Two variables share an IR name exactly when one is a constant that is spelled like the
      current version of the other. */
  lemma {:induction false} NamesApart(x: string, xi: Info, y: string, yi: Info)
    requires x != y
    ensures InfoName(x, xi) == InfoName(y, yi) <==>
              || (xi.isLet && !yi.isLet && y == Versioned(x, xi.version))
              || (yi.isLet && !xi.isLet && x == Versioned(y, yi.version))
  {
    if xi.isLet && yi.isLet && InfoName(x, xi) == InfoName(y, yi) {
      VersionedInjective(x, xi.version, y, yi.version);
    }
  }

  /** So without clashes different variables have different IR names. */
  lemma {:induction false} NoClashApart(x: string, xi: Info, y: string, yi: Info, consts: set<string>,
                                        lets: set<string>)
    requires x != y && NoClash(consts, lets)
    requires if xi.isLet then x in lets else x in consts
    requires if yi.isLet then y in lets else y in consts
    ensures InfoName(x, xi) != InfoName(y, yi)
  {
    NamesApart(x, xi, y, yi);
  }

  // ----- settled expressions -----

  /** The value of an expression that evaluates at once: a null, a string or a bound name. */
  function Settled(e: Node, env: Env): Option<Node>
  {
    if e.Ref? then Lookup(e.name, env)
    else if e.Null? || e.Str? then Some(e)
    else None
  }

  lemma {:induction false} SettledOne(e: Node, env: Env, answers: seq<Answer>, fuel: nat)
    requires Settled(e, env).Some?
    ensures Eval(e, env, answers, fuel) == Done(Settled(e, env).value, answers)
  {
    hide Lookup;
  }

  lemma {:induction false} SettledList(done: seq<Node>, es: seq<Node>, values: seq<Node>, env: Env,
                                       answers: seq<Answer>, fuel: nat)
    requires |values| == |es| && forall i :: 0 <= i < |es| ==> Settled(es[i], env) == Some(values[i])
    ensures EvalList(ArrayOf, done, es, env, answers, fuel) == Done(Arr(done + values), answers)
    decreases |es|
  {
    hide Eval, Settled;
    if es == [] {
      assert done + values == done;
    } else {
      assert Settled(es[0], env) == Some(values[0]);
      SettledOne(es[0], env, answers, fuel);
      SettledList(done + [values[0]], es[1..], values[1..], env, answers, fuel);
      assert done + [values[0]] + values[1..] == done + values;
    }
  }

  /** A `construct` whose entries other than `busy` are settled does what `busy` does. */
  lemma {:induction false} MostlySettledFields(c: Node, busy: string, keys: seq<string>, made: map<string, Node>,
                                               env: Env, answers: seq<Answer>, fuel: nat)
    requires c.Construct? && Sorted(keys) && (forall k :: k in keys ==> k in c.entries)
    requires busy in c.entries
    requires forall k :: k in keys && k != busy ==> Settled(c.entries[k], env).Some?
    ensures var o := EvalFields(c, keys, made, env, answers, fuel);
            var b := if busy in keys then Eval(c.entries[busy], env, answers, fuel) else Done(Null, answers);
            if !b.Done? then o == b
            else
              && o.Done? && o.rest == b.rest && o.value.Obj?
              && o.value.fields.Keys == made.Keys + (set k | k in keys)
              && (forall k :: k in made && k !in keys ==> o.value.fields[k] == made[k])
              && (busy in keys ==> o.value.fields[busy] == b.value)
              && (forall k :: k in keys && k != busy ==> o.value.fields[k] == Settled(c.entries[k], env).value)
    decreases |keys|
  {
    if keys != [] {
      var k0 := keys[0];
      assert k0 in c.entries;
      assert k0 !in keys[1..] by {
        LessIrreflexive(k0);
      }
      var o := Eval(c.entries[k0], env, answers, fuel);
      if k0 != busy {
        assert o == Done(Settled(c.entries[k0], env).value, answers);
      }
      if o.Done? {
        MostlySettledFields(c, busy, keys[1..], made[k0 := o.value], env, o.rest, fuel);
      }
    }
  }

  /** `o` is what a `construct` makes when its entry `busy` comes out as `b`. */
  ghost predicate Packs(c: Node, busy: string, env: Env, b: Out, o: Out)
    requires c.Construct? && busy in c.entries
  {
    if !b.Done? then o == b
    else
      && o.Done? && o.rest == b.rest && o.value.Obj?
      && o.value.fields.Keys == c.entries.Keys
      && o.value.fields[busy] == b.value
      && (forall k :: k in c.entries && k != busy ==> Some(o.value.fields[k]) == Settled(c.entries[k], env))
  }

  lemma {:induction false} MostlySettledConstruct(c: Node, busy: string, env: Env, answers: seq<Answer>, fuel: nat)
    requires c.Construct? && busy in c.entries
    requires forall k :: k in c.entries && k != busy ==> Settled(c.entries[k], env).Some?
    ensures Packs(c, busy, env, Eval(c.entries[busy], env, answers, fuel), Eval(c, env, answers, fuel))
  {
    var keys := SortedKeys(c.entries.Keys);
    var o := EvalFields(c, keys, map[], env, answers, fuel);
    assert Eval(c, env, answers, fuel) == o;
    assert busy in keys;
    assert (set k | k in keys) == c.entries.Keys;
    MostlySettledFields(c, busy, keys, map[], env, answers, fuel);
  }

  // ----- packed fields -----

  lemma {:induction false} CarriedFieldsAt(carried: seq<string>, refs: seq<Node>)
    requires |refs| == |carried|
    requires forall i, j :: 0 <= i < j < |carried| ==> carried[i] != carried[j]
    ensures CarriedFields(carried, refs).Keys == (set x | x in carried)
    ensures forall i :: 0 <= i < |carried| ==> CarriedFields(carried, refs)[carried[i]] == refs[i]
  {
    if carried != [] {
      var n := |carried| - 1;
      CarriedFieldsAt(carried[..n], refs[..n]);
      assert carried == carried[..n] + [carried[n]];
    }
  }

  lemma {:induction false} BindingsAt(names: seq<string>, values: seq<Node>)
    requires |names| == |values|
    requires forall i, j :: 0 <= i < j < |names| ==> names[i] != names[j]
    ensures Bindings(names, values).Keys == (set x | x in names)
    ensures forall i :: 0 <= i < |names| ==> Bindings(names, values)[names[i]] == values[i]
  {
    if names != [] {
      var n := |names| - 1;
      BindingsAt(names[..n], values[..n]);
      assert names == names[..n] + [names[n]];
    }
  }
}
