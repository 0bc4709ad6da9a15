/** What the parser makes of a printed term: in an object literal the key that names the
    prototype makes no entry. An object or null under it becomes the prototype of the object,
    anything else is dropped. */
module ProtoKeys {
  import opened Text
  import opened Lexer
  import opened Term
  import opened Printer
  import opened Parser

  const Proto := "__proto__"

  /** The term as it comes back. */
  function Reread(t: Term): (r: Term)
    ensures IsCall(t) <==> IsCall(r)
    ensures t.Undefined? <==> r.Undefined?
    decreases Size(t), 1
  {
    if t.Array? then Array(RereadAll(t.items))
    else if t.Object? then Made(Literal(RereadEntries(t.entries), Prototype(t.entries)))
    else if IsCall(t) then RereadNode(t)
    else t
  }

  function RereadNode(t: Term): (r: Term)
    requires IsCall(t)
    ensures IsCall(r)
    decreases Size(t), 0
  {
    match t
    case Quote(e) => Quote(Reread(e))
    case Fn(params, body) => Fn(params, Reread(body))
    case Let(name, value, scope) => Let(name, Reread(value), Reread(scope))
    case If(c, th, e) =>
      SizeOfPart(e);
      If(Reread(c), Reread(th), if e.Some? then Some(Reread(e.value)) else None)
    case While(c, exprs) => While(Reread(c), RereadAll(exprs))
    case Call(f, args) => Call(Reread(f), RereadAll(args))
    case Get(o, key) => Get(Reread(o), key)
    case Binary(op, a, b) => Binary(op, Reread(a), Reread(b))
    case Unary(op, a) => Unary(op, Reread(a))
    case Listed(kind, parts) => Listed(kind, RereadAll(parts))
    case Construct(built) => Construct(Reread(built))
    case Throw(m) => Throw(Reread(m))
    case Try(b, param, c, f, payload) =>
      SizeOfPart(c);
      SizeOfPart(f);
      Try(Reread(b), param, if c.Some? then Some(Reread(c.value)) else None,
          if f.Some? then Some(Reread(f.value)) else None, payload)
    case Eval(id, d) => Eval(id, Reread(d))
    case Timebox(d, b) => Timebox(Reread(d), Reread(b))
    case Ref(_) => t
  }

  /** The prototype that an object literal sets. */
  function Prototype(es: seq<Entry>): Option<Term>
    decreases SizeEntries(es), 2, |es|
  {
    if es == [] then None
    else if es[0].key != Proto then Prototype(es[1..])
    else if CanBePrototype(es[0].value) then Some(Reread(es[0].value))
    else None
  }

  lemma {:induction false} RereadKind(t: Term)
    ensures CanBePrototype(Reread(t)) <==> CanBePrototype(t)
  {
    hide RereadAll, RereadEntries, Prototype;
  }

  function RereadAll(ts: seq<Term>): (r: seq<Term>)
    ensures |r| == |ts|
    decreases SizeAll(ts), 2, |ts|
  {
    if ts == [] then [] else [Reread(ts[0])] + RereadAll(ts[1..])
  }

  function RereadEntries(es: seq<Entry>): seq<Entry>
    decreases SizeEntries(es), 2, |es|
  {
    if es == [] then []
    else (if es[0].key == Proto then [] else [Entry(es[0].key, Reread(es[0].value))]) + RereadEntries(es[1..])
  }

  lemma {:induction false} RereadAllAppend(a: seq<Term>, b: seq<Term>)
    ensures RereadAll(a + b) == RereadAll(a) + RereadAll(b)
  {
    hide Reread;
    if a == [] {
      assert a + b == b;
    } else {
      RereadAllAppend(a[1..], b);
      assert (a + b)[0] == a[0] && (a + b)[1..] == a[1..] + b;
    }
  }

  lemma {:induction false} RereadAllFew(a: Term, b: Term, c: Term)
    ensures RereadAll([a]) == [Reread(a)]
    ensures RereadAll([a, b]) == [Reread(a), Reread(b)]
    ensures RereadAll([a, b, c]) == [Reread(a), Reread(b), Reread(c)]
  {
    hide Reread;
    assert [a][1..] == [] && [b][1..] == [] && [c][1..] == [];
    assert [a, b][1..] == [b] && [b, c][1..] == [c];
    assert [a, b, c][1..] == [b, c];
    assert RereadAll([b, c]) == [Reread(b)] + RereadAll([c]);
  }

  lemma {:induction false} RereadStrings(names: seq<string>)
    ensures RereadAll(Strings(names)) == Strings(names)
  {
    if names != [] {
      var all := Strings(names);
      assert all[0] == Str(names[0]) && all[1..] == Strings(names[1..]);
      RereadStrings(names[1..]);
    }
  }

  lemma {:induction false} RereadWhen(present: bool, t: Term)
    ensures RereadAll(When(present, t)) == When(present, Reread(t))
  {
    RereadAllFew(t, t, t);
  }

  /** The arguments of what comes back are the arguments as they come back. */
  lemma {:induction false} RereadArgs(t: Term)
    requires IsCall(t)
    ensures Name(Reread(t)) == Name(t)
    ensures Args(Reread(t)) == RereadAll(Args(t))
  {
    hide RereadAll, Args, Name, Reread;
    if Bindings(t) {
      RereadBindings(t);
    } else if t.Try? {
      RereadTryArgs(t);
    } else {
      RereadOthers(t);
    }
  }

  /** Nodes that name something, or take a list. */
  predicate Bindings(t: Term)
  {
    t.Ref? || t.Fn? || t.Let? || t.While? || t.Call? || t.Get? || t.Eval?
  }

  lemma {:induction false} RereadBindings(t: Term)
    requires Bindings(t)
    ensures Name(Reread(t)) == Name(t)
    ensures Args(Reread(t)) == RereadAll(Args(t))
  {
    hide RereadAll, RereadEntries, Prototype, When, Size, SizeAll;
    match t
    case Ref(name) => RereadAllFew(Str(name), Null, Null);
    case Fn(params, body) => RereadStrings(params); RereadAllFew(Array(Strings(params)), body, Null);
    case Let(name, value, scope) => RereadAllFew(Str(name), value, scope);
    case While(c, exprs) => RereadAllFew(c, Array(exprs), Null);
    case Call(f, args) => RereadAllFew(f, Null, Null); RereadAllAppend([f], args);
    case Get(o, key) => RereadAllFew(o, Str(key), Null);
    case Eval(id, d) => RereadAllFew(Str(id), d, Null);
  }

  lemma {:induction false} RereadOthers(t: Term)
    requires IsCall(t) && !Bindings(t) && !t.Try?
    ensures Name(Reread(t)) == Name(t)
    ensures Args(Reread(t)) == RereadAll(Args(t))
  {
    hide RereadAll, RereadEntries, Prototype, When, Size, SizeAll;
    if t.If? {
      RereadAllFew(t.cond, t.then_, OrUndefined(t.else_));
    } else if t.Quote? {
      RereadAllFew(t.expr, Null, Null);
    } else if t.Binary? {
      RereadAllFew(t.left, t.right, Null);
    } else if t.Unary? {
      RereadAllFew(t.operand, Null, Null);
    } else if t.Construct? {
      RereadAllFew(t.built, Null, Null);
    } else if t.Throw? {
      RereadAllFew(t.message, Null, Null);
    } else if t.Timebox? {
      RereadAllFew(t.duration, t.timed, Null);
    }
  }

  lemma {:induction false} RereadTryArgs(t: Term)
    requires t.Try?
    ensures Name(Reread(t)) == Name(t)
    ensures Args(Reread(t)) == RereadAll(Args(t))
  {
    hide RereadAll, When, Size, SizeAll;
    var third := t.finallyBody.Some? || t.finallyPayload.Some?;
    var b1, a1 := t.catchParam.Some? || t.catchBody.Some? || third, NameOrUndefined(t.catchParam);
    var b2, a2 := t.catchBody.Some? || third, OrUndefined(t.catchBody);
    var a3 := OrUndefined(t.finallyBody);
    var b4, a4 := t.finallyPayload.Some?, NameOrUndefined(t.finallyPayload);
    RereadAllFew(t.tried, Null, Null);
    RereadWhen(b1, a1);
    RereadWhen(b2, a2);
    RereadWhen(third, a3);
    RereadWhen(b4, a4);
    RereadAllAppend([t.tried] + When(b1, a1) + When(b2, a2) + When(third, a3), When(b4, a4));
    RereadAllAppend([t.tried] + When(b1, a1) + When(b2, a2), When(third, a3));
    RereadAllAppend([t.tried] + When(b1, a1), When(b2, a2));
    RereadAllAppend([t.tried], When(b1, a1));
  }

  // ----- entries -----

  lemma {:induction false} HasKeyCons(e: Entry, es: seq<Entry>, key: string)
    ensures HasKey([e] + es, key) <==> e.key == key || HasKey(es, key)
  {
    var all := [e] + es;
    assert all[0] == e;
    if HasKey(es, key) {
      var i :| 0 <= i < |es| && es[i].key == key;
      assert all[i + 1] == es[i];
    }
  }

  lemma {:induction false} RereadHasKey(es: seq<Entry>, key: string)
    ensures HasKey(RereadEntries(es), key) <==> HasKey(es, key) && key != Proto
  {
    hide Reread, HasKey;
    if es == [] {
      NoKeys(key);
    } else {
      RereadHasKey(es[1..], key);
      assert es == [es[0]] + es[1..];
      HasKeyCons(es[0], es[1..], key);
      HasKeyCons(Entry(es[0].key, Reread(es[0].value)), RereadEntries(es[1..]), key);
      assert [] + RereadEntries(es[1..]) == RereadEntries(es[1..]);
    }
  }

  lemma {:induction false} NoKeys(key: string)
    ensures !HasKey([], key)
  {
  }

  lemma {:induction false} DistinctCons(e: Entry, es: seq<Entry>)
    ensures DistinctKeys([e] + es) <==> DistinctKeys(es) && !HasKey(es, e.key)
  {
    var all := [e] + es;
    assert all[0] == e && forall i :: 0 <= i < |es| ==> all[i + 1] == es[i];
    if DistinctKeys(all) {
      forall i, j | 0 <= i < j < |es| ensures es[i].key != es[j].key {
        assert all[i + 1].key != all[j + 1].key;
      }
      forall i | 0 <= i < |es| ensures es[i].key != e.key {
        assert all[0].key != all[i + 1].key;
      }
    }
  }

  lemma {:induction false} RereadDistinct(es: seq<Entry>)
    requires DistinctKeys(es)
    ensures DistinctKeys(RereadEntries(es))
  {
    hide Reread, DistinctKeys, HasKey;
    if es == [] {
      assert RereadEntries(es) == es;
    } else {
      var e, tail := Entry(es[0].key, Reread(es[0].value)), RereadEntries(es[1..]);
      assert es == [es[0]] + es[1..];
      DistinctCons(es[0], es[1..]);
      RereadDistinct(es[1..]);
      RereadHasKey(es[1..], es[0].key);
      DistinctCons(e, tail);
      assert [] + tail == tail;
    }
  }

  lemma {:induction false} RereadBare(es: seq<Entry>)
    requires BareKeys(es)
    ensures BareKeys(RereadEntries(es))
  {
    hide Reread, IsIdent;
    if es != [] {
      RereadBare(es[1..]);
    }
  }

  lemma {:induction false} RereadTagged(es: seq<Entry>)
    requires Tagged(RereadEntries(es))
    ensures Tagged(es)
  {
    hide Reread;
    var all, tail := RereadEntries(es), RereadEntries(es[1..]);
    var n := |all| - |tail|;
    var i :| 0 <= i < |all| && all[i].key == "tisyn" &&
             all[i].value in {Str("eval"), Str("quote"), Str("ref"), Str("fn")};
    if i < n {
      RereadTag(es[0].value);
    } else {
      assert all[i] == tail[i - n];
      RereadTagged(es[1..]);
      var j :| 0 <= j < |es[1..]| && es[1..][j].key == "tisyn" &&
               es[1..][j].value in {Str("eval"), Str("quote"), Str("ref"), Str("fn")};
      assert es[j + 1] == es[1..][j];
    }
  }

  lemma {:induction false} NoProtoKey(es: seq<Entry>)
    requires !HasKey(es, Proto)
    ensures Prototype(es).None?
    decreases |es|
  {
    hide HasKey, Reread;
    if es != [] {
      assert es == [es[0]] + es[1..];
      HasKeyCons(es[0], es[1..], Proto);
      NoProtoKey(es[1..]);
    }
  }

  lemma {:induction false} RereadTag(v: Term)
    ensures Reread(v).Str? ==> Reread(v) == v
  {
  }

  // ----- when the result is IR of the constructors again -----

  /** No object literal sets a prototype. */
  predicate NoPrototypes(t: Term)
    decreases Size(t), 0
  {
    if t.Array? then NoPrototypesAll(t.items)
    else if t.Object? then NoPrototypesEntries(t.entries)
    else if IsCall(t) then
      ArgsSmaller(t);
      NoPrototypesAll(Args(t))
    else true
  }

  predicate NoPrototypesAll(ts: seq<Term>)
    decreases SizeAll(ts), 1, |ts|
  {
    ts == [] || (NoPrototypes(ts[0]) && NoPrototypesAll(ts[1..]))
  }

  predicate NoPrototypesEntries(es: seq<Entry>)
    decreases SizeEntries(es), 1, |es|
  {
    es == [] ||
    (NoPrototypes(es[0].value) && !(es[0].key == Proto && CanBePrototype(es[0].value)) && NoPrototypesEntries(es[1..]))
  }

  lemma {:induction false} RereadAllWellFormed(ts: seq<Term>)
    requires WellFormedAll(ts)
    ensures WellFormedAll(RereadAll(ts)) <==> NoPrototypesAll(ts)
    decreases SizeAll(ts), 3, |ts|
  {
    hide WellFormed, Reread, NoPrototypes;
    if ts != [] {
      RereadWellFormed(ts[0]);
      RereadAllWellFormed(ts[1..]);
      assert RereadAll(ts)[0] == Reread(ts[0]) && RereadAll(ts)[1..] == RereadAll(ts[1..]);
    }
  }

  lemma {:induction false} RereadEntriesWellFormed(es: seq<Entry>)
    requires WellFormedEntries(es) && DistinctKeys(es)
    ensures Prototype(es).None? && WellFormedEntries(RereadEntries(es)) <==> NoPrototypesEntries(es)
    decreases SizeEntries(es), 3, |es|
  {
    hide WellFormed, Reread, NoPrototypes, DistinctKeys, HasKey, CanBePrototype;
    if es != [] {
      RereadWellFormed(es[0].value);
      assert es == [es[0]] + es[1..];
      DistinctCons(es[0], es[1..]);
      RereadEntriesWellFormed(es[1..]);
      var tail := RereadEntries(es[1..]);
      assert [] + tail == tail;
      var all := [Entry(es[0].key, Reread(es[0].value))] + tail;
      assert all[0] == Entry(es[0].key, Reread(es[0].value)) && all[1..] == tail;
      if es[0].key == Proto {
        NoProtoKey(es[1..]);
        if !CanBePrototype(es[0].value) {
          PrimitivePlain(es[0].value);
        }
      }
    }
  }

  lemma {:induction false} PrimitivePlain(t: Term)
    requires !CanBePrototype(t)
    ensures NoPrototypes(t)
  {
  }

  /** What comes back is IR that the constructors build exactly when no object literal sets a
      prototype. */
  lemma {:induction false} RereadWellFormed(t: Term)
    requires WellFormed(t)
    ensures WellFormed(Reread(t)) <==> NoPrototypes(t)
    decreases Size(t), 2
  {
    hide RereadAll, RereadEntries, Prototype, DistinctKeys, BareKeys, Tagged, WellFormedAll, WellFormedEntries, SizeAll,
      SizeEntries, NoPrototypesAll, NoPrototypesEntries, CanBePrototype;
    if t.Array? {
      RereadAllWellFormed(t.items);
    } else if t.Object? {
      RereadFields(t.entries);
    } else if IsCall(t) {
      if t.Construct? || t.Eval? || t.Try? || t.Fn? || t.While? {
        RereadSpecial(t);
      } else {
        ArgsSmaller(t);
        RereadAllWellFormed(Args(t));
        RereadArgs(t);
      }
    }
  }

  /** Nodes of which not all arguments are terms of their own. */
  lemma {:induction false} RereadSpecial(t: Term)
    requires WellFormed(t) && (t.Construct? || t.Eval? || t.Try? || t.Fn? || t.While?)
    ensures WellFormed(Reread(t)) <==> NoPrototypes(t)
    decreases Size(t), 1
  {
    hide RereadAll, RereadEntries, Prototype, DistinctKeys, BareKeys, Tagged, WellFormedAll, WellFormedEntries, SizeAll,
      SizeEntries, NoPrototypesEntries, CanBePrototype, When;
    if t.Construct? {
      RereadFields(t.built.entries);
      NoPrototypesFew(t.built, Null, Null);
      assert Reread(t.built) == Made(Literal(RereadEntries(t.built.entries), Prototype(t.built.entries)));
    } else if t.Eval? {
      RereadWellFormed(t.data);
      NoPrototypesFew(Str(t.id), t.data, Null);
    } else if t.Try? {
      RereadTryWellFormed(t);
    } else if t.Fn? {
      RereadWellFormed(t.body);
      NoPrototypesNames(t.params);
      NoPrototypesFew(Array(Strings(t.params)), t.body, Null);
    } else {
      RereadWellFormed(t.test);
      RereadAllWellFormed(t.exprs);
      NoPrototypesFew(t.test, Array(t.exprs), Null);
    }
  }

  lemma {:induction false} NoPrototypesFew(a: Term, b: Term, c: Term)
    ensures NoPrototypesAll([a]) <==> NoPrototypes(a)
    ensures NoPrototypesAll([a, b]) <==> NoPrototypes(a) && NoPrototypes(b)
  {
    hide NoPrototypes;
    assert [a][1..] == [] && [b][1..] == [] && [a, b][1..] == [b];
  }

  lemma {:induction false} NoPrototypesNames(names: seq<string>)
    ensures NoPrototypesAll(Strings(names))
  {
    if names != [] {
      var all := Strings(names);
      assert all[0] == Str(names[0]) && all[1..] == Strings(names[1..]);
      NoPrototypesNames(names[1..]);
    }
  }

  lemma {:induction false} NoPrototypesAppend(a: seq<Term>, b: seq<Term>)
    ensures NoPrototypesAll(a + b) <==> NoPrototypesAll(a) && NoPrototypesAll(b)
  {
    hide NoPrototypes;
    if a == [] {
      assert a + b == b;
    } else {
      NoPrototypesAppend(a[1..], b);
      assert (a + b)[0] == a[0] && (a + b)[1..] == a[1..] + b;
    }
  }

  lemma {:induction false} NoPrototypesWhen(present: bool, t: Term)
    ensures NoPrototypesAll(When(present, t)) <==> (present ==> NoPrototypes(t))
  {
    NoPrototypesFew(t, t, t);
  }

  lemma {:induction false} SizeOfTry(t: Term)
    requires t.Try?
    ensures t.catchBody.Some? ==> Size(t.catchBody.value) < Size(t)
    ensures t.finallyBody.Some? ==> Size(t.finallyBody.value) < Size(t)
  {
    if t.catchBody.Some? {
      assert SizeOption(t.catchBody) == Size(t.catchBody.value);
    }
    if t.finallyBody.Some? {
      assert SizeOption(t.finallyBody) == Size(t.finallyBody.value);
    }
  }

  /** The arguments of a `try` are its parts, with `undefined` for those left out. */
  lemma {:induction false} TryParts(t: Term)
    requires t.Try?
    ensures NoPrototypes(t) <==>
              && NoPrototypes(t.tried) && (t.catchBody.Some? ==> NoPrototypes(t.catchBody.value))
              && (t.finallyBody.Some? ==> NoPrototypes(t.finallyBody.value))
  {
    hide NoPrototypesAll, When, Size, SizeAll;
    var third := t.finallyBody.Some? || t.finallyPayload.Some?;
    var b1, a1 := t.catchParam.Some? || t.catchBody.Some? || third, NameOrUndefined(t.catchParam);
    var b2, a2 := t.catchBody.Some? || third, OrUndefined(t.catchBody);
    var a3 := OrUndefined(t.finallyBody);
    var b4, a4 := t.finallyPayload.Some?, NameOrUndefined(t.finallyPayload);
    PrimitivePlain(a1);
    PrimitivePlain(a4);
    PrimitivePlain(Undefined);
    NoPrototypesFew(t.tried, Null, Null);
    NoPrototypesWhen(b1, a1);
    NoPrototypesWhen(b2, a2);
    NoPrototypesWhen(third, a3);
    NoPrototypesWhen(b4, a4);
    NoPrototypesAppend([t.tried] + When(b1, a1) + When(b2, a2) + When(third, a3), When(b4, a4));
    NoPrototypesAppend([t.tried] + When(b1, a1) + When(b2, a2), When(third, a3));
    NoPrototypesAppend([t.tried] + When(b1, a1), When(b2, a2));
    NoPrototypesAppend([t.tried], When(b1, a1));
    TryUnfolds(t);
  }

  lemma {:induction false} TryUnfolds(t: Term)
    requires t.Try?
    ensures NoPrototypes(t) == NoPrototypesAll(Args(t))
  {
    hide NoPrototypesAll, Args;
  }

  lemma {:induction false} TryReread(t: Term)
    requires t.Try?
    ensures var r := Reread(t);
            && r.Try? && r.tried == Reread(t.tried)
            && r.catchParam == t.catchParam && r.finallyPayload == t.finallyPayload
            && r.catchBody == (if t.catchBody.Some? then Some(Reread(t.catchBody.value)) else None)
            && r.finallyBody == (if t.finallyBody.Some? then Some(Reread(t.finallyBody.value)) else None)
  {
    hide Size;
  }

  lemma {:induction false} RereadTryWellFormed(t: Term)
    requires t.Try? && WellFormed(t)
    ensures WellFormed(Reread(t)) <==> NoPrototypes(t)
    decreases Size(t), 0
  {
    hide WellFormedAll, WellFormedEntries, SizeAll, SizeEntries, Reread, NoPrototypes, Args;
    TryParts(t);
    TryReread(t);
    RereadWellFormed(t.tried);
    SizeOfTry(t);
    if t.catchBody.Some? {
      RereadWellFormed(t.catchBody.value);
    }
    if t.finallyBody.Some? {
      RereadWellFormed(t.finallyBody.value);
    }
  }

  lemma {:induction false} RereadFields(es: seq<Entry>)
    requires WellFormedEntries(es) && DistinctKeys(es) && !Tagged(es)
    ensures Prototype(es).None? && WellFormedEntries(RereadEntries(es)) <==> NoPrototypesEntries(es)
    ensures DistinctKeys(RereadEntries(es)) && !Tagged(RereadEntries(es))
    ensures BareKeys(es) ==> BareKeys(RereadEntries(es))
    decreases SizeEntries(es), 4
  {
    hide WellFormedEntries, DistinctKeys, BareKeys, Tagged, RereadEntries, NoPrototypesEntries;
    RereadEntriesWellFormed(es);
    RereadDistinct(es);
    if BareKeys(es) {
      RereadBare(es);
    }
    if Tagged(RereadEntries(es)) {
      RereadTagged(es);
    }
  }

  // ----- what cannot be built -----

  /** No `Construct` gets an object that reads as a node once its prototype is set. */
  predicate Buildable(t: Term)
    decreases Size(t), 0
  {
    if t.Array? then BuildableAll(t.items)
    else if t.Object? then BuildableEntries(t.entries)
    else if IsCall(t) then
      ArgsSmaller(t);
      BuildableAll(Args(t)) && (t.Construct? ==> !ReadsTagged(Reread(t.built)))
    else true
  }

  predicate BuildableAll(ts: seq<Term>)
    decreases SizeAll(ts), 1, |ts|
  {
    ts == [] || (Buildable(ts[0]) && BuildableAll(ts[1..]))
  }

  predicate BuildableEntries(es: seq<Entry>)
    decreases SizeEntries(es), 1, |es|
  {
    es == [] || (Buildable(es[0].value) && BuildableEntries(es[1..]))
  }

  // ----- terms that are not changed -----

  /** No object literal has the key that names the prototype. */
  predicate ProtoFree(t: Term)
    decreases Size(t), 0
  {
    if t.Array? then ProtoFreeAll(t.items)
    else if t.Object? then ProtoFreeEntries(t.entries)
    else if IsCall(t) then
      ArgsSmaller(t);
      ProtoFreeAll(Args(t))
    else true
  }

  predicate ProtoFreeAll(ts: seq<Term>)
    decreases SizeAll(ts), 1, |ts|
  {
    ts == [] || (ProtoFree(ts[0]) && ProtoFreeAll(ts[1..]))
  }

  predicate ProtoFreeEntries(es: seq<Entry>)
    decreases SizeEntries(es), 1, |es|
  {
    es == [] || (es[0].key != Proto && ProtoFree(es[0].value) && ProtoFreeEntries(es[1..]))
  }
}
