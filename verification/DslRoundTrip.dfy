/** Parsing inverts printing. */
module DslRoundTrip {
  import opened Text
  import opened Lexer
  import opened Term
  import opened Printer
  import opened PrinterTokens
  import opened Parser
  import opened ProtoKeys
  import opened ParserCrash

  // ----- constructors -----

  lemma {:induction false} NamesOfStrings(names: seq<string>)
    ensures AllStrings(Strings(names)) && NamesOf(Strings(names)) == names
  {
  }

  lemma {:induction false} OperatorNames(t: Term)
    ensures t.Binary? ==> BinaryOf(Name(t)) == Some(t.bop) && ArityOf(Name(t)) == Some(Arity(2, Some(2)))
    ensures t.Listed? ==>
              BinaryOf(Name(t)).None? && ListOf(Name(t)) == Some(t.kind) && ArityOf(Name(t)) == Some(Arity(0, None))
  {
    hide BinaryName, ListName;
    if t.Binary? {
      BinaryNamed(t.bop);
    }
    if t.Listed? {
      ListNamed(t.kind);
    }
  }

  lemma {:induction false} BinaryNamed(op: BinaryOp)
    ensures BinaryOf(BinaryName(op)) == Some(op) && ArityOf(BinaryName(op)) == Some(Arity(2, Some(2)))
  {
  }

  lemma {:induction false} ListNamed(kind: ListKind)
    ensures BinaryOf(ListName(kind)).None? && ListOf(ListName(kind)) == Some(kind)
    ensures ArityOf(ListName(kind)) == Some(Arity(0, None))
  {
  }

  /** What a node must have for its constructor to make it again. */
  predicate Shaped(t: Term)
  {
    match t
    case Try(_, param, c, f, payload) =>
      && (c.Some? || f.Some?) && (c.Some? ==> !c.value.Undefined?) && (f.Some? ==> !f.value.Undefined?)
      && (param.Some? ==> param.value != "" && c.Some?) && (payload.Some? ==> payload.value != "")
    case If(_, _, e) => e.Some? ==> !e.value.Undefined?
    case Construct(built) => (built.Object? || built.Derived?) && !ReadsTagged(built)
    case _ => IsCall(t)
  }

  lemma {:induction false} WellFormedShaped(t: Term)
    requires WellFormed(t) && IsCall(t)
    ensures Shaped(t)
  {
    hide Size, SizeAll, WellFormedEntries;
    if t.If? && t.else_.Some? {
      ArgsPrintable(t);
      var a := Args(t);
      assert WellFormedAll(a) && WellFormedAll(a[1..]) && WellFormedAll(a[1..][1..]);
      assert a[1..][1..][0] == t.else_.value;
      assert WellFormed(t.else_.value);
    }
  }

  lemma {:induction false} RereadShaped(t: Term)
    requires Shaped(t) && (t.Construct? ==> !ReadsTagged(Reread(t.built)))
    ensures Shaped(Reread(t))
  {
    hide ReadsTagged, RereadAll, RereadEntries;
  }

  lemma {:induction false} TryArgs(t: Term)
    requires t.Try? && Shaped(t)
    ensures var a := Args(t);
            && 1 <= |a| <= 5 && a[0] == t.tried
            && Arg(a, 1) == NameOrUndefined(t.catchParam) && Arg(a, 2) == OrUndefined(t.catchBody)
            && Arg(a, 3) == OrUndefined(t.finallyBody) && Arg(a, 4) == NameOrUndefined(t.finallyPayload)
  {
    hide Size, SizeAll;
  }

  lemma {:induction false} TryMade(t: Term)
    requires t.Try? && Shaped(t)
    ensures MakeTry(t.tried, NameOrUndefined(t.catchParam), OrUndefined(t.catchBody), OrUndefined(t.finallyBody),
                    NameOrUndefined(t.finallyPayload)) == Some(t)
  {
  }

  lemma {:induction false} IfArgs(t: Term)
    requires t.If? && Shaped(t)
    ensures 2 <= |Args(t)| <= 3 && Given(Arg(Args(t), 2)) == t.else_
  {
    hide Size, SizeAll;
  }

  lemma {:induction false} PlainNames(t: Term)
    requires IsCall(t) && !t.Binary? && !t.Listed?
    ensures BinaryOf(Name(t)).None? && ListOf(Name(t)).None?
  {
  }

  /** The arity of each constructor. */
  lemma {:induction false} Arities(t: Term)
    requires IsCall(t) && Shaped(t)
    ensures ArityOf(Name(t)).Some? && Admits(ArityOf(Name(t)).value, |Args(t)|)
  {
    hide Shaped, When, Strings;
    if t.Try? {
      TryArgs(t);
    } else if t.Binary? || t.Listed? {
      OperatorNames(t);
    }
  }

  /** Each constructor, applied to the arguments that are written for a node, makes the node. */
  lemma {:induction false} DispatchArgs(t: Term)
    requires IsCall(t) && Shaped(t)
    ensures ArityOf(Name(t)).Some? && Admits(ArityOf(Name(t)).value, |Args(t)|)
    ensures Dispatch(Name(t), Args(t)) == Some(t)
  {
    hide ReadsTagged, MakeTry, When, Strings, Given, BinaryOf, ListOf, ArityOf, Converge, Size, SizeAll;
    Arities(t);
    if !t.Binary? && !t.Listed? {
      PlainNames(t);
    }
    match t
    case Fn(params, _) => NamesOfStrings(params);
    case Try(_, _, _, _, _) => TryArgs(t); TryMade(t);
    case Call(f, args) => assert ([f] + args)[1..] == args;
    case If(_, _, _) => IfArgs(t);
    case Binary(_, _, _) => OperatorNames(t);
    case Listed(_, _) => OperatorNames(t);
    case _ =>
  }

  lemma {:induction false} NotAWord(t: Term)
    requires IsCall(t)
    ensures Name(t) !in {"true", "false", "null", "undefined"}
  {
  }

  // ----- parsing tokens of terms -----

  /** The first token of a term opens no comma and closes nothing. */
  lemma {:induction false} FirstToken(t: Term)
    ensures Toks(t) != [] && Toks(t)[0] !in {RParen, RBracket, RBrace, Comma, Colon, LParen}
  {
    hide ToksAll, ToksEntries, Commas;
  }

  /** What follows cannot continue a list. */
  predicate Ends(rest: seq<Token>) { rest == [] || rest[0] != Comma }

  /** A parse that succeeds or is refused. */
  function Answer<T>(ok: bool, value: T, rest: seq<Token>): Parsed<T>
  {
    if ok then Done(value, rest) else Bad(Unexpected)
  }

  lemma {:induction false} ParsePrinted(t: Term, rest: seq<Token>, ctx: Context)
    requires Printable(t)
    ensures ParseExpr(Toks(t) + rest, ctx) == Answer(Buildable(t), Reread(t), rest)
    decreases Size(t), 3
  {
    hide WellFormed, ParseCall, ParseArray, ParseObject, Commas, ToksAll, ToksEntries;
    NotDerived(t);
    if t.Array? {
      ParseArrayBack(t, rest, ctx);
    } else if t.Object? {
      ParseObjectBack(t, rest, ctx);
    } else if IsCall(t) {
      NotAWord(t);
      ParseCallBack(t, rest, ctx);
    } else {
      assert (Toks(t) + rest)[1..] == rest;
    }
  }

  lemma {:induction false} ParseCallBack(t: Term, rest: seq<Token>, ctx: Context)
    requires WellFormed(t) && IsCall(t)
    ensures Toks(t) != [] && Toks(t)[0] == Ident(Name(t))
    ensures ParseCall(Toks(t) + rest, ctx) == Answer(Buildable(t), Reread(t), rest)
    decreases Size(t), 2
  {
    hide WellFormed, ParseExpr, Commas, ToksAll, ToksEntries, Dispatch, ArityOf, Args, Name, MoreArgs, Shaped,
      ReadsTagged, Reread, RereadAll, BuildableAll;
    WellFormedShaped(t);
    DispatchArgs(t);
    RereadArgs(t);
    DispatchReread(t);
    BuildableCall(t);
    var ts := Toks(t) + rest;
    var args := ArgToks(t);
    CallToks(t);
    assert ts == [Ident(Name(t)), LParen] + (args + ([RParen] + rest));
    assert ts[2..] == args + ([RParen] + rest);
    var frame := Frame(Name(t), 0, ArityOf(Name(t)).value);
    ArgsBack(t, [RParen] + rest, ctx, frame);
    assert ([RParen] + rest)[1..] == rest;
  }

  lemma {:induction false} BuildableCall(t: Term)
    requires IsCall(t)
    ensures Buildable(t) <==> BuildableAll(Args(t)) && (t.Construct? ==> !ReadsTagged(Reread(t.built)))
  {
    hide BuildableAll, Args, Reread, ReadsTagged;
  }

  /** The constructor refuses what reads as a node, and makes everything else. */
  lemma {:induction false} DispatchReread(t: Term)
    requires IsCall(t) && Shaped(t)
    ensures ArityOf(Name(t)).Some? && Admits(ArityOf(Name(t)).value, |RereadAll(Args(t))|)
    ensures Dispatch(Name(t), RereadAll(Args(t))) ==
            if t.Construct? && ReadsTagged(Reread(t.built)) then None else Some(Reread(t))
  {
    hide Dispatch, Reread, RereadAll, Shaped, ReadsTagged, ArityOf;
    RereadArgs(t);
    DispatchArgs(t);
    if t.Construct? && ReadsTagged(Reread(t.built)) {
      RereadAllFew(t.built, Null, Null);
      ConstructRefused(Reread(t.built));
    } else {
      RereadShaped(t);
      DispatchArgs(Reread(t));
    }
  }

  lemma {:induction false} ConstructRefused(o: Term)
    requires ReadsTagged(o)
    ensures ArityOf("Construct") == Some(Arity(1, Some(1))) && Dispatch("Construct", [o]) == None
  {
    hide ReadsTagged;
  }

  /** The tokens between the parentheses. */
  function ArgToks(t: Term): seq<Token>
    requires IsCall(t)
  {
    if t.Construct? then [LBrace] + Commas(ToksEntries(Own(t.built), true)) + [RBrace] else Commas(ToksAll(Args(t)))
  }

  lemma {:induction false} CallToks(t: Term)
    requires IsCall(t)
    ensures Toks(t) == [Ident(Name(t)), LParen] + ArgToks(t) + [RParen]
  {
  }

  lemma {:induction false} ArgsBack(t: Term, rest: seq<Token>, ctx: Context, frame: Frame)
    requires WellFormed(t) && IsCall(t) && rest != [] && rest[0] == RParen
    ensures ParseArgs(ArgToks(t) + rest, ctx, frame) == Answer(BuildableAll(Args(t)), RereadAll(Args(t)), rest)
    decreases Size(t), 1
  {
    hide WellFormed, ParseExpr, Commas, ToksAll, ToksEntries, Name;
    if t.Construct? {
      FieldsBack(t, rest, Enter(ctx, frame.(received := 0)));
      RereadAllFew(t.built, Null, Null);
      assert [] + [Reread(t.built)] == [Reread(t.built)];
      BuildableOne(t.built);
    } else {
      ArgsPrintable(t);
      ArgsSmaller(t);
      var args := Args(t);
      if args == [] {
        NoCommas();
        assert ArgToks(t) + rest == rest && RereadAll(args) == [];
      } else {
        CommasStart(args, rest);
        ListBack(args, rest, ctx, frame, []);
        assert [] + RereadAll(args) == RereadAll(args);
      }
    }
  }

  lemma {:induction false} BuildableOne(t: Term)
    ensures BuildableAll([t]) <==> Buildable(t)
  {
    hide Buildable;
    assert [t][1..] == [];
  }

  lemma {:induction false} NoCommas()
    ensures Commas(ToksAll([])) == [] && Commas(ToksEntries([], false)) == [] && Commas(ToksEntries([], true)) == []
  {
  }

  lemma {:induction false} CommasStart(ts: seq<Term>, rest: seq<Token>)
    requires ts != []
    ensures Commas(ToksAll(ts)) + rest != []
    ensures (Commas(ToksAll(ts)) + rest)[0] !in {RParen, RBracket, RBrace, Comma}
  {
    FirstToken(ts[0]);
    assert ToksAll(ts)[0] == Toks(ts[0]);
  }

  lemma {:induction false} CommasStep(ts: seq<Term>, rest: seq<Token>)
    requires ts != []
    ensures |ts| == 1 ==> Commas(ToksAll(ts)) + rest == Toks(ts[0]) + rest
    ensures |ts| > 1 ==>
              Commas(ToksAll(ts)) + rest == Toks(ts[0]) + ([Comma] + (Commas(ToksAll(ts[1..])) + rest))
  {
    hide Toks, Commas;
    assert ToksAll(ts)[0] == Toks(ts[0]) && ToksAll(ts)[1..] == ToksAll(ts[1..]);
    CommasCons(ToksAll(ts), rest);
  }

  lemma {:induction false} ListBack(ts: seq<Term>, rest: seq<Token>, ctx: Context, frame: Frame, got: seq<Term>)
    requires ts != [] && PrintableAll(ts) && Ends(rest)
    ensures MoreArgs(Commas(ToksAll(ts)) + rest, ctx, frame, got) == Answer(BuildableAll(ts), got + RereadAll(ts), rest)
    decreases SizeAll(ts), 4, |ts|
  {
    hide WellFormed, ParseExpr, Commas, ToksAll, Toks, Reread, Buildable;
    CommasStep(ts, rest);
    assert Printable(ts[0]);
    var inner := Enter(ctx, frame.(received := |got|));
    if |ts| == 1 {
      ParsePrinted(ts[0], rest, inner);
      RereadAllFew(ts[0], Null, Null);
      BuildableOne(ts[0]);
      assert ts == [ts[0]];
    } else {
      var more := Commas(ToksAll(ts[1..])) + rest;
      ParsePrinted(ts[0], [Comma] + more, inner);
      assert ([Comma] + more)[1..] == more;
      ListBack(ts[1..], rest, ctx, frame, got + [Reread(ts[0])]);
      assert got + [Reread(ts[0])] + RereadAll(ts[1..]) == got + RereadAll(ts);
    }
  }

  // ----- arrays -----

  lemma {:induction false} ParseArrayBack(t: Term, rest: seq<Token>, ctx: Context)
    requires WellFormed(t) && t.Array?
    ensures Toks(t) != [] && Toks(t)[0] == LBracket
    ensures ParseArray(Toks(t) + rest, ctx) == Answer(Buildable(t), Reread(t), rest)
    decreases Size(t), 2
  {
    hide WellFormed, ParseExpr, Commas, ToksAll, MoreItems;
    ItemsPrintable(t);
    var ts, after := Toks(t) + rest, [RBracket] + rest;
    var inner := ctx.(brackets := ctx.brackets + 1);
    assert ts[1..] == Commas(ToksAll(t.items)) + after;
    assert after[1..] == rest;
    if t.items == [] {
      NoCommas();
      assert ts[1..] == after && RereadAll(t.items) == [];
    } else {
      CommasStart(t.items, after);
      assert ts[1] == ts[1..][0];
      ItemsBack(t.items, after, inner, []);
      assert [] + RereadAll(t.items) == RereadAll(t.items);
    }
  }

  lemma {:induction false} ItemsBack(ts: seq<Term>, rest: seq<Token>, ctx: Context, got: seq<Term>)
    requires ts != [] && PrintableAll(ts) && Ends(rest)
    ensures MoreItems(Commas(ToksAll(ts)) + rest, ctx, got) == Answer(BuildableAll(ts), got + RereadAll(ts), rest)
    decreases SizeAll(ts), 4, |ts|
  {
    hide WellFormed, ParseExpr, Commas, ToksAll, Toks, Reread, Buildable;
    CommasStep(ts, rest);
    assert Printable(ts[0]);
    if |ts| == 1 {
      ParsePrinted(ts[0], rest, ctx);
      RereadAllFew(ts[0], Null, Null);
      BuildableOne(ts[0]);
      assert ts == [ts[0]];
    } else {
      var more := Commas(ToksAll(ts[1..])) + rest;
      ParsePrinted(ts[0], [Comma] + more, ctx);
      CommasStart(ts[1..], rest);
      assert ([Comma] + more)[1..] == more;
      ItemsBack(ts[1..], rest, ctx, got + [Reread(ts[0])]);
      assert got + [Reread(ts[0])] + RereadAll(ts[1..]) == got + RereadAll(ts);
    }
  }

  // ----- objects -----

  lemma {:induction false} EntriesStart(es: seq<Entry>, bare: bool, rest: seq<Token>)
    requires es != []
    ensures Commas(ToksEntries(es, bare)) + rest != []
    ensures (Commas(ToksEntries(es, bare)) + rest)[0] !in {RParen, RBracket, RBrace, Comma}
  {
    hide Toks;
    assert ToksEntries(es, bare)[0] == [KeyTok(es[0].key, bare), Colon] + Toks(es[0].value);
  }

  lemma {:induction false} EntriesStep(es: seq<Entry>, bare: bool, rest: seq<Token>)
    requires es != []
    ensures var e := es[0];
            var all, first := Commas(ToksEntries(es, bare)) + rest, [KeyTok(e.key, bare), Colon];
            && (|es| == 1 ==> all == first + (Toks(e.value) + rest))
            && (|es| > 1 ==>
                  all == first + (Toks(e.value) + ([Comma] + (Commas(ToksEntries(es[1..], bare)) + rest))))
  {
    hide Toks, Commas, ToksEntries;
    var first := [KeyTok(es[0].key, bare), Colon];
    EntriesCons(es, bare);
    CommasCons(ToksEntries(es, bare), rest);
    Regroup(first, Toks(es[0].value), rest);
    if |es| > 1 {
      Regroup(first, Toks(es[0].value), [Comma] + (Commas(ToksEntries(es[1..], bare)) + rest));
    }
  }

  lemma {:induction false} EntriesCons(es: seq<Entry>, bare: bool)
    requires es != []
    ensures ToksEntries(es, bare)[0] == [KeyTok(es[0].key, bare), Colon] + Toks(es[0].value)
    ensures ToksEntries(es, bare)[1..] == ToksEntries(es[1..], bare)
  {
    hide Toks;
  }

  lemma {:induction false} Regroup(a: seq<Token>, b: seq<Token>, c: seq<Token>)
    ensures a + b + c == a + (b + c)
  {
  }

  /** One entry, as it is kept. */
  function Kept(e: Entry): seq<Entry> { if e.key == Proto then [] else [Entry(e.key, Reread(e.value))] }

  /** The literal after one entry. */
  function Next(got: Literal, e: Entry): Literal
  {
    Literal(got.own + Kept(e), if e.key == Proto && CanBePrototype(e.value) then Some(Reread(e.value)) else got.above)
  }

  /** The literal after entries with distinct keys. */
  function AllEntries(got: Literal, es: seq<Entry>): Literal
  {
    Literal(got.own + RereadEntries(es), if Prototype(es).Some? then Prototype(es) else got.above)
  }

  /** No key of `es` is among those of `got`. */
  predicate Apart(got: Literal, es: seq<Entry>)
  {
    forall i :: 0 <= i < |es| ==> NewKey(got, es[i].key)
  }

  predicate NewKey(got: Literal, key: string)
  {
    !HasKey(got.own, key) && (key == Proto ==> got.above.None?)
  }

  lemma {:induction false} AddsEntry(got: Literal, e: Entry)
    requires NewKey(got, e.key)
    ensures AddEntry(got, e.key, Reread(e.value)) == Next(got, e)
  {
    hide Reread;
    RereadKind(e.value);
    assert got.own + [] == got.own;
  }

  lemma {:induction false} EntryBack(e: Entry, bare: bool, rest: seq<Token>, ctx: Context, got: Literal)
    requires NewKey(got, e.key)
    requires ParseExpr(Toks(e.value) + rest, ctx) == Answer(Buildable(e.value), Reread(e.value), rest)
    ensures ParseEntry([KeyTok(e.key, bare), Colon] + (Toks(e.value) + rest), ctx, got)
         == Answer(Buildable(e.value), Next(got, e), rest)
  {
    hide ParseExpr, Toks, AddEntry, Next, NewKey, Reread, Buildable;
    var ts := [KeyTok(e.key, bare), Colon] + (Toks(e.value) + rest);
    assert ts[1..] == [Colon] + (Toks(e.value) + rest);
    assert ts[1..][1..] == Toks(e.value) + rest;
    AddsEntry(got, e);
  }

  lemma {:induction false} ApartNext(got: Literal, es: seq<Entry>)
    requires es != [] && DistinctKeys(es) && Apart(got, es)
    ensures Apart(Next(got, es[0]), es[1..]) && DistinctKeys(es[1..]) && NewKey(got, es[0].key)
    ensures AllEntries(got, es) == AllEntries(Next(got, es[0]), es[1..])
  {
    hide Next, NewKey, HasKey, AllEntries;
    assert es == [es[0]] + es[1..];
    DistinctCons(es[0], es[1..]);
    AllNext(got, es);
    forall i | 0 <= i < |es[1..]| ensures NewKey(Next(got, es[0]), es[1..][i].key) {
      assert es[1..][i] == es[i + 1];
      StillNew(got, es[0], es[i + 1].key);
    }
  }

  lemma {:induction false} StillNew(got: Literal, e: Entry, key: string)
    requires NewKey(got, key) && key != e.key
    ensures NewKey(Next(got, e), key)
  {
    hide Reread, CanBePrototype;
  }

  lemma {:induction false} AllNext(got: Literal, es: seq<Entry>)
    requires es != [] && !HasKey(es[1..], es[0].key)
    ensures AllEntries(got, es) == AllEntries(Next(got, es[0]), es[1..])
  {
    hide Reread, CanBePrototype, HasKey;
    assert got.own + RereadEntries(es) == got.own + Kept(es[0]) + RereadEntries(es[1..]);
    if es[0].key == Proto {
      NoProtoKey(es[1..]);
    }
  }

  lemma {:induction false} EntriesBack(es: seq<Entry>, bare: bool, rest: seq<Token>, ctx: Context, got: Literal)
    requires es != [] && WellFormedEntries(es) && DistinctKeys(es) && Apart(got, es) && Ends(rest)
    ensures MoreEntries(Commas(ToksEntries(es, bare)) + rest, ctx, got)
         == Answer(BuildableEntries(es), AllEntries(got, es), rest)
    decreases SizeEntries(es), 4, |es|
  {
    hide WellFormed, ParseExpr, ParseEntry, Commas, ToksEntries, Toks, DistinctKeys, Apart, NewKey, Next, AllEntries,
      Reread, Buildable;
    var e := es[0];
    EntriesStep(es, bare, rest);
    ApartNext(got, es);
    if |es| == 1 {
      ParsePrinted(e.value, rest, ctx);
      EntryBack(e, bare, rest, ctx, got);
      NoMoreEntries(Next(got, e), es[1..]);
    } else {
      var more := Commas(ToksEntries(es[1..], bare)) + rest;
      ParsePrinted(e.value, [Comma] + more, ctx);
      EntryBack(e, bare, [Comma] + more, ctx, got);
      EntriesStart(es[1..], bare, rest);
      assert ([Comma] + more)[1..] == more;
      EntriesBack(es[1..], bare, rest, ctx, Next(got, e));
    }
  }

  lemma {:induction false} NoMoreEntries(got: Literal, es: seq<Entry>)
    requires es == []
    ensures AllEntries(got, es) == got && BuildableEntries(es)
  {
    assert got.own + [] == got.own;
  }

  lemma {:induction false} NothingGot(es: seq<Entry>)
    ensures Apart(NoEntries, es)
    ensures Made(AllEntries(NoEntries, es)) == Reread(Object(es))
  {
    assert [] + RereadEntries(es) == RereadEntries(es);
  }

  /** An object literal, with quoted or bare keys. */
  lemma {:induction false} LiteralBack(es: seq<Entry>, bare: bool, rest: seq<Token>, ctx: Context)
    requires WellFormedEntries(es) && DistinctKeys(es)
    ensures var ts := [LBrace] + Commas(ToksEntries(es, bare)) + [RBrace] + rest;
            ParseObject(ts, ctx) == Answer(BuildableEntries(es), Reread(Object(es)), rest)
    decreases SizeEntries(es), 5, 0
  {
    hide WellFormed, ParseExpr, Commas, ToksEntries, MoreEntries, DistinctKeys, Apart, AllEntries, Made, Reread,
      BuildableEntries;
    var ts, after := [LBrace] + Commas(ToksEntries(es, bare)) + [RBrace] + rest, [RBrace] + rest;
    var inner := ctx.(braces := ctx.braces + 1);
    NothingGot(es);
    assert ts[1..] == Commas(ToksEntries(es, bare)) + after;
    assert after[1..] == rest;
    if es == [] {
      NoCommas();
      NoMoreEntries(NoEntries, es);
      assert ts[1..] == after;
    } else {
      EntriesStart(es, bare, after);
      assert ts[1] == ts[1..][0];
      EntriesBack(es, bare, after, inner, NoEntries);
    }
  }

  lemma {:induction false} LiteralKeys(t: Term)
    requires WellFormed(t) && (t.Object? || t.Construct?)
    ensures DistinctKeys(if t.Object? then t.entries else Own(t.built))
  {
  }

  lemma {:induction false} ParseObjectBack(t: Term, rest: seq<Token>, ctx: Context)
    requires WellFormed(t) && t.Object?
    ensures Toks(t) != [] && Toks(t)[0] == LBrace
    ensures ParseObject(Toks(t) + rest, ctx) == Answer(Buildable(t), Reread(t), rest)
    decreases Size(t), 2
  {
    hide WellFormed, ParseObject, Commas, ToksEntries;
    EntriesPrintable(t);
    LiteralKeys(t);
    LiteralBack(t.entries, false, rest, ctx);
  }

  /** The single argument of `Construct`. */
  lemma {:induction false} FieldsBack(t: Term, rest: seq<Token>, ctx: Context)
    requires WellFormed(t) && t.Construct? && Ends(rest)
    ensures ArgToks(t) != [] && ArgToks(t)[0] == LBrace
    ensures ParseExpr(ArgToks(t) + rest, ctx) == Answer(Buildable(t.built), Reread(t.built), rest)
    decreases Size(t), 0
  {
    hide WellFormed, ParseObject, Commas, ToksEntries, BuildableEntries, Reread;
    EntriesPrintable(t);
    LiteralKeys(t);
    LiteralBack(t.built.entries, true, rest, ctx);
    assert ArgToks(t) + rest == [LBrace] + Commas(ToksEntries(Own(t.built), true)) + [RBrace] + rest;
  }

  // ----- the whole -----

  /** Parsing the printed form, for every indentation, width and compactness: it is refused
      where a `Construct` would get an object that reads as a node, and otherwise gives the
      term in which the entries that name the prototype have set it or are gone. */
  lemma {:induction false} PrintParse(t: Term, o: Options)
    requires WellFormed(t)
    ensures ParseDSL(Print(t, 0, o)) == if Buildable(t) then Accepted(Reread(t)) else Rejected(Unexpected)
  {
    hide WellFormed, ParseExpr, Print, Toks, Lex, Reread, Buildable;
    PrintLexes(t, o);
    ParsePrinted(t, [], Start);
    assert Toks(t) + [] == Toks(t);
  }

  /** So parsing inverts printing exactly on the terms without such entries. */
  lemma {:induction false} RoundTrip(t: Term, o: Options)
    requires WellFormed(t)
    ensures ParseDSL(Print(t, 0, o)) == Accepted(t) <==> ProtoFree(t)
  {
    hide WellFormed, ParseDSL, Print, Reread, ProtoFree, Buildable;
    PrintParse(t, o);
    RereadSame(t);
    if ProtoFree(t) {
      FreeBuildable(t);
    }
  }

  /** Without such entries nothing is refused. */
  lemma {:induction false} FreeBuildable(t: Term)
    requires Printable(t) && ProtoFree(t)
    ensures Buildable(t)
    decreases Size(t), 2
  {
    hide WellFormed, BuildableAll, BuildableEntries, ProtoFreeAll, ProtoFreeEntries, SizeAll, SizeEntries, Args, Reread,
      ReadsTagged;
    if t.Array? {
      ItemsPrintable(t);
      AllBuildable(t.items);
    } else if t.Object? {
      EntriesPrintable(t);
      EntriesBuildable(t.entries);
    } else if IsCall(t) {
      ArgsSmaller(t);
      if t.Construct? {
        ConstructBuildable(t);
      } else {
        ArgsPrintable(t);
        AllBuildable(Args(t));
      }
    }
  }

  lemma {:induction false} ConstructBuildable(t: Term)
    requires WellFormed(t) && t.Construct? && ProtoFree(t)
    ensures Buildable(t)
    decreases Size(t), 1
  {
    hide WellFormed, Tagged, Reread, BuildableEntries, ProtoFreeEntries;
    BuiltWellFormed(t);
    assert Args(t)[1..] == [];
    FreeBuildable(t.built);
    RereadSame(t.built);
    BuildableOne(t.built);
  }

  /** What a `Construct` is built from is an object literal like any other. */
  lemma {:induction false} BuiltWellFormed(t: Term)
    requires WellFormed(t) && t.Construct?
    ensures WellFormed(t.built) && t.built.Object? && !Tagged(t.built.entries) && Size(t.built) < Size(t)
  {
  }

  lemma {:induction false} AllBuildable(ts: seq<Term>)
    requires PrintableAll(ts) && ProtoFreeAll(ts)
    ensures BuildableAll(ts)
    decreases SizeAll(ts), 3, |ts|
  {
    hide WellFormed, Buildable, ProtoFree;
    if ts != [] {
      assert Printable(ts[0]);
      FreeBuildable(ts[0]);
      AllBuildable(ts[1..]);
    }
  }

  lemma {:induction false} EntriesBuildable(es: seq<Entry>)
    requires WellFormedEntries(es) && ProtoFreeEntries(es)
    ensures BuildableEntries(es)
    decreases SizeEntries(es), 3, |es|
  {
    hide WellFormed, Buildable, ProtoFree;
    if es != [] {
      FreeBuildable(es[0].value);
      EntriesBuildable(es[1..]);
    }
  }

  lemma {:induction false} RereadSame(t: Term)
    requires Printable(t)
    ensures Reread(t) == t <==> ProtoFree(t)
    decreases Size(t), 2
  {
    hide WellFormed, RereadAll, RereadEntries, ProtoFreeAll, ProtoFreeEntries, SizeAll, SizeEntries, Prototype;
    if t.Array? {
      ItemsPrintable(t);
      RereadAllSame(t.items);
    } else if t.Object? {
      EntriesPrintable(t);
      RereadEntriesSame(t.entries);
    } else if IsCall(t) {
      RereadCallSame(t);
    }
  }

  lemma {:induction false} RereadCallSame(t: Term)
    requires WellFormed(t) && IsCall(t)
    ensures Reread(t) == t <==> ProtoFree(t)
    decreases Size(t), 1
  {
    hide WellFormed, RereadAll, RereadEntries, ProtoFreeAll, ProtoFreeEntries, SizeAll, SizeEntries, Args, Name, Reread,
      Dispatch, Shaped, ReadsTagged;
    ArgsSmaller(t);
    RereadArgs(t);
    WellFormedShaped(t);
    DispatchArgs(t);
    if t.Construct? {
      ConstructSame(t);
    } else {
      DispatchReread(t);
      ArgsPrintable(t);
      RereadAllSame(Args(t));
    }
  }

  lemma {:induction false} ConstructSame(t: Term)
    requires WellFormed(t) && t.Construct?
    ensures Reread(t) == t <==> ProtoFree(t)
    decreases Size(t), 0
  {
    hide WellFormed, ReadsTagged;
    BuiltWellFormed(t);
    RereadSame(t.built);
    assert Args(t) == [t.built];
    ProtoFreeOne(t.built);
  }

  lemma {:induction false} ProtoFreeOne(t: Term)
    ensures ProtoFreeAll([t]) <==> ProtoFree(t)
  {
    hide ProtoFree;
    assert [t][1..] == [];
  }

  lemma {:induction false} RereadAllSame(ts: seq<Term>)
    requires PrintableAll(ts)
    ensures RereadAll(ts) == ts <==> ProtoFreeAll(ts)
    decreases SizeAll(ts), 3, |ts|
  {
    hide WellFormed, Reread, ProtoFree;
    if ts != [] {
      assert Printable(ts[0]);
      RereadSame(ts[0]);
      RereadAllSame(ts[1..]);
      assert ts == [ts[0]] + ts[1..];
      assert RereadAll(ts)[0] == Reread(ts[0]) && RereadAll(ts)[1..] == RereadAll(ts[1..]);
    }
  }

  lemma {:induction false} RereadShorter(es: seq<Entry>)
    ensures |RereadEntries(es)| <= |es|
  {
    hide Reread;
    if es != [] {
      RereadShorter(es[1..]);
    }
  }

  lemma {:induction false} RereadEntriesSame(es: seq<Entry>)
    requires WellFormedEntries(es)
    ensures RereadEntries(es) == es <==> ProtoFreeEntries(es)
    ensures ProtoFreeEntries(es) ==> Prototype(es).None?
    decreases SizeEntries(es), 3, |es|
  {
    hide WellFormed, Reread, ProtoFree;
    if es != [] {
      RereadSame(es[0].value);
      RereadEntriesSame(es[1..]);
      RereadShorter(es[1..]);
      assert es == [es[0]] + es[1..];
      var tail := RereadEntries(es[1..]);
      if es[0].key == Proto {
        assert [] + tail == tail;
      } else {
        var all := [Entry(es[0].key, Reread(es[0].value))] + tail;
        assert all[0] == Entry(es[0].key, Reread(es[0].value)) && all[1..] == tail;
      }
    }
  }

  /** A literal whose only key names the prototype comes back without entries: an object or
      null has become the prototype, anything else is lost. A `Construct` of that literal is
      refused when the prototype reads as a node. */
  lemma {:induction false} ProtoEntryLost(v: Term, o: Options)
    requires WellFormed(v) && Buildable(v)
    ensures var t := Object([Entry("__proto__", v)]);
            var r := if CanBePrototype(v) then Derived([], Reread(v)) else Object([]);
            && WellFormed(t) && ParseDSL(Print(t, 0, o)) == Accepted(r) && r != t
            && WellFormed(Construct(t))
            && ParseDSL(Print(Construct(t), 0, o)) ==
               if CanBePrototype(v) && ReadsTagged(Reread(v)) then Rejected(Unexpected) else Accepted(Construct(r))
  {
    hide Print, ParseDSL, WellFormed, Reread, Buildable, ReadsTagged, CanBePrototype;
    var t := Object([Entry("__proto__", v)]);
    ProtoAlone(v);
    PrintParse(t, o);
    PrintParse(Construct(t), o);
  }

  lemma {:induction false} ProtoAlone(v: Term)
    requires WellFormed(v) && Buildable(v)
    ensures var t := Object([Entry("__proto__", v)]);
            var r := if CanBePrototype(v) then Derived([], Reread(v)) else Object([]);
            && WellFormed(t) && WellFormed(Construct(t)) && Reread(t) == r && Buildable(t)
            && Reread(Construct(t)) == Construct(r)
            && (Buildable(Construct(t)) <==> !(CanBePrototype(v) && ReadsTagged(Reread(v))))
  {
    hide WellFormed, Buildable, Reread, ReadsTagged, CanBePrototype;
    ProtoLiteral(v);
    var t := Object([Entry("__proto__", v)]);
    var r := if CanBePrototype(v) then Derived([], Reread(v)) else Object([]);
    BuildableOne(t);
    BuildableCall(Construct(t));
    assert Args(Construct(t)) == [t];
    BareReads(Reread(v));
    assert Reread(Construct(t)) == Construct(Reread(t)) by { ConstructReread(t); }
  }

  lemma {:induction false} ConstructReread(t: Term)
    ensures Reread(Construct(t)) == Construct(Reread(t))
  {
  }

  /** An object without entries reads as its prototype does. */
  lemma {:induction false} BareReads(above: Term)
    ensures ReadsTagged(Derived([], above)) <==> ReadsTagged(above)
    ensures !ReadsTagged(Object([]))
  {
    assert !HasKey([], "tisyn") && !Tagged([]);
  }

  lemma {:induction false} ProtoLiteral(v: Term)
    requires WellFormed(v) && Buildable(v)
    ensures var t := Object([Entry("__proto__", v)]);
            && WellFormed(t) && WellFormed(Construct(t)) && Buildable(t)
            && Reread(t) == if CanBePrototype(v) then Derived([], Reread(v)) else Object([])
  {
    hide CanBePrototype;
    var es := [Entry("__proto__", v)];
    assert es[1..] == [];
    assert IsIdent("__proto__") && BareKeys(es) && DistinctKeys(es) && !Tagged(es);
    hide Tagged, BareKeys, DistinctKeys, IsIdent, Size;
    assert WellFormedEntries(es) && BuildableEntries(es);
    assert RereadEntries(es) == [] + RereadEntries(es[1..]) == [];
    assert Prototype(es) == if CanBePrototype(v) then Some(Reread(v)) else None;
  }

  /** Without such entries, terms that print alike, under whatever options, are equal. */
  lemma {:induction false} PrintInjective(t: Term, o: Options, t': Term, o': Options)
    requires WellFormed(t) && WellFormed(t') && ProtoFree(t) && ProtoFree(t')
    requires Print(t, 0, o) == Print(t', 0, o')
    ensures t == t'
  {
    hide WellFormed, Print, ParseDSL, ProtoFree;
    RoundTrip(t, o);
    RoundTrip(t', o');
  }

  /** The text of a call of `name`, laid out as the printer lays out calls. */
  function PrintCall(name: string, args: seq<Term>, o: Options): string
  {
    Wrapped(name + "(", "", PrintAll(args, 1, o), ")", 0, o)
  }

  /** A call of any name that the table of constructors inherits, with any arguments that can
      be printed and parsed, is no syntax error: it raises an exception that even the variant
      for untrusted input passes on. */
  lemma {:induction false} InheritedNameCrashes(name: string, args: seq<Term>, o: Options)
    requires Inherited(name) && PrintableAll(args)
    ensures ParseDSL(PrintCall(name, args, o)) == Rejected(if BuildableAll(args) then Crash else Unexpected)
  {
    hide Lex, Dispatch, RecoveryAt, ParseArgs, Commas, ToksAll, PrintCall, BuildableAll, Inherited;
    var ts := [Ident(name), LParen] + Commas(ToksAll(args)) + [RParen];
    InheritedIdent(name);
    InheritedNames(name);
    CallLexes(name, args, o);
    assert ts[2..] == Commas(ToksAll(args)) + [RParen];
    var frame := Frame(name, 0, Arity(0, None));
    ListedBack(args, [RParen], Start, frame);
    assert [RParen][1..] == [];
    assert ParseCall(ts, Start) == Bad(if BuildableAll(args) then Crash else Unexpected);
  }

  lemma {:induction false} CallLexes(name: string, args: seq<Term>, o: Options)
    requires IsIdent(name) && PrintableAll(args)
    ensures Lex(PrintCall(name, args, o)) == Some([Ident(name), LParen] + Commas(ToksAll(args)) + [RParen])
  {
    hide Lex, Reads, Closed, ReadsAll, Wrapped, PrintAll, ToksAll, Commas, Blank, Breaks;
    AllRead(args, 1, o);
    OpenCall(name);
    CloseParen();
    BlankSpaces(0);
    var toks := [Ident(name), LParen] + Commas(ToksAll(args)) + [RParen];
    WrappedReads(name + "(", [Ident(name), LParen], "", PrintAll(args, 1, o), ToksAll(args), ")", [RParen], 0, o);
    LexNothing();
    ReadsAt(PrintCall(name, args, o), toks, "");
    assert PrintCall(name, args, o) + "" == PrintCall(name, args, o) && toks + [] == toks;
  }

  /** A list of arguments, which may be empty. */
  lemma {:induction false} ListedBack(args: seq<Term>, rest: seq<Token>, ctx: Context, frame: Frame)
    requires PrintableAll(args) && rest != [] && rest[0] == RParen
    ensures ParseArgs(Commas(ToksAll(args)) + rest, ctx, frame) == Answer(BuildableAll(args), RereadAll(args), rest)
  {
    hide MoreArgs, Commas, ToksAll, RereadAll, BuildableAll;
    if args == [] {
      NoCommas();
      assert Commas(ToksAll(args)) + rest == rest;
      NothingBuilt();
    } else {
      CommasStart(args, rest);
      ListBack(args, rest, ctx, frame, []);
      assert [] + RereadAll(args) == RereadAll(args);
    }
  }

  lemma {:induction false} NothingBuilt()
    ensures BuildableAll([]) && RereadAll([]) == []
  {
  }

  lemma {:induction false} InheritedIdent(name: string)
    requires Inherited(name)
    ensures IsIdent(name)
  {
    if name[0] == '_' {
      AccessorIdent(name);
    } else if name in {"constructor", "toString", "valueOf"} {
      ConversionIdent(name);
    } else {
      QueryIdent(name);
    }
  }

  lemma {:induction false} ConversionIdent(name: string)
    requires name in {"constructor", "toString", "valueOf"}
    ensures IsIdent(name)
  {
  }

  lemma {:induction false} QueryIdent(name: string)
    requires name in {"toLocaleString", "hasOwnProperty", "isPrototypeOf", "propertyIsEnumerable"}
    ensures IsIdent(name)
  {
  }

  lemma {:induction false} AccessorIdent(name: string)
    requires name in {"__proto__", "__defineGetter__", "__defineSetter__", "__lookupGetter__", "__lookupSetter__"}
    ensures IsIdent(name)
  {
  }
}
