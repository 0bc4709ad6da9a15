/** The grammar of the constructor DSL, as trees: what a tree is written as and what it stands
    for. The parser accepts exactly what the grammar derives, and gives what it stands for. */
module Grammar {
  import opened Text
  import opened Lexer
  import opened Term
  import opened Parser

  // ----- trees -----

  datatype Tree =
    | Leaf(tok: Token)
    | Constructor(name: string, args: seq<Tree>)
    | Brackets(items: seq<Tree>, trailing: bool)          // with or without a comma at the end
    | Braces(entries: seq<Pair>, trailing: bool)

  datatype Pair = Pair(key: Token, value: Tree)

  /** How a tree is written. */
  function Written(t: Tree): seq<Token>
  {
    match t
    case Leaf(tok) => [tok]
    case Constructor(name, args) => [Ident(name), LParen] + WrittenAll(args) + [RParen]
    case Brackets(items, trailing) => [LBracket] + WrittenAll(items) + CommaIf(trailing) + [RBracket]
    case Braces(entries, trailing) => [LBrace] + WrittenPairs(entries) + CommaIf(trailing) + [RBrace]
  }

  function CommaIf(b: bool): seq<Token> { if b then [Comma] else [] }

  function WrittenAll(ts: seq<Tree>): seq<Token>
  {
    if ts == [] then []
    else if |ts| == 1 then Written(ts[0])
    else Written(ts[0]) + [Comma] + WrittenAll(ts[1..])
  }

  function WrittenPairs(ps: seq<Pair>): seq<Token>
  {
    if ps == [] then []
    else if |ps| == 1 then WrittenPair(ps[0])
    else WrittenPair(ps[0]) + [Comma] + WrittenPairs(ps[1..])
  }

  function WrittenPair(p: Pair): seq<Token> { [p.key, Colon] + Written(p.value) }

  /** What a tree stands for; None where it is no program. */
  function Meaning(t: Tree): Option<Term>
  {
    match t
    case Leaf(StringTok(s)) => Some(Str(s))
    case Leaf(NumberTok(text)) => Some(Num(text))
    case Leaf(Ident(name)) => WordMeaning(name)
    case Leaf(_) => None
    case Constructor(name, args) =>
      if WordMeaning(name).Some? || ArityOf(name).None? then None
      else
        (match MeaningAll(args)
         case None => None
         case Some(vs) => if Admits(ArityOf(name).value, |vs|) then Dispatch(name, vs) else None)
    case Brackets(items, trailing) =>
      if trailing && items == [] then None
      else
        (match MeaningAll(items)
         case None => None
         case Some(vs) => Some(Array(vs)))
    case Braces(entries, trailing) =>
      if trailing && entries == [] then None
      else
        (match MeaningPairs(entries, NoEntries)
         case None => None
         case Some(l) => Some(Made(l)))
  }

  function WordMeaning(name: string): Option<Term>
  {
    if name == "true" then Some(Bool(true))
    else if name == "false" then Some(Bool(false))
    else if name == "null" then Some(Null)
    else if name == "undefined" then Some(Undefined)
    else None
  }

  function MeaningAll(ts: seq<Tree>): (r: Option<seq<Term>>)
    ensures r.Some? ==> |r.value| == |ts|
  {
    if ts == [] then Some([])
    else
      match (Meaning(ts[0]), MeaningAll(ts[1..]))
      case (Some(v), Some(vs)) => Some([v] + vs)
      case _ => None
  }

  /** Entries are assigned in order. */
  function MeaningPairs(ps: seq<Pair>, got: Literal): Option<Literal>
  {
    if ps == [] then Some(got)
    else
      match MeaningPair(ps[0], got)
      case None => None
      case Some(got') => MeaningPairs(ps[1..], got')
  }

  function MeaningPair(p: Pair, got: Literal): Option<Literal>
  {
    if !(p.key.Ident? || p.key.StringTok?) then None
    else
      match Meaning(p.value)
      case None => None
      case Some(v) => Some(AddEntry(got, KeyOf(p.key), v))
  }

  function KeyOf(key: Token): string
    requires key.Ident? || key.StringTok?
  {
    if key.Ident? then key.name else key.s
  }

  // ----- what the grammar derives is accepted -----

  lemma {:induction false} ReadsTree(t: Tree, rest: seq<Token>, ctx: Context)
    requires Meaning(t).Some?
    ensures ParseExpr(Written(t) + rest, ctx) == Done(Meaning(t).value, rest)
    decreases t, 1
  {
    hide ParseCall, ParseArray, ParseObject;
    var ts := Written(t) + rest;
    assert ts[0] == Written(t)[0];
    match t
    case Leaf(_) => assert ts[1..] == rest;
    case Constructor(_, _) => ReadsConstructor(t, rest, ctx);
    case Brackets(_, _) => ReadsBrackets(t, rest, ctx);
    case Braces(_, _) => ReadsBraces(t, rest, ctx);
  }

  /** A tree begins with a token that ends no list. */
  lemma {:induction false} Begins(t: Tree, rest: seq<Token>)
    requires Meaning(t).Some?
    ensures var ts := Written(t) + rest; ts != [] && ts[0] !in {RParen, RBracket, RBrace, Comma}
  {
  }

  lemma {:induction false} ReadsConstructor(t: Tree, rest: seq<Token>, ctx: Context)
    requires t.Constructor? && Meaning(t).Some?
    ensures ParseCall(Written(t) + rest, ctx) == Done(Meaning(t).value, rest)
    decreases t, 0
  {
    hide ParseArgs, Dispatch, Admits, ArityOf, Enter, RecoveryAt;
    var ts := Written(t) + rest;
    var after := [RParen] + rest;
    assert ts == [Ident(t.name), LParen] + (WrittenAll(t.args) + after);
    assert ts[2..] == WrittenAll(t.args) + after;
    var frame := Frame(t.name, 0, ArityOf(t.name).value);
    ReadsArgs(t.args, after, ctx, frame);
    assert after[1..] == rest;
  }

  lemma {:induction false} ReadsArgs(args: seq<Tree>, after: seq<Token>, ctx: Context, frame: Frame)
    requires MeaningAll(args).Some? && after != [] && after[0] == RParen
    ensures ParseArgs(WrittenAll(args) + after, ctx, frame) == Done(MeaningAll(args).value, after)
    decreases args, 1
  {
    hide MoreArgs;
    if args == [] {
      assert WrittenAll(args) + after == after;
    } else {
      AllBegin(args, after);
      ReadsMoreArgs(args, after, ctx, frame, []);
      assert [] + MeaningAll(args).value == MeaningAll(args).value;
    }
  }

  lemma {:induction false} AllBegin(ts: seq<Tree>, after: seq<Token>)
    requires ts != [] && MeaningAll(ts).Some?
    ensures var all := WrittenAll(ts) + after; all != [] && all[0] !in {RParen, RBracket, RBrace, Comma}
  {
    Begins(ts[0], []);
    assert Written(ts[0]) + [] == Written(ts[0]);
  }

  /** The first tree of a list, and what follows it. */
  lemma {:induction false} FirstOfAll(ts: seq<Tree>, after: seq<Token>)
    requires ts != []
    ensures WrittenAll(ts) + after ==
            Written(ts[0]) + (if |ts| == 1 then after else [Comma] + (WrittenAll(ts[1..]) + after))
  {
  }

  /** Behind an argument there are more, or there is the end of the list. */
  lemma {:induction false} ArgThen(ts: seq<Token>, ctx: Context, frame: Frame, got: seq<Term>)
    requires ParseExpr(ts, Enter(ctx, frame.(received := |got|))).Done?
    ensures var r := ParseExpr(ts, Enter(ctx, frame.(received := |got|)));
            MoreArgs(ts, ctx, frame, got) ==
            if r.rest != [] && r.rest[0] == Comma then MoreArgs(r.rest[1..], ctx, frame, got + [r.value])
            else Done(got + [r.value], r.rest)
  {
    hide ParseExpr;
  }

  lemma {:induction false} ReadsMoreArgs(args: seq<Tree>, after: seq<Token>, ctx: Context, frame: Frame, got: seq<Term>)
    requires args != [] && MeaningAll(args).Some? && (after == [] || after[0] != Comma)
    ensures MoreArgs(WrittenAll(args) + after, ctx, frame, got) == Done(got + MeaningAll(args).value, after)
    decreases args, 0
  {
    hide ParseExpr, WrittenAll, Meaning, MeaningAll, Enter, MoreArgs, Written;
    FirstMeaning(args);
    var v := Meaning(args[0]).value;
    var next := if |args| == 1 then after else [Comma] + (WrittenAll(args[1..]) + after);
    FirstOfAll(args, after);
    ReadsTree(args[0], next, Enter(ctx, frame.(received := |got|)));
    ArgThen(Written(args[0]) + next, ctx, frame, got);
    if |args| > 1 {
      assert next[1..] == WrittenAll(args[1..]) + after;
      ReadsMoreArgs(args[1..], after, ctx, frame, got + [v]);
      Grouping(got, [v], MeaningAll(args[1..]).value);
    }
  }

  lemma {:induction false} ReadsBrackets(t: Tree, rest: seq<Token>, ctx: Context)
    requires t.Brackets? && Meaning(t).Some?
    ensures ParseArray(Written(t) + rest, ctx) == Done(Meaning(t).value, rest)
    decreases t, 0
  {
    hide MoreItems, RecoveryAt, Written, MeaningAll, WrittenAll, CommaIf;
    var ts, after := Written(t) + rest, [RBracket] + rest;
    assert after[1..] == rest;
    if t.items == [] {
      EmptyLists();
      assert ts[0] == LBracket && ts[1..] == after;
    } else {
      var end := CommaIf(t.trailing) + after;
      BracketsOf(t.items, t.trailing, rest);
      assert ts[1..] == WrittenAll(t.items) + CommaIf(t.trailing) + after;
      assert ts[1..] == WrittenAll(t.items) + end;
      AllBegin(t.items, end);
      assert ts[1] == ts[1..][0];
      ReadsItems(t.items, t.trailing, after, ctx.(brackets := ctx.brackets + 1), []);
      assert [] + MeaningAll(t.items).value == MeaningAll(t.items).value;
    }
  }

  lemma {:induction false} ReadsItems(items: seq<Tree>, trailing: bool, after: seq<Token>, ctx: Context, got: seq<Term>)
    requires items != [] && MeaningAll(items).Some? && after != [] && after[0] == RBracket
    ensures MoreItems(WrittenAll(items) + CommaIf(trailing) + after, ctx, got) ==
            Done(got + MeaningAll(items).value, after)
    decreases items, 0
  {
    hide ParseExpr, WrittenAll, Meaning, MeaningAll, CommaIf, MoreItems, Written;
    FirstMeaning(items);
    var v := Meaning(items[0]).value;
    var end := CommaIf(trailing) + after;
    var next := if |items| == 1 then end else [Comma] + (WrittenAll(items[1..]) + end);
    Regroup(WrittenAll(items), CommaIf(trailing), after);
    FirstOfAll(items, end);
    ReadsTree(items[0], next, ctx);
    ItemThen(Written(items[0]) + next, next, trailing, after, v, ctx, got);
    if |items| > 1 {
      Regroup(WrittenAll(items[1..]), CommaIf(trailing), after);
      AllBegin(items[1..], end);
      assert next[1..] == WrittenAll(items[1..]) + end && next[1] == next[1..][0];
      ReadsItems(items[1..], trailing, after, ctx, got + [v]);
      Grouping(got, [v], MeaningAll(items[1..]).value);
    }
  }

  lemma {:induction false} Regroup(a: seq<Token>, b: seq<Token>, c: seq<Token>)
    ensures a + b + c == a + (b + c)
  {
  }

  lemma {:induction false} FirstMeaning(ts: seq<Tree>)
    requires ts != [] && MeaningAll(ts).Some?
    ensures Meaning(ts[0]).Some? && MeaningAll(ts[1..]).Some?
    ensures MeaningAll(ts).value == [Meaning(ts[0]).value] + MeaningAll(ts[1..]).value
    ensures |ts| == 1 ==> MeaningAll(ts).value == [Meaning(ts[0]).value]
  {
    hide Meaning;
    if |ts| == 1 {
      assert ts[1..] == [] && [Meaning(ts[0]).value] + [] == [Meaning(ts[0]).value];
    }
  }

  /** Behind an item there are more, or the end of the list, with or without a comma. */
  lemma {:induction false} ItemThen(ts: seq<Token>, next: seq<Token>, trailing: bool, after: seq<Token>, v: Term,
                                    ctx: Context, got: seq<Term>)
    requires ParseExpr(ts, ctx) == Done(v, next) && after != [] && after[0] == RBracket
    ensures next == CommaIf(trailing) + after ==> MoreItems(ts, ctx, got) == Done(got + [v], after)
    ensures |next| > 1 && next[0] == Comma && next[1] != RBracket ==>
              MoreItems(ts, ctx, got) == MoreItems(next[1..], ctx, got + [v])
  {
    hide ParseExpr;
    if next == CommaIf(trailing) + after && trailing {
      assert next[1..] == after && next[1] == RBracket;
    }
  }

  lemma {:induction false} ReadsBraces(t: Tree, rest: seq<Token>, ctx: Context)
    requires t.Braces? && Meaning(t).Some?
    ensures ParseObject(Written(t) + rest, ctx) == Done(Meaning(t).value, rest)
    decreases t, 0
  {
    hide MoreEntries, RecoveryAt, Written, MeaningPairs, WrittenPairs, CommaIf;
    var ts, after := Written(t) + rest, [RBrace] + rest;
    assert after[1..] == rest;
    if t.entries == [] {
      EmptyLists();
      assert ts[0] == LBrace && ts[1..] == after;
    } else {
      var end := CommaIf(t.trailing) + after;
      BracesOf(t.entries, t.trailing, rest);
      assert ts[1..] == WrittenPairs(t.entries) + CommaIf(t.trailing) + after;
      assert ts[1..] == WrittenPairs(t.entries) + end;
      PairsBegin(t.entries, end, NoEntries);
      assert ts[1] == ts[1..][0];
      ReadsPairs(t.entries, t.trailing, after, ctx.(braces := ctx.braces + 1), NoEntries);
    }
  }

  lemma {:induction false} FirstOfPairs(ps: seq<Pair>, after: seq<Token>)
    requires ps != []
    ensures WrittenPairs(ps) + after ==
            WrittenPair(ps[0]) + (if |ps| == 1 then after else [Comma] + (WrittenPairs(ps[1..]) + after))
  {
  }

  lemma {:induction false} ReadsPair(p: Pair, next: seq<Token>, ctx: Context, got: Literal)
    requires MeaningPair(p, got).Some?
    ensures ParseEntry(WrittenPair(p) + next, ctx, got) == Done(MeaningPair(p, got).value, next)
    decreases p, 0
  {
    hide ParseExpr, AddEntry;
    var ts := WrittenPair(p) + next;
    assert ts[0] == p.key && ts[1..][0] == Colon && ts[1..][1..] == Written(p.value) + next;
    ReadsTree(p.value, next, ctx);
  }

  lemma {:induction false} ReadsPairs(ps: seq<Pair>, trailing: bool, after: seq<Token>, ctx: Context, got: Literal)
    requires ps != [] && MeaningPairs(ps, got).Some? && after != [] && after[0] == RBrace
    ensures MoreEntries(WrittenPairs(ps) + CommaIf(trailing) + after, ctx, got) ==
            Done(MeaningPairs(ps, got).value, after)
    decreases ps, 0
  {
    hide ParseEntry, MeaningPair, CommaIf, MoreEntries, WrittenPairs;
    var got' := MeaningPair(ps[0], got).value;
    var end := CommaIf(trailing) + after;
    var next := if |ps| == 1 then end else [Comma] + (WrittenPairs(ps[1..]) + end);
    assert WrittenPairs(ps) + CommaIf(trailing) + after == WrittenPairs(ps) + end;
    FirstOfPairs(ps, end);
    ReadsPair(ps[0], next, ctx, got);
    PairThen(WrittenPair(ps[0]) + next, next, trailing, after, got', ctx, got);
    if |ps| > 1 {
      assert next[1..] == WrittenPairs(ps[1..]) + end == WrittenPairs(ps[1..]) + CommaIf(trailing) + after;
      PairsBegin(ps[1..], end, got');
      assert next[1] == next[1..][0];
      ReadsPairs(ps[1..], trailing, after, ctx, got');
    } else {
      assert ps[1..] == [] && MeaningPairs([], got') == Some(got');
    }
  }

  lemma {:induction false} PairsBegin(ps: seq<Pair>, after: seq<Token>, got: Literal)
    requires ps != [] && MeaningPairs(ps, got).Some?
    ensures var all := WrittenPairs(ps) + after; all != [] && (all[0].Ident? || all[0].StringTok?)
  {
    hide AddEntry;
  }

  lemma {:induction false} PairThen(ts: seq<Token>, next: seq<Token>, trailing: bool, after: seq<Token>, got': Literal,
                                    ctx: Context, got: Literal)
    requires ParseEntry(ts, ctx, got) == Done(got', next) && after != [] && after[0] == RBrace
    ensures next == CommaIf(trailing) + after ==> MoreEntries(ts, ctx, got) == Done(got', after)
    ensures |next| > 1 && next[0] == Comma && next[1] != RBrace ==>
              MoreEntries(ts, ctx, got) == MoreEntries(next[1..], ctx, got')
  {
    hide ParseEntry;
    if next == CommaIf(trailing) + after && trailing {
      assert next[1..] == after && next[1] == RBrace;
    }
  }

  // ----- what is accepted the grammar derives -----

  lemma {:induction false} TreeRead(ts: seq<Token>, ctx: Context) returns (t: Tree)
    requires ParseExpr(ts, ctx).Done?
    ensures Meaning(t) == Some(ParseExpr(ts, ctx).value) && ts == Written(t) + ParseExpr(ts, ctx).rest
    decreases |ts|, 2
  {
    hide ParseCall, ParseArray, ParseObject;
    if ts[0].Ident? && WordMeaning(ts[0].name).None? {
      t := ConstructorRead(ts, ctx);
    } else if ts[0] == LBracket {
      t := BracketsRead(ts, ctx);
    } else if ts[0] == LBrace {
      t := BracesRead(ts, ctx);
    } else {
      t := Leaf(ts[0]);
      assert ts == [ts[0]] + ts[1..];
    }
  }

  lemma {:induction false} ConstructorRead(ts: seq<Token>, ctx: Context) returns (t: Tree)
    requires ts != [] && ts[0].Ident? && WordMeaning(ts[0].name).None? && ParseCall(ts, ctx).Done?
    ensures Meaning(t) == Some(ParseCall(ts, ctx).value) && ts == Written(t) + ParseCall(ts, ctx).rest
    decreases |ts|, 1
  {
    hide ParseArgs, Dispatch, Admits, ArityOf, Enter, RecoveryAt;
    var name := ts[0].name;
    var frame := Frame(name, 0, EntryOf(name).value);
    var args := ArgsRead(ts[2..], ctx, frame);
    t := Constructor(name, args);
    var rest := ParseArgs(ts[2..], ctx, frame).rest;
    assert ts == [Ident(name), LParen] + ts[2..] && rest == [RParen] + rest[1..];
  }

  lemma {:induction false} ArgsRead(ts: seq<Token>, ctx: Context, frame: Frame) returns (args: seq<Tree>)
    requires ParseArgs(ts, ctx, frame).Done?
    ensures MeaningAll(args) == Some(ParseArgs(ts, ctx, frame).value)
    ensures ts == WrittenAll(args) + ParseArgs(ts, ctx, frame).rest
    decreases |ts|, 4
  {
    hide MoreArgs;
    if ts != [] && ts[0] == RParen {
      args := [];
    } else {
      args := MoreArgsRead(ts, ctx, frame, []);
      assert [] + MeaningAll(args).value == MeaningAll(args).value;
    }
  }

  lemma {:induction false} MoreArgsRead(ts: seq<Token>, ctx: Context, frame: Frame, got: seq<Term>)
    returns (args: seq<Tree>)
    requires MoreArgs(ts, ctx, frame, got).Done?
    ensures args != [] && MeaningAll(args).Some? && got + MeaningAll(args).value == MoreArgs(ts, ctx, frame, got).value
    ensures ts == WrittenAll(args) + MoreArgs(ts, ctx, frame, got).rest
    decreases |ts|, 3
  {
    var inner := Enter(ctx, frame.(received := |got|));
    assert ParseExpr(ts, inner).Done?;
    hide ParseExpr, MoreArgs, Enter, WrittenAll, MeaningAll, Meaning, Written;
    var t := TreeRead(ts, inner);
    var r := ParseExpr(ts, inner);
    ArgThen(ts, ctx, frame, got);
    if r.rest != [] && r.rest[0] == Comma {
      Shorter(ts, inner);
      var more := MoreArgsRead(r.rest[1..], ctx, frame, got + [r.value]);
      args := [t] + more;
      OneMore(t, more, r.rest[1..]);
      Grouping(got, [r.value], MeaningAll(more).value);
      var left := MoreArgs(ts, ctx, frame, got).rest;
      assert WrittenAll(more) + CommaIf(false) + left == WrittenAll(more) + left;
      MoreWritten(t, more, false, r.rest, left);
    } else {
      args := [t];
      OneAlone(t);
    }
  }

  lemma {:induction false} Shorter(ts: seq<Token>, ctx: Context)
    ensures ParseExpr(ts, ctx).Done? ==> |ParseExpr(ts, ctx).rest| < |ts|
  {
    hide ParseExpr;
  }

  lemma {:induction false} OneAlone(t: Tree)
    requires Meaning(t).Some?
    ensures MeaningAll([t]) == Some([Meaning(t).value]) && WrittenAll([t]) == Written(t)
  {
    assert [t][1..] == [];
    assert MeaningAll([]) == Some([]);
    assert [Meaning(t).value] + [] == [Meaning(t).value];
  }

  lemma {:induction false} OneMore(t: Tree, more: seq<Tree>, after: seq<Token>)
    requires Meaning(t).Some? && MeaningAll(more).Some? && more != []
    ensures MeaningAll([t] + more) == Some([Meaning(t).value] + MeaningAll(more).value)
    ensures ([t] + more)[1..] == more && ([t] + more)[0] == t
  {
    assert ([t] + more)[1..] == more;
  }

  lemma {:induction false} BracketsRead(ts: seq<Token>, ctx: Context) returns (t: Tree)
    requires ts != [] && ts[0] == LBracket && ParseArray(ts, ctx).Done?
    ensures Meaning(t) == Some(ParseArray(ts, ctx).value) && ts == Written(t) + ParseArray(ts, ctx).rest
    decreases |ts|, 1
  {
    hide MoreItems, RecoveryAt, Written, Meaning, MeaningAll, WrittenAll;
    var inner := ctx.(brackets := ctx.brackets + 1);
    assert ts == [LBracket] + ts[1..];
    if |ts| > 1 && ts[1] == RBracket {
      t := Brackets([], false);
      EmptyLists();
      assert ts[1..] == [RBracket] + ts[1..][1..];
    } else {
      var items, trailing := ItemsRead(ts[1..], inner, []);
      t := Brackets(items, trailing);
      var rest := MoreItems(ts[1..], inner, []).rest;
      assert rest == [RBracket] + rest[1..];
      assert [] + MeaningAll(items).value == MeaningAll(items).value;
      BracketsOf(items, trailing, rest[1..]);
    }
  }

  lemma {:induction false} EmptyLists()
    ensures Meaning(Brackets([], false)) == Some(Array([])) && Written(Brackets([], false)) == [LBracket, RBracket]
    ensures Meaning(Braces([], false)) == Some(Made(NoEntries)) && Written(Braces([], false)) == [LBrace, RBrace]
  {
  }

  lemma {:induction false} BracketsOf(items: seq<Tree>, trailing: bool, after: seq<Token>)
    requires items != [] && MeaningAll(items).Some?
    ensures Meaning(Brackets(items, trailing)) == Some(Array(MeaningAll(items).value))
    ensures Written(Brackets(items, trailing)) + after ==
            [LBracket] + (WrittenAll(items) + CommaIf(trailing) + ([RBracket] + after))
  {
    hide WrittenAll, MeaningAll;
  }

  lemma {:induction false} ItemsRead(ts: seq<Token>, ctx: Context, got: seq<Term>)
    returns (items: seq<Tree>, trailing: bool)
    requires MoreItems(ts, ctx, got).Done?
    ensures items != [] && MeaningAll(items).Some?
    ensures got + MeaningAll(items).value == MoreItems(ts, ctx, got).value
    ensures ts == WrittenAll(items) + CommaIf(trailing) + MoreItems(ts, ctx, got).rest
    decreases |ts|, 3
  {
    assert ParseExpr(ts, ctx).Done?;
    hide ParseExpr, WrittenAll, MeaningAll, Meaning, Written, MoreItems, CommaIf;
    var t := TreeRead(ts, ctx);
    var r := ParseExpr(ts, ctx);
    ItemUnfold(ts, ctx, got);
    Shorter(ts, ctx);
    if r.rest != [] && r.rest[0] == Comma && !(|r.rest| > 1 && r.rest[1] == RBracket) {
      var more, last := ItemsRead(r.rest[1..], ctx, got + [r.value]);
      items, trailing := [t] + more, last;
      OneMore(t, more, r.rest[1..]);
      Grouping(got, [r.value], MeaningAll(more).value);
      MoreWritten(t, more, trailing, r.rest, MoreItems(ts, ctx, got).rest);
    } else {
      items, trailing := [t], r.rest != [] && r.rest[0] == Comma;
      OneAlone(t);
      LastComma(Written(t), r.rest, trailing);
    }
  }

  lemma {:induction false} Grouping(a: seq<Term>, b: seq<Term>, c: seq<Term>)
    ensures a + (b + c) == a + b + c
  {
  }

  lemma {:induction false} ItemUnfold(ts: seq<Token>, ctx: Context, got: seq<Term>)
    requires ParseExpr(ts, ctx).Done?
    ensures var r := ParseExpr(ts, ctx);
            MoreItems(ts, ctx, got) ==
            if r.rest == [] || r.rest[0] != Comma then Done(got + [r.value], r.rest)
            else if |r.rest| > 1 && r.rest[1] == RBracket then Done(got + [r.value], r.rest[1..])
            else MoreItems(r.rest[1..], ctx, got + [r.value])
  {
    hide ParseExpr;
  }

  lemma {:induction false} LastComma(before: seq<Token>, rest: seq<Token>, trailing: bool)
    requires trailing <==> rest != [] && rest[0] == Comma
    ensures before + rest == before + CommaIf(trailing) + (if trailing then rest[1..] else rest)
  {
    assert trailing ==> rest == [Comma] + rest[1..];
  }

  lemma {:induction false} MoreWritten(t: Tree, more: seq<Tree>, trailing: bool, rest: seq<Token>, left: seq<Token>)
    requires more != [] && rest != [] && rest[0] == Comma
    requires rest[1..] == WrittenAll(more) + CommaIf(trailing) + left
    ensures Written(t) + rest == WrittenAll([t] + more) + CommaIf(trailing) + left
    ensures !trailing ==> CommaIf(trailing) + left == left && WrittenAll([t] + more) + CommaIf(trailing) + left ==
                          WrittenAll([t] + more) + left
  {
    hide WrittenAll, Written;
    var end := CommaIf(trailing) + left;
    assert ([t] + more)[0] == t && ([t] + more)[1..] == more;
    FirstOfAll([t] + more, end);
    assert rest == [Comma] + rest[1..];
    assert WrittenAll(more) + CommaIf(trailing) + left == WrittenAll(more) + end;
    assert WrittenAll([t] + more) + CommaIf(trailing) + left == WrittenAll([t] + more) + end;
  }

  lemma {:induction false} BracesRead(ts: seq<Token>, ctx: Context) returns (t: Tree)
    requires ts != [] && ts[0] == LBrace && ParseObject(ts, ctx).Done?
    ensures Meaning(t) == Some(ParseObject(ts, ctx).value) && ts == Written(t) + ParseObject(ts, ctx).rest
    decreases |ts|, 1
  {
    hide MoreEntries, RecoveryAt, Written, Meaning, MeaningPairs, WrittenPairs;
    var inner := ctx.(braces := ctx.braces + 1);
    assert ts == [LBrace] + ts[1..];
    if |ts| > 1 && ts[1] == RBrace {
      t := Braces([], false);
      EmptyLists();
      assert ts[1..] == [RBrace] + ts[1..][1..];
    } else {
      var entries, trailing := PairsRead(ts[1..], inner, NoEntries);
      t := Braces(entries, trailing);
      var rest := MoreEntries(ts[1..], inner, NoEntries).rest;
      assert rest == [RBrace] + rest[1..];
      BracesOf(entries, trailing, rest[1..]);
    }
  }

  lemma {:induction false} BracesOf(entries: seq<Pair>, trailing: bool, after: seq<Token>)
    requires entries != [] && MeaningPairs(entries, NoEntries).Some?
    ensures Meaning(Braces(entries, trailing)) == Some(Made(MeaningPairs(entries, NoEntries).value))
    ensures Written(Braces(entries, trailing)) + after ==
            [LBrace] + (WrittenPairs(entries) + CommaIf(trailing) + ([RBrace] + after))
  {
    hide WrittenPairs, MeaningPairs;
  }

  lemma {:induction false} PairRead(ts: seq<Token>, ctx: Context, got: Literal) returns (p: Pair)
    requires ParseEntry(ts, ctx, got).Done?
    ensures MeaningPair(p, got) == Some(ParseEntry(ts, ctx, got).value)
    ensures ts == WrittenPair(p) + ParseEntry(ts, ctx, got).rest
    ensures |ParseEntry(ts, ctx, got).rest| < |ts|
    decreases |ts|, 2
  {
    hide ParseExpr, AddEntry, Meaning, Written;
    var body := ts[1..][1..];
    var v := TreeRead(body, ctx);
    Shorter(body, ctx);
    p := Pair(ts[0], v);
    assert ts == [ts[0], Colon] + body;
  }

  lemma {:induction false} PairsRead(ts: seq<Token>, ctx: Context, got: Literal) returns (ps: seq<Pair>, trailing: bool)
    requires MoreEntries(ts, ctx, got).Done?
    ensures ps != [] && MeaningPairs(ps, got) == Some(MoreEntries(ts, ctx, got).value)
    ensures ts == WrittenPairs(ps) + CommaIf(trailing) + MoreEntries(ts, ctx, got).rest
    decreases |ts|, 3
  {
    assert ParseEntry(ts, ctx, got).Done?;
    hide ParseEntry, MeaningPair, WrittenPair, WrittenPairs, MeaningPairs, MoreEntries, CommaIf;
    var r := ParseEntry(ts, ctx, got);
    var p := PairRead(ts, ctx, got);
    PairUnfold(ts, ctx, got);
    if r.rest != [] && r.rest[0] == Comma && !(|r.rest| > 1 && r.rest[1] == RBrace) {
      var more, last := PairsRead(r.rest[1..], ctx, r.value);
      ps, trailing := [p] + more, last;
      PairAnd(p, more, got);
      MorePairs(p, more, trailing, r.rest, MoreEntries(ts, ctx, got).rest);
    } else {
      ps, trailing := [p], r.rest != [] && r.rest[0] == Comma;
      PairAlone(p, got);
      LastComma(WrittenPair(p), r.rest, trailing);
    }
  }

  lemma {:induction false} PairUnfold(ts: seq<Token>, ctx: Context, got: Literal)
    requires ParseEntry(ts, ctx, got).Done?
    ensures var r := ParseEntry(ts, ctx, got);
            MoreEntries(ts, ctx, got) ==
            if r.rest == [] || r.rest[0] != Comma then Done(r.value, r.rest)
            else if |r.rest| > 1 && r.rest[1] == RBrace then Done(r.value, r.rest[1..])
            else MoreEntries(r.rest[1..], ctx, r.value)
  {
    hide ParseEntry;
  }

  lemma {:induction false} PairAlone(p: Pair, got: Literal)
    requires MeaningPair(p, got).Some?
    ensures WrittenPairs([p]) == WrittenPair(p) && MeaningPairs([p], got) == MeaningPair(p, got)
  {
    hide MeaningPair;
    var got' := MeaningPair(p, got).value;
    assert [p][1..] == [] && MeaningPairs([], got') == Some(got');
  }

  lemma {:induction false} PairAnd(p: Pair, more: seq<Pair>, got: Literal)
    requires MeaningPair(p, got).Some?
    ensures MeaningPairs([p] + more, got) == MeaningPairs(more, MeaningPair(p, got).value)
  {
    hide MeaningPair;
    assert ([p] + more)[1..] == more;
  }

  lemma {:induction false} MorePairs(p: Pair, more: seq<Pair>, trailing: bool, rest: seq<Token>, left: seq<Token>)
    requires more != [] && rest != [] && rest[0] == Comma
    requires rest[1..] == WrittenPairs(more) + CommaIf(trailing) + left
    ensures WrittenPair(p) + rest == WrittenPairs([p] + more) + CommaIf(trailing) + left
  {
    hide WrittenPairs, WrittenPair;
    var end := CommaIf(trailing) + left;
    assert ([p] + more)[0] == p && ([p] + more)[1..] == more;
    FirstOfPairs([p] + more, end);
    assert rest == [Comma] + rest[1..];
    assert WrittenPairs(more) + CommaIf(trailing) + left == WrittenPairs(more) + end;
    assert WrittenPairs([p] + more) + CommaIf(trailing) + left == WrittenPairs([p] + more) + end;
  }

  // ----- what constructors refuse -----

  /** A name that must be given, or may be left out. */
  predicate IsName(t: Term) { t.Str? && t.s != "" }

  predicate TryRefused(args: seq<Term>)
  {
    var param, catchBody, finallyBody, payload := Arg(args, 1), Arg(args, 2), Arg(args, 3), Arg(args, 4);
    || (!param.Undefined? && !IsName(param)) || (!payload.Undefined? && !IsName(payload))
    || (!param.Undefined? && catchBody.Undefined?)
    || (catchBody.Undefined? && finallyBody.Undefined?)
  }

  /** Constructors refuse arguments of the wrong kind and no others: names that are no strings,
      lists that are no arrays, a `Construct` of anything but a plain object, and a `Try` without
      a clause, with a parameter but no clause for it, or with an empty name. */
  lemma {:induction false} RefusedExactly(name: string, args: seq<Term>)
    requires ArityOf(name).Some? && Admits(ArityOf(name).value, |args|)
    ensures Dispatch(name, args).None? <==>
            || (name in {"Ref", "Let", "Eval"} && !args[0].Str?)
            || (name == "Get" && !args[1].Str?)
            || (name == "While" && !args[1].Array?)
            || (name == "Fn" && !(args[0].Array? && forall i :: 0 <= i < |args[0].items| ==> args[0].items[i].Str?))
            || (name == "Construct" && !((args[0].Object? || args[0].Derived?) && !ReadsTagged(args[0])))
            || (name == "Try" && TryRefused(args))
  {
    hide MakeTry, Converge, ReadsTagged, TryRefused;
    hide Dispatch, ArityOf, Admits;
    if name in {"Ref", "Let", "Eval", "Get"} {
      KindsRefused(name, args);
    } else if name in {"While", "Fn", "Construct"} {
      ListsRefused(name, args);
    } else if name == "Try" {
      TryMade(args);
    } else {
      NeverRefused(name, args);
    }
  }

  lemma {:induction false} KindsRefused(name: string, args: seq<Term>)
    requires ArityOf(name).Some? && Admits(ArityOf(name).value, |args|)
    requires name in {"Ref", "Let", "Eval", "Get"}
    ensures Dispatch(name, args).None? <==> if name == "Get" then !args[1].Str? else !args[0].Str?
  {
    hide MakeTry, Converge, ReadsTagged;
  }

  lemma {:induction false} ListsRefused(name: string, args: seq<Term>)
    requires ArityOf(name).Some? && Admits(ArityOf(name).value, |args|)
    requires name in {"While", "Fn", "Construct"}
    ensures Dispatch(name, args).None? <==>
            if name == "While" then !args[1].Array?
            else if name == "Fn" then
              !(args[0].Array? && forall i :: 0 <= i < |args[0].items| ==> args[0].items[i].Str?)
            else !((args[0].Object? || args[0].Derived?) && !ReadsTagged(args[0]))
  {
    hide MakeTry, Converge, ReadsTagged;
  }

  lemma {:induction false} NeverRefused(name: string, args: seq<Term>)
    requires ArityOf(name).Some? && Admits(ArityOf(name).value, |args|)
    requires name !in {"Ref", "Let", "Eval", "Get", "While", "Fn", "Construct", "Try"}
    ensures Dispatch(name, args).Some?
  {
    hide MakeTry, Converge, ReadsTagged;
  }

  lemma {:induction false} TryMade(args: seq<Term>)
    requires ArityOf("Try").Some? && Admits(ArityOf("Try").value, |args|)
    ensures Dispatch("Try", args).None? <==> TryRefused(args)
  {
  }

  // ----- sources -----

  /** The parser accepts a source exactly when its tokens are those of a tree that stands for a
      term, and gives that term. */
  lemma {:induction false} AcceptedExactly(source: string, t: Term)
    ensures ParseDSL(source) == Accepted(t) <==>
            Lex(source).Some? && exists tree :: Meaning(tree) == Some(t) && Written(tree) == Lex(source).value
  {
    hide Lex, ParseExpr, Meaning, Written;
    if Lex(source).Some? {
      var ts := Lex(source).value;
      forall tree | Meaning(tree) == Some(t) && Written(tree) == ts ensures ParseDSL(source) == Accepted(t) {
        ReadsTree(tree, [], Start);
        assert ts + [] == ts;
      }
      if ParseDSL(source) == Accepted(t) {
        var tree := TreeRead(ts, Start);
        assert Written(tree) + [] == Written(tree);
      }
    }
  }
}
