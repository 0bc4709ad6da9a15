/** Repair of truncated programs: missing closing delimiters are appended, innermost first,
    and nothing else is changed. */
module AutoClose {
  import opened Text
  import opened Lexer
  import opened Term
  import opened Parser
  import opened ParserCrash
  import opened ParserState

  // ----- delimiters -----

  /** The closing delimiter that an open one waits for. */
  function CloserOf(t: Token): Option<Token>
  {
    match t
    case LParen => Some(RParen)
    case LBracket => Some(RBracket)
    case LBrace => Some(RBrace)
    case _ => None
  }

  predicate IsCloser(t: Token) { t in {RParen, RBracket, RBrace} }

  /** The delimiters that are open after `ts`, given those open before, outermost first;
      None is a mismatch. */
  function Open(ts: seq<Token>, stack: seq<Token>): (r: Option<seq<Token>>)
    decreases |ts|
  {
    if ts == [] then Some(stack)
    else if CloserOf(ts[0]).Some? then Open(ts[1..], stack + [ts[0]])
    else if IsCloser(ts[0]) then
      if stack == [] || CloserOf(stack[|stack| - 1]) != Some(ts[0]) then None
      else Open(ts[1..], stack[..|stack| - 1])
    else Open(ts[1..], stack)
  }

  predicate Balanced(ts: seq<Token>) { Open(ts, []) == Some([]) }

  function CloserChar(t: Token): char
  {
    match t
    case LParen => ')'
    case LBracket => ']'
    case _ => '}'
  }

  /** The closers of open delimiters, last in first out. */
  function Closers(stack: seq<Token>): string
  {
    if stack == [] then "" else [CloserChar(stack[|stack| - 1])] + Closers(stack[..|stack| - 1])
  }

  // ----- the repair -----

  /** A repaired text, no repair, or an exception that is no syntax error, raised while the
      repaired text is parsed. */
  datatype Repair = Fixed(text: string) | Unrepairable | Raises

  function Repaired(source: string): Repair
  {
    match Lex(source)
    case None => Unrepairable
    case Some(ts) =>
      match Open(ts, [])
      case None => Unrepairable
      case Some(stack) =>
        if stack == [] then Fixed(source)
        else
          match ParseDSL(source + Closers(stack))
          case Accepted(_) => Fixed(source + Closers(stack))
          case Rejected(f) => if f.Crash? then Raises else Unrepairable
  }

  /** The loop over the tokens with its stack of open delimiters. */
  method TryAutoClose(source: string) returns (r: Repair)
    ensures r == Repaired(source)
  {
    var tokens := Tokenize(source);
    if tokens.None? {
      return Unrepairable;
    }
    var ts := tokens.value;
    var stack: seq<Token> := [];
    assert ts[0..] == ts;
    for i := 0 to |ts|
      invariant Open(ts, []) == Open(ts[i..], stack)
    {
      var tok := ts[i];
      assert ts[i..][0] == tok && ts[i..][1..] == ts[i + 1..];
      match tok {
        case LParen => stack := stack + [tok];
        case LBracket => stack := stack + [tok];
        case LBrace => stack := stack + [tok];
        case RParen =>
          if stack == [] || stack[|stack| - 1] != LParen {
            return Unrepairable;
          }
          stack := stack[..|stack| - 1];
        case RBracket =>
          if stack == [] || stack[|stack| - 1] != LBracket {
            return Unrepairable;
          }
          stack := stack[..|stack| - 1];
        case RBrace =>
          if stack == [] || stack[|stack| - 1] != LBrace {
            return Unrepairable;
          }
          stack := stack[..|stack| - 1];
        case _ =>
      }
    }
    assert ts[|ts|..] == [];
    if stack == [] {
      return Fixed(source);
    }
    var repaired := source + Closers(stack);
    var result := ParseSource(repaired);
    r := if result.Accepted? then Fixed(repaired) else if result.failure.Crash? then Raises else Unrepairable;
  }

  // ----- what the parser accepts is balanced -----

  /** Whatever the parser consumes leaves the open delimiters as they were. */
  ghost predicate Keeps<T>(ts: seq<Token>, r: Parsed<T>)
  {
    r.Done? ==> forall stack :: Open(ts, stack) == Open(r.rest, stack)
  }

  lemma {:induction false} OpenStep(ts: seq<Token>, stack: seq<Token>)
    requires ts != [] && CloserOf(ts[0]).None? && !IsCloser(ts[0])
    ensures Open(ts, stack) == Open(ts[1..], stack)
  {
  }

  /** An opening delimiter, something that keeps the stack, and the matching closer. */
  lemma {:induction false} Bracketed(ts: seq<Token>, rest: seq<Token>, stack: seq<Token>)
    requires ts != [] && CloserOf(ts[0]).Some?
    requires forall st :: Open(ts[1..], st) == Open(rest, st)
    requires rest != [] && CloserOf(ts[0]) == Some(rest[0])
    ensures Open(ts, stack) == Open(rest[1..], stack)
  {
    var st := stack + [ts[0]];
    assert st[..|st| - 1] == stack && st[|st| - 1] == ts[0];
    assert Open(ts, stack) == Open(ts[1..], st) == Open(rest, st);
    assert IsCloser(rest[0]) && CloserOf(rest[0]).None?;
  }

  lemma {:induction false} ExprKeeps(ts: seq<Token>, ctx: Context)
    ensures Keeps(ts, ParseExpr(ts, ctx))
    decreases |ts|, 2
  {
    hide ParseCall, ParseArray, ParseObject;
    if ts != [] {
      match ts[0]
      case Ident(_) => CallKeeps(ts, ctx);
      case LBracket => ArrayKeeps(ts, ctx);
      case LBrace => ObjectKeeps(ts, ctx);
      case _ =>
    }
  }

  lemma {:induction false} CallKeeps(ts: seq<Token>, ctx: Context)
    requires ts != [] && ts[0].Ident?
    ensures Keeps(ts, ParseCall(ts, ctx))
    decreases |ts|, 1
  {
    hide ParseArgs, Dispatch, ArityOf, EntryOf, Admits, RecoveryAt, Enter;
    var r := ParseCall(ts, ctx);
    if r.Done? {
      var frame := Frame(ts[0].name, 0, EntryOf(ts[0].name).value);
      ArgsKeep(ts[2..], ctx, frame);
      var rest := ParseArgs(ts[2..], ctx, frame).rest;
      assert ts[1..][1..] == ts[2..];
      forall stack ensures Open(ts, stack) == Open(r.rest, stack) {
        OpenStep(ts, stack);
        Bracketed(ts[1..], rest, stack);
      }
    }
  }

  lemma {:induction false} ArgsKeep(ts: seq<Token>, ctx: Context, frame: Frame)
    ensures Keeps(ts, ParseArgs(ts, ctx, frame))
    decreases |ts|, 4
  {
    hide MoreArgs;
    MoreArgsKeep(ts, ctx, frame, []);
  }

  lemma {:induction false} MoreArgsKeep(ts: seq<Token>, ctx: Context, frame: Frame, got: seq<Term>)
    ensures Keeps(ts, MoreArgs(ts, ctx, frame, got))
    decreases |ts|, 3
  {
    hide ParseExpr, Open;
    var inner := Enter(ctx, frame.(received := |got|));
    ExprKeeps(ts, inner);
    match ParseExpr(ts, inner)
    case Bad(_) =>
    case Done(t, rest) =>
      if rest != [] && rest[0] == Comma {
        MoreArgsKeep(rest[1..], ctx, frame, got + [t]);
        forall stack ensures Open(rest, stack) == Open(rest[1..], stack) {
          OpenStep(rest, stack);
        }
      }
  }

  lemma {:induction false} ArrayKeeps(ts: seq<Token>, ctx: Context)
    requires ts != [] && ts[0] == LBracket
    ensures Keeps(ts, ParseArray(ts, ctx))
    decreases |ts|, 1
  {
    hide MoreItems, RecoveryAt;
    var r, inner := ParseArray(ts, ctx), ctx.(brackets := ctx.brackets + 1);
    if r.Done? {
      var rest;
      if |ts| > 1 && ts[1] == RBracket {
        rest := ts[1..];
      } else {
        ItemsKeep(ts[1..], inner, []);
        rest := MoreItems(ts[1..], inner, []).rest;
      }
      forall stack ensures Open(ts, stack) == Open(r.rest, stack) {
        Bracketed(ts, rest, stack);
      }
    }
  }

  lemma {:induction false} ItemsKeep(ts: seq<Token>, ctx: Context, got: seq<Term>)
    ensures Keeps(ts, MoreItems(ts, ctx, got))
    decreases |ts|, 3
  {
    hide ParseExpr, Open;
    ExprKeeps(ts, ctx);
    match ParseExpr(ts, ctx)
    case Bad(_) =>
    case Done(t, rest) =>
      if rest != [] && rest[0] == Comma {
        if !(|rest| > 1 && rest[1] == RBracket) {
          ItemsKeep(rest[1..], ctx, got + [t]);
        }
        forall stack ensures Open(rest, stack) == Open(rest[1..], stack) {
          OpenStep(rest, stack);
        }
      }
  }

  lemma {:induction false} ObjectKeeps(ts: seq<Token>, ctx: Context)
    requires ts != [] && ts[0] == LBrace
    ensures Keeps(ts, ParseObject(ts, ctx))
    decreases |ts|, 1
  {
    hide MoreEntries, RecoveryAt;
    var r, inner := ParseObject(ts, ctx), ctx.(braces := ctx.braces + 1);
    if r.Done? {
      var rest;
      if |ts| > 1 && ts[1] == RBrace {
        rest := ts[1..];
      } else {
        EntriesKeep(ts[1..], inner, NoEntries);
        rest := MoreEntries(ts[1..], inner, NoEntries).rest;
      }
      forall stack ensures Open(ts, stack) == Open(r.rest, stack) {
        Bracketed(ts, rest, stack);
      }
    }
  }

  lemma {:induction false} EntryKeeps(ts: seq<Token>, ctx: Context, got: Literal)
    ensures Keeps(ts, ParseEntry(ts, ctx, got))
    decreases |ts|, 2
  {
    hide ParseExpr, Open, RecoveryAt, AddEntry;
    var r := ParseEntry(ts, ctx, got);
    if r.Done? {
      var rest := ts[1..][1..];
      ExprKeeps(rest, ctx);
      forall stack ensures Open(ts, stack) == Open(r.rest, stack) {
        OpenStep(ts, stack);
        OpenStep(ts[1..], stack);
      }
    }
  }

  lemma {:induction false} EntriesKeep(ts: seq<Token>, ctx: Context, got: Literal)
    ensures Keeps(ts, MoreEntries(ts, ctx, got))
    decreases |ts|, 3
  {
    hide ParseEntry, Open;
    EntryKeeps(ts, ctx, got);
    match ParseEntry(ts, ctx, got)
    case Bad(_) =>
    case Done(entries, rest) =>
      if rest != [] && rest[0] == Comma {
        if !(|rest| > 1 && rest[1] == RBrace) {
          EntriesKeep(rest[1..], ctx, entries);
        }
        forall stack ensures Open(rest, stack) == Open(rest[1..], stack) {
          OpenStep(rest, stack);
        }
      }
  }

  /** Every source that the parser accepts has matched delimiters. */
  lemma {:induction false} AcceptedBalanced(source: string)
    requires ParseDSL(source).Accepted?
    ensures Lex(source).Some? && Balanced(Lex(source).value)
  {
    hide Lex, ParseExpr;
    ExprKeeps(Lex(source).value, Start);
    assert Open([], []) == Some([]);
  }

  /** So the repair leaves it as it is. */
  lemma {:induction false} AcceptedUnchanged(source: string)
    requires ParseDSL(source).Accepted?
    ensures Repaired(source) == Fixed(source)
  {
    hide Lex, ParseDSL, Open;
    AcceptedBalanced(source);
  }

  /** A repair is a fixed point of the repair: it is balanced, so nothing is added again. */
  lemma {:induction false} RepairIsFixed(source: string)
    requires Repaired(source).Fixed?
    ensures Repaired(Repaired(source).text) == Repaired(source)
  {
    hide Lex, ParseDSL, Open;
    var r := Repaired(source).text;
    if r != source {
      AcceptedUnchanged(r);
    }
  }

  // ----- the only repair -----

  /** A text of closing delimiters. */
  predicate Closing(w: string) { forall i :: 0 <= i < |w| ==> w[i] in {')', ']', '}'} }

  function CloserToks(w: string): seq<Token>
    requires Closing(w)
  {
    if w == [] then [] else [Punctuation(w[0]).GetOr(Comma)] + CloserToks(w[1..])
  }

  lemma {:induction false} LexClosing(w: string)
    requires Closing(w)
    ensures Lex(w) == Some(CloserToks(w)) && Breaks(w)
  {
    hide Lex;
    if w == [] {
      assert Lex([]) == Some([]) by { LexNothing(); }
    } else {
      LexClosing(w[1..]);
      LexPunctuation(w[0], w[1..]);
      assert [w[0]] + w[1..] == w;
    }
  }

  lemma {:induction false} OpenAppend(a: seq<Token>, b: seq<Token>, stack: seq<Token>)
    ensures Open(a + b, stack) == if Open(a, stack).Some? then Open(b, Open(a, stack).value) else None
    decreases |a|
  {
    if a == [] {
      assert a + b == b;
    } else {
      assert (a + b)[0] == a[0] && (a + b)[1..] == a[1..] + b;
      if CloserOf(a[0]).Some? {
        OpenAppend(a[1..], b, stack + [a[0]]);
      } else if !IsCloser(a[0]) {
        OpenAppend(a[1..], b, stack);
      } else if stack != [] {
        OpenAppend(a[1..], b, stack[..|stack| - 1]);
      }
    }
  }

  /** Closers that close everything are the closers in last-in-first-out order. */
  lemma {:induction false} ClosersUnique(w: string, stack: seq<Token>)
    requires Closing(w) && Open(CloserToks(w), stack) == Some([])
    requires forall i :: 0 <= i < |stack| ==> CloserOf(stack[i]).Some?
    ensures w == Closers(stack)
  {
    if w != [] {
      var ts := CloserToks(w);
      assert ts[1..] == CloserToks(w[1..]);
      assert IsCloser(ts[0]) && CloserOf(ts[0]).None?;
      ClosersUnique(w[1..], stack[..|stack| - 1]);
      assert w == [w[0]] + w[1..];
    }
  }

  lemma {:induction false} OpenAreOpeners(ts: seq<Token>, stack: seq<Token>)
    requires Open(ts, stack).Some? && forall i :: 0 <= i < |stack| ==> CloserOf(stack[i]).Some?
    ensures forall i :: 0 <= i < |Open(ts, stack).value| ==> CloserOf(Open(ts, stack).value[i]).Some?
    decreases |ts|
  {
    if ts != [] {
      if CloserOf(ts[0]).Some? {
        OpenAreOpeners(ts[1..], stack + [ts[0]]);
      } else if !IsCloser(ts[0]) {
        OpenAreOpeners(ts[1..], stack);
      } else {
        OpenAreOpeners(ts[1..], stack[..|stack| - 1]);
      }
    }
  }

  lemma {:induction false} ClosersClosing(stack: seq<Token>)
    ensures Closing(Closers(stack)) && |Closers(stack)| == |stack|
  {
    if stack != [] {
      ClosersClosing(stack[..|stack| - 1]);
    }
  }

  /** Closing delimiters that make a source acceptable are those the repair appends. */
  lemma {:induction false} SuffixIsClosers(source: string, w: string)
    requires Closing(w) && Lex(source).Some? && ParseDSL(source + w).Accepted?
    ensures Open(Lex(source).value, []).Some? && w == Closers(Open(Lex(source).value, []).value)
  {
    hide Lex, ParseDSL, Open;
    var ts := Lex(source).value;
    AcceptedBalanced(source + w);
    LexClosing(w);
    LexAppend(source, w);
    OpenAppend(ts, CloserToks(w), []);
    OpenAreOpeners(ts, []);
    ClosersUnique(w, Open(ts, []).value);
  }

  /** The repair of a source that lexes succeeds with `source + w` for closers `w` exactly
      when these make it acceptable; there is no choice of closers. */
  lemma {:induction false} RepairComplete(source: string, w: string)
    requires Closing(w) && w != [] && Lex(source).Some?
    ensures ParseDSL(source + w).Accepted? <==> Repaired(source) == Fixed(source + w)
  {
    hide Lex, ParseDSL, Open;
    if ParseDSL(source + w).Accepted? {
      SuffixIsClosers(source, w);
      ClosersClosing(Open(Lex(source).value, []).value);
    }
    if Repaired(source) == Fixed(source + w) {
      var stack := Open(Lex(source).value, []).value;
      assert |source + w| > |source|;
      assert source + Closers(stack) == source + w;
    }
  }

  // ----- exceptions -----

  /** The input ends too early and closing what is open would give every call enough arguments. */
  predicate Truncated(o: Outcome)
  {
    o.Rejected? && o.failure.Syntax? && o.failure.recovery.Some? && o.failure.recovery.value.autoClosable
  }

  lemma {:induction false} CloserToksClose(w: string)
    requires Closing(w)
    ensures |CloserToks(w)| == |w| && forall i :: 0 <= i < |w| ==> IsCloser(CloserToks(w)[i])
  {
    if w != [] {
      CloserToksClose(w[1..]);
    }
  }

  /** What is parsed in a repair are the tokens of the source and closers. */
  lemma {:induction false} RepairLexes(source: string)
    requires Lex(source).Some? && Open(Lex(source).value, []).Some?
    ensures var w := Closers(Open(Lex(source).value, []).value);
            Closing(w) && Lex(source + w) == Some(Lex(source).value + CloserToks(w))
  {
    hide Lex, Open;
    var w := Closers(Open(Lex(source).value, []).value);
    ClosersClosing(Open(Lex(source).value, []).value);
    LexClosing(w);
    LexAppend(source, w);
  }

  /** The repair raises an exception exactly when there is something to close and closing it
      completes a call of an inherited name behind a text that is fine as far as it goes. */
  lemma {:induction false} RaisesExactly(source: string)
    ensures Repaired(source).Raises? <==>
              && Lex(source).Some? && Open(Lex(source).value, []).Some? && Open(Lex(source).value, []).value != []
              && var w := Closers(Open(Lex(source).value, []).value);
                 Closing(w) && exists i: nat :: CrashSite(Lex(source).value + CloserToks(w), i)
  {
    hide Lex, Open, ParseDSL, CrashSite;
    if Lex(source).Some? && Open(Lex(source).value, []).Some? {
      RepairLexes(source);
      var w := Closers(Open(Lex(source).value, []).value);
      CrashesExactly(source + w);
      var ts := Lex(source).value + CloserToks(w);
      forall i: nat | CrashSite(ts, i) ensures i < |ts| {
        SiteInside(ts, i);
      }
    }
  }

  lemma {:induction false} SiteInside(ts: seq<Token>, i: nat)
    requires CrashSite(ts, i)
    ensures i < |ts| && InheritedCall(ts, i)
  {
  }

  /** So neither parsing nor repair raises an exception where no inherited name is followed by
      a parenthesis. */
  lemma {:induction false} NeverRaises(source: string)
    requires Lex(source).Some? ==> forall i: nat :: i < |Lex(source).value| ==> !InheritedCall(Lex(source).value, i)
    ensures ParseDSL(source) != Rejected(Crash) && !Repaired(source).Raises?
  {
    hide Lex, Open, ParseDSL, CrashSite, Inherited, Repaired;
    NeverCrashes(source);
    RaisesExactly(source);
    if Repaired(source).Raises? {
      var ts, w := Lex(source).value, Closers(Open(Lex(source).value, []).value);
      var i: nat :| CrashSite(ts + CloserToks(w), i);
      SiteInside(ts + CloserToks(w), i);
      CloserToksClose(w);
      StaysInherited(ts, CloserToks(w), i);
    }
  }

  lemma {:induction false} StaysInherited(ts: seq<Token>, us: seq<Token>, i: nat)
    requires InheritedCall(ts + us, i) && forall j :: 0 <= j < |us| ==> IsCloser(us[j])
    ensures InheritedCall(ts, i)
  {
    hide Inherited;
    assert forall j :: |ts| <= j < |ts + us| ==> IsCloser((ts + us)[j]);
  }

  /** An inherited name and an opening parenthesis: parsing this is a truncation that can be
      closed, and closing it raises the exception. */
  lemma {:induction false} TruncatedCallRaises(source: string, name: string)
    requires Inherited(name) && Lex(source) == Some([Ident(name), LParen])
    ensures Truncated(ParseDSL(source)) && Repaired(source).Raises?
  {
    hide Lex, Inherited, ParseArgs, Dispatch;
    var ts := [Ident(name), LParen];
    InheritedNames(name);
    var frame := Frame(name, 0, Arity(0, None));
    assert ts[2..] == [] && ts[1..] == [LParen] && [LParen][1..] == [];
    NoArguments(frame);
    assert ParseCall(ts, Start) == Bad(AtEnd(Enter(Start, frame), AnExpression));
    assert Enter(Start, frame).frames == [frame];
    assert Truncated(ParseDSL(source));
    OpenStep(ts, []);
    assert [] + [LParen] == [LParen];
    assert Open([LParen], []) == Open([], [LParen]) == Some([LParen]);
    assert Closers([LParen]) == ")" by {
      assert [LParen][..0] == [];
    }
    RepairLexes(source);
    var w := ")";
    assert w[1..] == [] && CloserToks([]) == [] && Punctuation(w[0]) == Some(RParen);
    assert CloserToks(w) == [RParen] + CloserToks(w[1..]) == [RParen];
    var us := ts + [RParen];
    assert us[2..] == [RParen] && us[..0] == [];
    assert ParseArgs([RParen], Start, Frame("", 0, Arity(0, None))) == Done([], [RParen]) by {
      NoneBeforeClose(Frame("", 0, Arity(0, None)));
    }
    assert CrashSite(us, 0);
    CrashesExactly(source + ")");
  }

  lemma {:induction false} NoArguments(frame: Frame)
    requires frame.received == 0
    ensures ParseArgs([], Start, frame) == Bad(AtEnd(Enter(Start, frame), AnExpression))
  {
    assert frame.(received := 0) == frame;
  }

  lemma {:induction false} NoneBeforeClose(frame: Frame)
    ensures ParseArgs([RParen], Start, frame) == Done([], [RParen])
  {
  }
}
