/** What a parser says of a text that ends too early, and which such texts are repaired: when
    closing delimiters make a text acceptable, the information about open calls says so, unless
    the text ends where the key of an object entry would have to come. */
module Truncation {
  import opened Text
  import opened Lexer
  import opened Term
  import opened Parser
  import opened ParserCrash
  import opened ParserState
  import opened AutoClose

  // ----- the tokens that are left -----

  predicate IsTail(x: seq<Token>, ts: seq<Token>) { |x| <= |ts| && x == ts[|ts| - |x|..] }

  lemma {:induction false} TailOfTail(x: seq<Token>, y: seq<Token>, ts: seq<Token>)
    requires IsTail(x, y) && IsTail(y, ts)
    ensures IsTail(x, ts)
  {
  }

  lemma {:induction false} TailRest(ts: seq<Token>, k: nat)
    requires k <= |ts|
    ensures IsTail(ts[k..], ts)
  {
  }

  predicate Leaves<T>(ts: seq<Token>, r: Parsed<T>) { r.Done? ==> IsTail(r.rest, ts) }

  lemma {:induction false} ExprLeaves(ts: seq<Token>, ctx: Context)
    ensures Leaves(ts, ParseExpr(ts, ctx))
    decreases |ts|, 2
  {
    hide ParseCall, ParseArray, ParseObject;
    if ts != [] {
      TailRest(ts, 1);
      match ts[0]
      case Ident(_) => CallLeaves(ts, ctx);
      case LBracket => ArrayLeaves(ts, ctx);
      case LBrace => ObjectLeaves(ts, ctx);
      case _ =>
    }
  }

  /** A closing token behind what has been read. */
  lemma {:induction false} LeavesClosed(ts: seq<Token>, k: nat, rest: seq<Token>)
    requires k <= |ts| && IsTail(rest, ts[k..]) && rest != []
    ensures IsTail(rest[1..], ts)
  {
  }

  lemma {:induction false} CallLeaves(ts: seq<Token>, ctx: Context)
    requires ts != [] && ts[0].Ident?
    ensures Leaves(ts, ParseCall(ts, ctx))
    decreases |ts|, 1
  {
    hide ParseArgs, Dispatch, ArityOf, EntryOf, Admits, RecoveryAt, Enter, IsTail;
    if ParseCall(ts, ctx).Done? {
      var frame := Frame(ts[0].name, 0, EntryOf(ts[0].name).value);
      ArgsLeave(ts[2..], ctx, frame);
      LeavesClosed(ts, 2, ParseArgs(ts[2..], ctx, frame).rest);
    }
  }

  lemma {:induction false} ArgsLeave(ts: seq<Token>, ctx: Context, frame: Frame)
    ensures Leaves(ts, ParseArgs(ts, ctx, frame))
    decreases |ts|, 4
  {
    hide MoreArgs;
    MoreArgsLeave(ts, ctx, frame, []);
  }

  lemma {:induction false} MoreArgsLeave(ts: seq<Token>, ctx: Context, frame: Frame, got: seq<Term>)
    ensures Leaves(ts, MoreArgs(ts, ctx, frame, got))
    decreases |ts|, 3
  {
    hide ParseExpr, IsTail;
    var inner := Enter(ctx, frame.(received := |got|));
    ExprLeaves(ts, inner);
    match ParseExpr(ts, inner)
    case Bad(_) =>
    case Done(t, rest) =>
      if rest != [] && rest[0] == Comma {
        MoreArgsLeave(rest[1..], ctx, frame, got + [t]);
        Further(ts, rest, MoreArgs(rest[1..], ctx, frame, got + [t]));
      }
  }

  lemma {:induction false} Further<T>(ts: seq<Token>, rest: seq<Token>, r: Parsed<T>)
    requires IsTail(rest, ts) && rest != [] && Leaves(rest[1..], r)
    ensures Leaves(ts, r) && IsTail(rest[1..], ts)
  {
    TailRest(rest, 1);
    TailOfTail(rest[1..], rest, ts);
    if r.Done? {
      TailOfTail(r.rest, rest[1..], ts);
    }
  }

  lemma {:induction false} ArrayLeaves(ts: seq<Token>, ctx: Context)
    requires ts != [] && ts[0] == LBracket
    ensures Leaves(ts, ParseArray(ts, ctx))
    decreases |ts|, 1
  {
    hide MoreItems, RecoveryAt, IsTail;
    var inner := ctx.(brackets := ctx.brackets + 1);
    if ParseArray(ts, ctx).Done? {
      if |ts| > 1 && ts[1] == RBracket {
        TailRest(ts[1..], 0);
        LeavesClosed(ts, 1, ts[1..]);
      } else {
        ItemsLeave(ts[1..], inner, []);
        LeavesClosed(ts, 1, MoreItems(ts[1..], inner, []).rest);
      }
    }
  }

  lemma {:induction false} ItemsLeave(ts: seq<Token>, ctx: Context, got: seq<Term>)
    ensures Leaves(ts, MoreItems(ts, ctx, got))
    decreases |ts|, 3
  {
    hide ParseExpr, IsTail;
    ExprLeaves(ts, ctx);
    match ParseExpr(ts, ctx)
    case Bad(_) =>
    case Done(t, rest) =>
      if rest != [] && rest[0] == Comma {
        if |rest| > 1 && rest[1] == RBracket {
          TailRest(rest, 1);
          TailOfTail(rest[1..], rest, ts);
        } else {
          ItemsLeave(rest[1..], ctx, got + [t]);
          Further(ts, rest, MoreItems(rest[1..], ctx, got + [t]));
        }
      }
  }

  lemma {:induction false} ObjectLeaves(ts: seq<Token>, ctx: Context)
    requires ts != [] && ts[0] == LBrace
    ensures Leaves(ts, ParseObject(ts, ctx))
    decreases |ts|, 1
  {
    hide MoreEntries, RecoveryAt, IsTail;
    var inner := ctx.(braces := ctx.braces + 1);
    if ParseObject(ts, ctx).Done? {
      if |ts| > 1 && ts[1] == RBrace {
        TailRest(ts[1..], 0);
        LeavesClosed(ts, 1, ts[1..]);
      } else {
        EntriesLeave(ts[1..], inner, NoEntries);
        LeavesClosed(ts, 1, MoreEntries(ts[1..], inner, NoEntries).rest);
      }
    }
  }

  lemma {:induction false} EntryLeaves(ts: seq<Token>, ctx: Context, got: Literal)
    ensures Leaves(ts, ParseEntry(ts, ctx, got))
    decreases |ts|, 2
  {
    hide ParseExpr, RecoveryAt, AddEntry, IsTail;
    var r := ParseEntry(ts, ctx, got);
    if r.Done? {
      var rest := ts[1..][1..];
      assert rest == ts[2..];
      ExprLeaves(rest, ctx);
      TailRest(ts, 2);
      TailOfTail(r.rest, rest, ts);
    }
  }

  lemma {:induction false} EntriesLeave(ts: seq<Token>, ctx: Context, got: Literal)
    ensures Leaves(ts, MoreEntries(ts, ctx, got))
    decreases |ts|, 3
  {
    hide ParseEntry, IsTail;
    EntryLeaves(ts, ctx, got);
    match ParseEntry(ts, ctx, got)
    case Bad(_) =>
    case Done(entries, rest) =>
      if rest != [] && rest[0] == Comma {
        if |rest| > 1 && rest[1] == RBrace {
          TailRest(rest, 1);
          TailOfTail(rest[1..], rest, ts);
        } else {
          EntriesLeave(rest[1..], ctx, entries);
          Further(ts, rest, MoreEntries(rest[1..], ctx, entries));
        }
      }
  }

  // ----- what is reported -----

  /** The report is about the context that it names. */
  predicate Honest(r: Recovery) { r == RecoveryAt(r.context, r.expected) }

  /** What was open before is open still, there is more, and every further call has enough. */
  predicate Fits(ctx: Context, c: Context)
  {
    && |c.frames| >= |ctx.frames| && c.frames[..|ctx.frames|] == ctx.frames
    && c.brackets >= ctx.brackets && c.braces >= ctx.braces
    && (|c.frames| > |ctx.frames| || c.brackets + c.braces > 0)
    && forall i :: |ctx.frames| <= i < |c.frames| ==> Enough(c, i)
  }

  /** The text ends where the key of an object entry would have to come. */
  predicate WantsKey(ts: seq<Token>, stack: seq<Token>)
  {
    && Open(ts, stack).Some? && Open(ts, stack).value != [] && Last(Open(ts, stack).value) == LBrace
    && (ts != [] ==> Last(ts) in {LBrace, Comma})
  }

  function Last(ts: seq<Token>): Token
    requires ts != []
  {
    ts[|ts| - 1]
  }

  predicate AllClosers(ts: seq<Token>) { ts != [] && forall i :: 0 <= i < |ts| ==> IsCloser(ts[i]) }

  /** How a text fails that closing delimiters complete. */
  predicate Reported(f: Failure, ctx: Context, ts: seq<Token>, stack: seq<Token>)
  {
    && f.Syntax? && (f.recovery.None? <==> WantsKey(ts, stack))
    && (f.recovery.Some? ==> Honest(f.recovery.value) && Fits(ctx, f.recovery.value.context))
  }

  /** The same of the arguments of the call `frame`, of which there are `n` in the end. */
  predicate ArgsReported(f: Failure, ctx: Context, frame: Frame, n: nat, ts: seq<Token>, stack: seq<Token>)
  {
    && f.Syntax? && (f.recovery.None? <==> WantsKey(ts, stack))
    && (f.recovery.Some? ==>
          var c := f.recovery.value.context;
          var at := |ctx.frames|;
          && Honest(f.recovery.value) && |c.frames| > at && c.frames[..at] == ctx.frames
          && c.brackets >= ctx.brackets && c.braces >= ctx.braces
          && c.frames[at].arity == frame.arity
          && c.frames[at].received + (if at < |c.frames| - 1 || c.brackets + c.braces > 0 then 1 else 0) >= n
          && forall i :: at < i < |c.frames| ==> Enough(c, i))
  }

  /** Read up to the end, a text with closers behind it is read up to them. */
  lemma {:induction false} ReadBefore(ts: seq<Token>, tail: seq<Token>, ctx: Context)
    requires ParseExpr(ts, ctx).Done?
    ensures ParseExpr(ts + tail, ctx) == Done(ParseExpr(ts, ctx).value, ParseExpr(ts, ctx).rest + tail)
  {
    hide ParseExpr;
    LocalExpr(ts, tail, ctx, ctx);
  }

  /** What is read only with the closers is read into them. */
  lemma {:induction false} ReadInto(ts: seq<Token>, tail: seq<Token>, ctx: Context)
    requires AllClosers(tail) && ParseExpr(ts, ctx).Bad? && ParseExpr(ts + tail, ctx).Done?
    ensures var rest := ParseExpr(ts + tail, ctx).rest; rest == [] || IsCloser(rest[0])
  {
    hide ParseExpr;
    LocalExpr(ts, tail, ctx, ctx);
    ExprLeaves(ts + tail, ctx);
    var rest := ParseExpr(ts + tail, ctx).rest;
    if rest != [] {
      assert rest[0] == (ts + tail)[|ts + tail| - |rest|];
    }
  }

  lemma {:induction false} ClosersAreNoExpression(tail: seq<Token>, ctx: Context)
    requires AllClosers(tail)
    ensures ParseExpr(tail, ctx).Bad?
  {
  }

  lemma {:induction false} CutExpr(ts: seq<Token>, tail: seq<Token>, ctx: Context, stack: seq<Token>)
    requires AllClosers(tail) && ParseExpr(ts, ctx).Bad? && ParseExpr(ts + tail, ctx).Done?
    ensures ts != [] && Reported(ParseExpr(ts, ctx).failure, ctx, ts, stack)
    decreases |ts|, 2
  {
    hide ParseCall, ParseArray, ParseObject, Reported;
    if ts == [] {
      assert ts + tail == tail;
      ClosersAreNoExpression(tail, ctx);
    } else {
      assert (ts + tail)[0] == ts[0];
      match ts[0]
      case Ident(_) => CutCall(ts, tail, ctx, stack);
      case LBracket => CutArray(ts, tail, ctx, stack);
      case LBrace => CutObject(ts, tail, ctx, stack);
      case _ =>
    }
  }

  lemma {:induction false} CutCall(ts: seq<Token>, tail: seq<Token>, ctx: Context, stack: seq<Token>)
    requires ts != [] && ts[0].Ident? && AllClosers(tail)
    requires ParseCall(ts, ctx).Bad? && ParseCall(ts + tail, ctx).Done?
    ensures Reported(ParseCall(ts, ctx).failure, ctx, ts, stack)
    decreases |ts|, 1
  {
    hide ParseArgs, Dispatch, ArityOf, EntryOf, Enter, Reported, ArgsReported, Enough, Open;
    NotCall(ts, tail, ctx);
    assert (ts + tail)[0] == ts[0] && (ts + tail)[1] == ts[1];
    var frame := Frame(ts[0].name, 0, EntryOf(ts[0].name).value);
    assert (ts + tail)[2..] == ts[2..] + tail;
    var r, r' := ParseArgs(ts[2..], ctx, frame), ParseArgs(ts[2..] + tail, ctx, frame);
    CallOpens(ts, stack);
    assert r.Done? && r.rest != [] ==> (r.rest + tail)[0] == r.rest[0];
    assert frame.received == 0 && |r'.value| >= frame.arity.min;
    if r.Bad? {
      CutArgs(ts[2..], tail, ctx, frame, stack);
      ArgsInCall(r.failure, ctx, frame, |r'.value|, ts, stack);
    } else if r.rest == [] {
      ArgsAtEnd(ts[2..], tail, ctx, frame);
      ClosingWanted(ts, ctx, frame, |r.value|, AToken(RParen), stack);
    } else {
      LocalArgs(ts[2..], tail, ctx, ctx, frame, frame);
    }
  }

  lemma {:induction false} NotCall(ts: seq<Token>, tail: seq<Token>, ctx: Context)
    requires ts != [] && ts[0].Ident? && AllClosers(tail)
    ensures |ts| == 1 ==> ParseCall(ts + tail, ctx).Bad?
  {
    if |ts| == 1 {
      assert (ts + tail)[1] == tail[0];
    }
  }

  lemma {:induction false} CallOpens(ts: seq<Token>, stack: seq<Token>)
    requires ts != [] && ts[0].Ident?
    ensures |ts| > 1 && ts[1] == LParen ==>
              && Open(ts, stack) == Open(ts[2..], stack + [LParen])
              && (WantsKey(ts, stack) <==> WantsKey(ts[2..], stack + [LParen]))
  {
    if |ts| > 1 && ts[1] == LParen {
      assert ts[1..][1..] == ts[2..];
      OpenStep(ts, stack);
      assert Open(ts[1..], stack) == Open(ts[2..], stack + [LParen]);
      OpenNothing(stack + [LParen]);
      hide Open;
      assert Last(stack + [LParen]) == LParen;
      if |ts| > 2 {
        assert Last(ts) == Last(ts[2..]);
      }
    }
  }

  lemma {:induction false} OpenNothing(stack: seq<Token>)
    ensures Open([], stack) == Some(stack)
  {
  }

  /** What is reported of the arguments is reported of the call, which admits them. */
  lemma {:induction false} ArgsInCall(f: Failure, ctx: Context, frame: Frame, n: nat, ts: seq<Token>, stack: seq<Token>)
    requires |ts| > 1 && ArgsReported(f, ctx, frame, n, ts[2..], stack + [LParen]) && n >= frame.arity.min
    requires WantsKey(ts, stack) <==> WantsKey(ts[2..], stack + [LParen])
    ensures Reported(f, ctx, ts, stack)
  {
    hide WantsKey;
  }

  /** Only the parenthesis is missing. */
  lemma {:induction false} ClosingWanted(ts: seq<Token>, ctx: Context, frame: Frame, n: nat, expected: Expected,
                                         stack: seq<Token>)
    requires |ts| > 1 && n >= frame.arity.min
    requires WantsKey(ts, stack) <==> WantsKey(ts[2..], stack + [LParen])
    requires ParseArgs(ts[2..], ctx, frame).Done? && ParseArgs(ts[2..], ctx, frame).rest == []
    ensures Reported(AtEnd(Enter(ctx, frame.(received := n)), expected), ctx, ts, stack)
  {
    hide ParseArgs, Open;
    ArgsKeep(ts[2..], ctx, frame);
    OpenNothing(stack + [LParen]);
    assert Open(ts[2..], stack + [LParen]) == Some(stack + [LParen]);
    assert Last(stack + [LParen]) == LParen;
  }

  lemma {:induction false} ArgsAtEnd(ts: seq<Token>, tail: seq<Token>, ctx: Context, frame: Frame)
    requires AllClosers(tail) && ParseArgs(ts, ctx, frame).Done? && ParseArgs(ts, ctx, frame).rest == []
    ensures ParseArgs(ts + tail, ctx, frame) == Done(ParseArgs(ts, ctx, frame).value, tail)
  {
    hide MoreArgs;
    MoreArgsAtEnd(ts, tail, ctx, frame, []);
    if ts != [] {
      assert (ts + tail)[0] == ts[0];
    } else {
      NoArgument(ctx, frame);
    }
  }

  lemma {:induction false} NoArgument(ctx: Context, frame: Frame)
    ensures MoreArgs([], ctx, frame, []).Bad?
  {
  }

  lemma {:induction false} MoreArgsAtEnd(ts: seq<Token>, tail: seq<Token>, ctx: Context, frame: Frame, got: seq<Term>)
    requires AllClosers(tail)
    ensures var r := MoreArgs(ts, ctx, frame, got);
            r.Done? && r.rest == [] ==> MoreArgs(ts + tail, ctx, frame, got) == Done(r.value, tail)
    decreases |ts|
  {
    hide ParseExpr;
    var inner := Enter(ctx, frame.(received := |got|));
    var r := ParseExpr(ts, inner);
    if r.Done? {
      ReadBefore(ts, tail, inner);
      if r.rest == [] {
        assert r.rest + tail == tail;
      } else {
        assert (r.rest + tail)[0] == r.rest[0] && (r.rest + tail)[1..] == r.rest[1..] + tail;
        ExprLeaves(ts, inner);
        ExprShorter(ts, inner);
        MoreArgsAtEnd(r.rest[1..], tail, ctx, frame, got + [r.value]);
      }
    }
  }

  lemma {:induction false} ExprShorter(ts: seq<Token>, ctx: Context)
    ensures ParseExpr(ts, ctx).Done? ==> |ParseExpr(ts, ctx).rest| < |ts|
  {
    hide ParseExpr;
  }

  lemma {:induction false} CutArgs(ts: seq<Token>, tail: seq<Token>, ctx: Context, frame: Frame, stack: seq<Token>)
    requires AllClosers(tail) && frame.received == 0
    requires ParseArgs(ts, ctx, frame).Bad? && ParseArgs(ts + tail, ctx, frame).Done?
    ensures ArgsReported(ParseArgs(ts, ctx, frame).failure, ctx, frame, |ParseArgs(ts + tail, ctx, frame).value|, ts,
                         stack + [LParen])
    decreases |ts|, 4
  {
    hide MoreArgs, ArgsReported;
    if ts == [] {
      assert ts + tail == tail;
      assert MoreArgs(tail, ctx, frame, []).Bad? by { NotMoreArgs(tail, ctx, frame); }
      FirstArgument(ctx, frame, stack);
    } else {
      assert (ts + tail)[0] == ts[0];
      CutMoreArgs(ts, tail, ctx, frame, [], stack + [LParen]);
    }
  }

  lemma {:induction false} NotMoreArgs(tail: seq<Token>, ctx: Context, frame: Frame)
    requires AllClosers(tail)
    ensures MoreArgs(tail, ctx, frame, []).Bad?
  {
    hide ParseExpr;
    ClosersAreNoExpression(tail, Enter(ctx, frame.(received := 0)));
  }

  lemma {:induction false} FirstArgument(ctx: Context, frame: Frame, stack: seq<Token>)
    requires frame.received == 0
    ensures var r := MoreArgs([], ctx, frame, []);
            r.Bad? && ArgsReported(r.failure, ctx, frame, 0, [], stack + [LParen])
  {
    assert Last(stack + [LParen]) == LParen;
  }

  lemma {:induction false} CutMoreArgs(ts: seq<Token>, tail: seq<Token>, ctx: Context, frame: Frame, got: seq<Term>,
                                       stack: seq<Token>)
    requires AllClosers(tail)
    requires MoreArgs(ts, ctx, frame, got).Bad? && MoreArgs(ts + tail, ctx, frame, got).Done?
    ensures ts != []
    ensures ArgsReported(MoreArgs(ts, ctx, frame, got).failure, ctx, frame,
                         |MoreArgs(ts + tail, ctx, frame, got).value|, ts, stack)
    decreases |ts|, 3
  {
    hide ParseExpr, ArgsReported, Reported, Enter;
    var inner := Enter(ctx, frame.(received := |got|));
    var r := ParseExpr(ts, inner);
    if r.Bad? {
      CutExpr(ts, tail, inner, stack);
      ReadInto(ts, tail, inner);
      InArgument(r.failure, ctx, frame, |got|, ts, stack);
    } else {
      ReadBefore(ts, tail, inner);
      assert (r.rest + tail)[0] == r.rest[0] && (r.rest + tail)[1..] == r.rest[1..] + tail;
      CutMoreArgs(r.rest[1..], tail, ctx, frame, got + [r.value], stack);
      ExprKeeps(ts, inner);
      ExprLeaves(ts, inner);
      PastComma(ts, r.rest, stack);
      SameArgsReport(MoreArgs(ts, ctx, frame, got).failure, ctx, frame,
                     |MoreArgs(ts + tail, ctx, frame, got).value|, r.rest[1..], ts, stack);
    }
  }

  lemma {:induction false} SameArgsReport(f: Failure, ctx: Context, frame: Frame, n: nat, ts: seq<Token>,
                                          ts': seq<Token>, stack: seq<Token>)
    requires ArgsReported(f, ctx, frame, n, ts, stack) && (WantsKey(ts', stack) <==> WantsKey(ts, stack))
    ensures ArgsReported(f, ctx, frame, n, ts', stack)
  {
    hide WantsKey;
  }

  lemma {:induction false} InArgument(f: Failure, ctx: Context, frame: Frame, k: nat, ts: seq<Token>, stack: seq<Token>)
    requires Reported(f, Enter(ctx, frame.(received := k)), ts, stack)
    ensures ArgsReported(f, ctx, frame, k + 1, ts, stack)
  {
    hide WantsKey;
    if f.recovery.Some? {
      var inner, c := Enter(ctx, frame.(received := k)), f.recovery.value.context;
      var at := |ctx.frames|;
      assert c.frames[..at] == c.frames[..at + 1][..at] == ctx.frames;
      assert c.frames[at] == c.frames[..at + 1][at] == frame.(received := k);
    }
  }

  /** Behind an expression and a comma it is as before. */
  lemma {:induction false} PastComma(ts: seq<Token>, rest: seq<Token>, stack: seq<Token>)
    requires IsTail(rest, ts) && rest != [] && rest[0] == Comma && rest[1..] != []
    requires forall st :: Open(ts, st) == Open(rest, st)
    ensures WantsKey(ts, stack) <==> WantsKey(rest[1..], stack)
  {
    OpenStep(rest, stack);
    hide Open;
    assert Last(ts) == Last(rest) == Last(rest[1..]);
  }

  lemma {:induction false} CutArray(ts: seq<Token>, tail: seq<Token>, ctx: Context, stack: seq<Token>)
    requires ts != [] && ts[0] == LBracket && AllClosers(tail)
    requires ParseArray(ts, ctx).Bad? && ParseArray(ts + tail, ctx).Done?
    ensures Reported(ParseArray(ts, ctx).failure, ctx, ts, stack)
    decreases |ts|, 1
  {
    hide MoreItems, Reported, Open;
    var inner := ctx.(brackets := ctx.brackets + 1);
    assert (ts + tail)[0] == ts[0] && (ts + tail)[1..] == ts[1..] + tail;
    assert (ts + tail)[1] == if |ts| > 1 then ts[1] else tail[0];
    Opens(ts, stack);
    if |ts| == 1 {
      assert ts[1..] == [] && [] + tail == tail;
      NoItem(tail, inner);
      FirstItem(ts, ctx, stack);
    } else if ts[1] != RBracket {
      var r := MoreItems(ts[1..], inner, []);
      assert r.Done? && r.rest != [] ==> (r.rest + tail)[0] == r.rest[0];
      if r.Bad? {
        CutItems(ts[1..], tail, inner, [], stack);
        InBrackets(r.failure, ctx, inner, ts, stack);
      } else if r.rest == [] {
        ItemsAtEnd(ts[1..], tail, inner, []);
        ItemsKeep(ts[1..], inner, []);
        OpenNothing(stack + [LBracket]);
        BracketWanted(ts, ctx, stack);
      } else {
        LocalItems(ts[1..], tail, inner, inner, []);
      }
    }
  }

  /** An opening delimiter begins what is inside it. */
  lemma {:induction false} Opens(ts: seq<Token>, stack: seq<Token>)
    requires ts != [] && CloserOf(ts[0]).Some?
    ensures Open(ts, stack) == Open(ts[1..], stack + [ts[0]])
    ensures |ts| > 1 ==> (WantsKey(ts, stack) <==> WantsKey(ts[1..], stack + [ts[0]]))
  {
    if |ts| > 1 {
      assert Last(ts) == Last(ts[1..]);
    }
  }

  lemma {:induction false} NoItem(tail: seq<Token>, ctx: Context)
    requires AllClosers(tail)
    ensures MoreItems(tail, ctx, []).Bad?
  {
    hide ParseExpr;
    ClosersAreNoExpression(tail, ctx);
  }

  lemma {:induction false} FirstItem(ts: seq<Token>, ctx: Context, stack: seq<Token>)
    requires ts == [LBracket] && Open(ts, stack) == Open(ts[1..], stack + [ts[0]])
    ensures ParseArray(ts, ctx).Bad? && Reported(ParseArray(ts, ctx).failure, ctx, ts, stack)
  {
    assert ts[1..] == [];
    OpenNothing(stack + [LBracket]);
    assert Last(stack + [LBracket]) == LBracket;
  }

  lemma {:induction false} InBrackets(f: Failure, ctx: Context, inner: Context, ts: seq<Token>, stack: seq<Token>)
    requires |ts| > 1 && Reported(f, inner, ts[1..], stack + [ts[0]]) && inner.frames == ctx.frames
    requires inner.brackets >= ctx.brackets && inner.braces >= ctx.braces
    requires WantsKey(ts, stack) <==> WantsKey(ts[1..], stack + [ts[0]])
    ensures Reported(f, ctx, ts, stack)
  {
    hide WantsKey;
  }

  lemma {:induction false} BracketWanted(ts: seq<Token>, ctx: Context, stack: seq<Token>)
    requires ts != [] && ts[0] == LBracket && Open(ts, stack) == Some(stack + [LBracket])
    ensures Reported(AtEnd(ctx.(brackets := ctx.brackets + 1), AToken(RBracket)), ctx, ts, stack)
  {
    hide Open;
    assert Last(stack + [LBracket]) == LBracket;
  }

  lemma {:induction false} ItemsAtEnd(ts: seq<Token>, tail: seq<Token>, ctx: Context, got: seq<Term>)
    requires AllClosers(tail)
    ensures var r := MoreItems(ts, ctx, got);
            r.Done? && r.rest == [] ==> MoreItems(ts + tail, ctx, got) == Done(r.value, tail)
    decreases |ts|
  {
    hide ParseExpr;
    var r := ParseExpr(ts, ctx);
    if r.Done? {
      ReadBefore(ts, tail, ctx);
      if r.rest == [] {
        assert r.rest + tail == tail;
      } else {
        assert (r.rest + tail)[0] == r.rest[0] && (r.rest + tail)[1..] == r.rest[1..] + tail;
        assert (r.rest + tail)[1] == if |r.rest| > 1 then r.rest[1] else tail[0];
        ExprShorter(ts, ctx);
        ItemsAtEnd(r.rest[1..], tail, ctx, got + [r.value]);
        if |r.rest| == 1 {
          assert MoreItems([], ctx, got + [r.value]).Bad?;
        }
      }
    }
  }

  lemma {:induction false} CutItems(ts: seq<Token>, tail: seq<Token>, ctx: Context, got: seq<Term>, stack: seq<Token>)
    requires AllClosers(tail) && ctx.brackets > 0
    requires MoreItems(ts, ctx, got).Bad? && MoreItems(ts + tail, ctx, got).Done?
    ensures Reported(MoreItems(ts, ctx, got).failure, ctx, ts, stack + [LBracket])
    decreases |ts|, 3
  {
    hide ParseExpr, Reported, Open;
    var r := ParseExpr(ts, ctx);
    if r.Bad? {
      CutExpr(ts, tail, ctx, stack + [LBracket]);
    } else {
      ReadBefore(ts, tail, ctx);
      assert (r.rest + tail)[0] == r.rest[0] && (r.rest + tail)[1..] == r.rest[1..] + tail;
      assert (r.rest + tail)[1] == if |r.rest| > 1 then r.rest[1] else tail[0];
      ExprKeeps(ts, ctx);
      ExprLeaves(ts, ctx);
      if |r.rest| == 1 {
        NextItem(ts, r.rest, ctx, got + [r.value], stack);
      } else {
        CutItems(r.rest[1..], tail, ctx, got + [r.value], stack);
        PastComma(ts, r.rest, stack + [LBracket]);
        SameReport(MoreItems(ts, ctx, got).failure, ctx, r.rest[1..], ts, stack + [LBracket]);
      }
    }
  }

  lemma {:induction false} SameReport(f: Failure, ctx: Context, ts: seq<Token>, ts': seq<Token>, stack: seq<Token>)
    requires Reported(f, ctx, ts, stack) && (WantsKey(ts', stack) <==> WantsKey(ts, stack))
    ensures Reported(f, ctx, ts', stack)
  {
    hide WantsKey;
  }

  /** Behind a comma at the end an item is wanted. */
  lemma {:induction false} NextItem(ts: seq<Token>, rest: seq<Token>, ctx: Context, got: seq<Term>, stack: seq<Token>)
    requires rest == [Comma] && ctx.brackets > 0 && forall st :: Open(ts, st) == Open(rest, st)
    ensures var r := MoreItems(rest[1..], ctx, got); r.Bad? && Reported(r.failure, ctx, ts, stack + [LBracket])
  {
    OpenStep(rest, stack + [LBracket]);
    OpenNothing(stack + [LBracket]);
    assert rest[1..] == [] && Last(stack + [LBracket]) == LBracket;
    hide Open;
  }

  lemma {:induction false} CutObject(ts: seq<Token>, tail: seq<Token>, ctx: Context, stack: seq<Token>)
    requires ts != [] && ts[0] == LBrace && AllClosers(tail)
    requires ParseObject(ts, ctx).Bad? && ParseObject(ts + tail, ctx).Done?
    ensures Reported(ParseObject(ts, ctx).failure, ctx, ts, stack)
    decreases |ts|, 1
  {
    hide MoreEntries, Reported, Open;
    var inner := ctx.(braces := ctx.braces + 1);
    assert (ts + tail)[0] == ts[0] && (ts + tail)[1..] == ts[1..] + tail;
    assert (ts + tail)[1] == if |ts| > 1 then ts[1] else tail[0];
    Opens(ts, stack);
    if |ts| == 1 {
      FirstKey(ts, ctx, stack);
    } else if ts[1] != RBrace {
      var r := MoreEntries(ts[1..], inner, NoEntries);
      assert r.Done? && r.rest != [] ==> (r.rest + tail)[0] == r.rest[0];
      if r.Bad? {
        CutEntries(ts[1..], tail, inner, NoEntries, stack);
        InBrackets(r.failure, ctx, inner, ts, stack);
      } else if r.rest == [] {
        EntriesAtEnd(ts[1..], tail, inner, NoEntries);
        EntriesKeep(ts[1..], inner, NoEntries);
        EntriesEnd(ts[1..], inner, NoEntries);
        OpenNothing(stack + [LBrace]);
        BraceWanted(ts, ctx, stack);
      } else {
        LocalEntries(ts[1..], tail, inner, inner, NoEntries);
      }
    }
  }

  lemma {:induction false} FirstKey(ts: seq<Token>, ctx: Context, stack: seq<Token>)
    requires ts == [LBrace] && Open(ts, stack) == Open(ts[1..], stack + [ts[0]])
    ensures ParseObject(ts, ctx).Bad? && Reported(ParseObject(ts, ctx).failure, ctx, ts, stack)
  {
    assert ts[1..] == [];
    OpenNothing(stack + [LBrace]);
    assert Last(stack + [LBrace]) == LBrace;
  }

  lemma {:induction false} BraceWanted(ts: seq<Token>, ctx: Context, stack: seq<Token>)
    requires ts != [] && ts[0] == LBrace && Last(ts) !in {LBrace, Comma}
    ensures Reported(AtEnd(ctx.(braces := ctx.braces + 1), AToken(RBrace)), ctx, ts, stack)
  {
    hide Open;
  }

  /** The last token of what has been read ends an expression. */
  predicate EndsWell<T>(ts: seq<Token>, r: Parsed<T>)
  {
    r.Done? ==> |r.rest| < |ts| && ts[|ts| - |r.rest| - 1] !in {LBrace, Comma}
  }

  lemma {:induction false} ExprEndsWell(ts: seq<Token>, ctx: Context)
    ensures EndsWell(ts, ParseExpr(ts, ctx))
  {
    hide ParseCall, ParseArray, ParseObject;
    ExprLeaves(ts, ctx);
    if ts != [] {
      match ts[0]
      case Ident(_) => CallEndsWell(ts, ctx);
      case LBracket => ArrayEndsWell(ts, ctx);
      case LBrace => ObjectEndsWell(ts, ctx);
      case _ =>
    }
  }

  lemma {:induction false} EndsWith(ts: seq<Token>, rest: seq<Token>)
    requires IsTail(rest, ts) && rest != []
    ensures |rest[1..]| < |ts| && ts[|ts| - |rest[1..]| - 1] == rest[0]
  {
  }

  lemma {:induction false} CallEndsWell(ts: seq<Token>, ctx: Context)
    requires ts != [] && ts[0].Ident?
    ensures EndsWell(ts, ParseCall(ts, ctx))
  {
    hide ParseArgs, Dispatch, ArityOf, EntryOf, Admits, RecoveryAt, Enter, IsTail;
    if ParseCall(ts, ctx).Done? {
      var frame := Frame(ts[0].name, 0, EntryOf(ts[0].name).value);
      ArgsLeave(ts[2..], ctx, frame);
      TailRest(ts, 2);
      TailOfTail(ParseArgs(ts[2..], ctx, frame).rest, ts[2..], ts);
      EndsWith(ts, ParseArgs(ts[2..], ctx, frame).rest);
    }
  }

  lemma {:induction false} ArrayEndsWell(ts: seq<Token>, ctx: Context)
    requires ts != [] && ts[0] == LBracket
    ensures EndsWell(ts, ParseArray(ts, ctx))
  {
    hide MoreItems, RecoveryAt, IsTail;
    var inner := ctx.(brackets := ctx.brackets + 1);
    if ParseArray(ts, ctx).Done? {
      TailRest(ts, 1);
      if |ts| > 1 && ts[1] == RBracket {
        EndsWith(ts, ts[1..]);
      } else {
        ItemsLeave(ts[1..], inner, []);
        TailOfTail(MoreItems(ts[1..], inner, []).rest, ts[1..], ts);
        EndsWith(ts, MoreItems(ts[1..], inner, []).rest);
      }
    }
  }

  lemma {:induction false} ObjectEndsWell(ts: seq<Token>, ctx: Context)
    requires ts != [] && ts[0] == LBrace
    ensures EndsWell(ts, ParseObject(ts, ctx))
  {
    hide MoreEntries, RecoveryAt, IsTail;
    var inner := ctx.(braces := ctx.braces + 1);
    if ParseObject(ts, ctx).Done? {
      TailRest(ts, 1);
      if |ts| > 1 && ts[1] == RBrace {
        EndsWith(ts, ts[1..]);
      } else {
        EntriesLeave(ts[1..], inner, NoEntries);
        TailOfTail(MoreEntries(ts[1..], inner, NoEntries).rest, ts[1..], ts);
        EndsWith(ts, MoreEntries(ts[1..], inner, NoEntries).rest);
      }
    }
  }

  lemma {:induction false} EntryEndsWell(ts: seq<Token>, ctx: Context, got: Literal)
    ensures EndsWell(ts, ParseEntry(ts, ctx, got))
  {
    hide ParseExpr, RecoveryAt, AddEntry;
    if ParseEntry(ts, ctx, got).Done? {
      assert ts[1..][1..] == ts[2..];
      ExprEndsWell(ts[2..], ctx);
    }
  }

  lemma {:induction false} EntriesEnd(ts: seq<Token>, ctx: Context, got: Literal)
    ensures var r := MoreEntries(ts, ctx, got);
            r.Done? && r.rest == [] ==> ts != [] && Last(ts) !in {LBrace, Comma}
    decreases |ts|
  {
    hide ParseEntry;
    EntryEndsWell(ts, ctx, got);
    EntryLeaves(ts, ctx, got);
    match ParseEntry(ts, ctx, got)
    case Bad(_) =>
    case Done(entries, rest) =>
      if rest != [] && rest[0] == Comma && !(|rest| > 1 && rest[1] == RBrace) {
        EntriesEnd(rest[1..], ctx, entries);
        TailRest(rest, 1);
        TailOfTail(rest[1..], rest, ts);
      }
  }

  lemma {:induction false} EntryBefore(ts: seq<Token>, tail: seq<Token>, ctx: Context, got: Literal)
    requires ParseEntry(ts, ctx, got).Done?
    ensures var r := ParseEntry(ts, ctx, got); ParseEntry(ts + tail, ctx, got) == Done(r.value, r.rest + tail)
  {
    hide ParseEntry;
    LocalEntry(ts, tail, ctx, ctx, got);
  }

  lemma {:induction false} EntriesAtEnd(ts: seq<Token>, tail: seq<Token>, ctx: Context, got: Literal)
    requires AllClosers(tail)
    ensures var r := MoreEntries(ts, ctx, got);
            r.Done? && r.rest == [] ==> MoreEntries(ts + tail, ctx, got) == Done(r.value, tail)
    decreases |ts|
  {
    hide ParseEntry;
    var r := ParseEntry(ts, ctx, got);
    if r.Done? {
      EntryBefore(ts, tail, ctx, got);
      if r.rest == [] {
        assert r.rest + tail == tail;
      } else {
        assert (r.rest + tail)[0] == r.rest[0] && (r.rest + tail)[1..] == r.rest[1..] + tail;
        assert (r.rest + tail)[1] == if |r.rest| > 1 then r.rest[1] else tail[0];
        EntryEndsWell(ts, ctx, got);
        EntriesAtEnd(r.rest[1..], tail, ctx, r.value);
        if |r.rest| == 1 {
          NoEntry(ctx, r.value);
        }
      }
    }
  }

  lemma {:induction false} NoEntry(ctx: Context, got: Literal)
    ensures MoreEntries([], ctx, got) == Bad(Unexpected)
  {
  }

  lemma {:induction false} NotEntry(ts: seq<Token>, tail: seq<Token>, ctx: Context, got: Literal)
    requires AllClosers(tail)
    ensures |ts| < 2 ==> ParseEntry(ts + tail, ctx, got).Bad?
  {
    hide ParseExpr;
    if |ts| < 2 {
      assert (ts + tail)[|ts|] == tail[0];
    }
  }

  lemma {:induction false} CutEntry(ts: seq<Token>, tail: seq<Token>, ctx: Context, got: Literal, stack: seq<Token>)
    requires AllClosers(tail) && ParseEntry(ts, ctx, got).Bad? && ParseEntry(ts + tail, ctx, got).Done?
    ensures Reported(ParseEntry(ts, ctx, got).failure, ctx, ts, stack)
    decreases |ts|, 2
  {
    hide ParseExpr, Reported, Open, AddEntry;
    NotEntry(ts, tail, ctx, got);
    assert (ts + tail)[0] == ts[0] && (ts + tail)[1..] == ts[1..] + tail && (ts[1..] + tail)[0] == ts[1];
    assert ts[1..][1..] == ts[2..] && (ts[1..] + tail)[1..] == ts[2..] + tail;
    CutExpr(ts[2..], tail, ctx, stack);
    OpenStep(ts, stack);
    OpenStep(ts[1..], stack);
    assert Last(ts) == Last(ts[2..]);
    SameReport(ParseEntry(ts, ctx, got).failure, ctx, ts[2..], ts, stack);
  }

  lemma {:induction false} CutEntries(ts: seq<Token>, tail: seq<Token>, ctx: Context, got: Literal, stack: seq<Token>)
    requires AllClosers(tail) && ctx.braces > 0
    requires MoreEntries(ts, ctx, got).Bad? && MoreEntries(ts + tail, ctx, got).Done?
    ensures Reported(MoreEntries(ts, ctx, got).failure, ctx, ts, stack + [LBrace])
    decreases |ts|, 3
  {
    hide ParseEntry, Reported, Open;
    var r := ParseEntry(ts, ctx, got);
    if r.Bad? {
      CutEntry(ts, tail, ctx, got, stack + [LBrace]);
    } else {
      EntryBefore(ts, tail, ctx, got);
      assert (r.rest + tail)[0] == r.rest[0] && (r.rest + tail)[1..] == r.rest[1..] + tail;
      assert (r.rest + tail)[1] == if |r.rest| > 1 then r.rest[1] else tail[0];
      EntryKeeps(ts, ctx, got);
      EntryLeaves(ts, ctx, got);
      if |r.rest| == 1 {
        NextKey(ts, r.rest, ctx, r.value, stack);
      } else {
        EntryEndsWell(ts, ctx, got);
        CutEntries(r.rest[1..], tail, ctx, r.value, stack);
        PastComma(ts, r.rest, stack + [LBrace]);
        SameReport(MoreEntries(ts, ctx, got).failure, ctx, r.rest[1..], ts, stack + [LBrace]);
      }
    }
  }

  /** Behind a comma at the end a key is wanted. */
  lemma {:induction false} NextKey(ts: seq<Token>, rest: seq<Token>, ctx: Context, got: Literal, stack: seq<Token>)
    requires rest == [Comma] && IsTail(rest, ts) && forall st :: Open(ts, st) == Open(rest, st)
    ensures var r := MoreEntries(rest[1..], ctx, got); r.Bad? && Reported(r.failure, ctx, ts, stack + [LBrace])
  {
    OpenStep(rest, stack + [LBrace]);
    OpenNothing(stack + [LBrace]);
    NoEntry(ctx, got);
    assert rest[1..] == [] && Last(stack + [LBrace]) == LBrace && Last(ts) == Comma;
    hide Open;
  }

  // ----- texts that closing delimiters complete -----

  /** What the parser reports of a text that is not acceptable, and is with closers behind it:
      nothing where a key is wanted; anywhere else the open calls, all of which have enough
      arguments once everything is closed. */
  lemma {:induction false} TruncationReported(ts: seq<Token>, tail: seq<Token>)
    requires AllClosers(tail) && ParseTokens(ts).Bad? && ParseTokens(ts + tail).Done?
    ensures ParseTokens(ts).failure.Syntax?
    ensures var recovery := ParseTokens(ts).failure.recovery;
            && (recovery.None? <==> WantsKey(ts, []))
            && (recovery.Some? ==> recovery.value.autoClosable)
  {
    hide ParseExpr, WantsKey;
    if ParseExpr(ts, Start).Done? {
      ReadBefore(ts, tail, Start);
    } else {
      CutExpr(ts, tail, Start, []);
    }
  }

  /** Closing delimiters behind an acceptable text make it unacceptable. */
  lemma {:induction false} NothingToClose(ts: seq<Token>, tail: seq<Token>)
    requires AllClosers(tail) && ParseTokens(ts).Done?
    ensures ParseTokens(ts + tail).Bad?
  {
    hide ParseExpr;
    ReadBefore(ts, tail, Start);
  }

  // ----- parsing with recovery -----

  /** Where the key of an object entry would have to come: behind a comma or an opening brace,
      with a brace as the innermost open delimiter. */
  predicate EndsAtKey(source: string)
  {
    Lex(source).Some? && WantsKey(Lex(source).value, [])
  }

  lemma {:induction false} SourceReported(source: string, w: string)
    requires Closing(w) && w != [] && Lex(source).Some? && ParseDSL(source + w).Accepted?
    ensures ParseDSL(source).Rejected? && ParseDSL(source).failure.Syntax?
    ensures var recovery := ParseDSL(source).failure.recovery;
            && (recovery.None? <==> EndsAtKey(source)) && (recovery.Some? ==> recovery.value.autoClosable)
    ensures Truncated(ParseDSL(source)) <==> !EndsAtKey(source)
  {
    hide Lex, ParseExpr, WantsKey, Open;
    var ts := Lex(source).value;
    LexClosing(w);
    LexAppend(source, w);
    CloserToksClose(w);
    if ParseTokens(ts).Done? {
      NothingToClose(ts, CloserToks(w));
    }
    TruncationReported(ts, CloserToks(w));
  }

  /** An opening brace is such a source: a closing one would complete it. */
  lemma {:induction false} OpenBrace()
    ensures EndsAtKey("{") && ParseDSL("{" + "}").Accepted?
  {
    hide Lex;
    LexNothing();
    LexPunctuation('{', "");
    LexPunctuation('}', "");
    LexPunctuation('{', "}");
    assert ['{'] + "" == "{" && ['}'] + "" == "}" && ['{'] + "}" == "{" + "}";
    var open := [LBrace];
    assert Lex("{") == Prepend([LBrace], Some([])) == Some(open) by {
      assert [LBrace] + [] == open;
    }
    assert Lex("}") == Prepend([RBrace], Some([])) == Some([RBrace]) by {
      assert [RBrace] + [] == [RBrace];
    }
    assert open[1..] == [] && Open([], [LBrace]) == Some([LBrace]) && [] + [LBrace] == [LBrace];
    assert Open(open, []) == Open(open[1..], [] + [LBrace]);
    var both := [LBrace, RBrace];
    assert Lex("{" + "}") == Prepend([LBrace], Some([RBrace])) == Some(both) by {
      assert [LBrace] + [RBrace] == both;
    }
    assert both[1..] == [RBrace] && [RBrace][1..] == [];
    assert ParseObject(both, Start) == Done(Made(NoEntries), []);
  }

  datatype Recovered = Recovered(outcome: Outcome, repaired: Option<string>) | Raised

  /** `parseDSLWithRecovery`. A source that closing delimiters complete is repaired with exactly
      these, unless it ends where a key is wanted: then its failure says nothing of open calls,
      and it is returned as it is. */
  method ParseWithRecovery(source: string) returns (r: Recovered)
    ensures ParseDSL(source).Accepted? ==> r == Recovered(ParseDSL(source), None)
    ensures forall w: string :: Closing(w) && w != [] && Lex(source).Some? && ParseDSL(source + w).Accepted? ==>
              r == if EndsAtKey(source) then Recovered(ParseDSL(source), None)
                   else Recovered(ParseDSL(source + w), Some(source + w))
    ensures r.Raised? <==>
              ParseDSL(source) == Rejected(Crash) || (Truncated(ParseDSL(source)) && Repaired(source).Raises?)
    ensures r.Recovered? && r.repaired.Some? ==>
              && r.outcome == ParseDSL(r.repaired.value) && r.outcome.Accepted?
              && exists w :: Closing(w) && w != [] && r.repaired.value == source + w
    ensures r.Recovered? && r.repaired.None? ==> r.outcome == ParseDSL(source)
  {
    hide ParseDSL, Lex, Open, Closers, EndsAtKey;
    forall w | Closing(w) && w != [] && Lex(source).Some? && ParseDSL(source + w).Accepted?
      ensures Repaired(source) == Fixed(source + w)
      ensures ParseDSL(source).Rejected? && ParseDSL(source).failure.Syntax?
      ensures Truncated(ParseDSL(source)) <==> !EndsAtKey(source)
    {
      RepairComplete(source, w);
      SourceReported(source, w);
    }
    var first := ParseSource(source);
    if first.Rejected? && first.failure.Crash? {
      return Raised;
    }
    if !Truncated(first) {
      return Recovered(first, None);
    }
    var repaired := TryAutoClose(source);
    if repaired.Raises? {
      return Raised;
    }
    if repaired.Unrepairable? {
      return Recovered(first, None);
    }
    RepairCloses(source);
    var second := ParseSource(repaired.text);
    if second.Rejected? {
      return Recovered(first, None);
    }
    r := Recovered(second, Some(repaired.text));
  }

  /** A repair of what is not acceptable appends closing delimiters. */
  lemma {:induction false} RepairCloses(source: string)
    requires Repaired(source).Fixed?
    ensures Repaired(source).text == source ||
            exists w :: Closing(w) && w != [] && Repaired(source).text == source + w
  {
    hide Lex, Open, ParseDSL;
    var stack := Open(Lex(source).value, []).value;
    if stack != [] {
      ClosersClosing(stack);
    }
  }
}
