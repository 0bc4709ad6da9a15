/** When parsing raises an exception that is no syntax error: at the first call of a name that
    the table of constructors inherits, once its arguments have been read. */
module ParserCrash {
  import opened Text
  import opened Lexer
  import opened Term
  import opened Parser

  // ----- the condition -----

  /** At `i` an inherited name is followed by an opening parenthesis. */
  predicate InheritedCall(ts: seq<Token>, i: nat)
  {
    i + 1 < |ts| && ts[i].Ident? && Inherited(ts[i].name) && ts[i + 1] == LParen
  }

  /** The tokens after an opening parenthesis begin with an argument list and its closing
      parenthesis. */
  predicate ArgumentsClose(ts: seq<Token>)
  {
    var r := ParseArgs(ts, Start, Frame("", 0, Arity(0, None)));
    r.Done? && r.rest != [] && r.rest[0] == RParen
  }

  /** The input ends too early: an expression would have to come. */
  predicate WantsExpression<T>(r: Parsed<T>)
  {
    r.Bad? && r.failure.Syntax? && r.failure.recovery.Some? && r.failure.recovery.value.expected == AnExpression
  }

  /** At `i` stands a complete call of an inherited name, and the text before it is fine as
      far as it goes. */
  predicate CrashSite(ts: seq<Token>, i: nat)
  {
    InheritedCall(ts, i) && ArgumentsClose(ts[i + 2..]) && WantsExpression(ParseTokens(ts[..i]))
  }

  // ----- reading depends on the tokens that are read -----

  /** With more behind it, the same is read; and what is read from a longer text without
      reaching its tail is read from the text without it. Lists look at one more token. */
  ghost predicate Local<T>(r: Parsed<T>, r': Parsed<T>, b: seq<Token>, peek: nat)
  {
    && (r.Done? && |r.rest| >= peek ==> r' == Done(r.value, r.rest + b))
    && (r'.Done? && |r'.rest| >= |b| + peek ==> r.Done? && |r.rest| + |b| == |r'.rest|)
  }

  lemma {:induction false} LocalExpr(a: seq<Token>, b: seq<Token>, ctx: Context, ctx': Context)
    ensures Local(ParseExpr(a, ctx), ParseExpr(a + b, ctx'), b, 0)
    decreases |a|, 2
  {
    hide ParseCall, ParseArray, ParseObject, RecoveryAt;
    if a != [] {
      assert (a + b)[0] == a[0] && (a + b)[1..] == a[1..] + b;
      match a[0]
      case Ident(_) => LocalCall(a, b, ctx, ctx');
      case LBracket => LocalArray(a, b, ctx, ctx');
      case LBrace => LocalObject(a, b, ctx, ctx');
      case _ =>
    }
  }

  lemma {:induction false} LocalCall(a: seq<Token>, b: seq<Token>, ctx: Context, ctx': Context)
    requires a != [] && a[0].Ident?
    ensures Local(ParseCall(a, ctx), ParseCall(a + b, ctx'), b, 0)
    decreases |a|, 1
  {
    hide ParseArgs, Dispatch, ArityOf, EntryOf, Admits, RecoveryAt, Enter;
    assert (a + b)[0] == a[0];
    if |a| >= 2 && a[1] == LParen && EntryOf(a[0].name).Some? {
      var frame := Frame(a[0].name, 0, EntryOf(a[0].name).value);
      assert (a + b)[1] == a[1] && (a + b)[2..] == a[2..] + b;
      LocalArgs(a[2..], b, ctx, ctx', frame, frame);
      var r, r' := ParseArgs(a[2..], ctx, frame), ParseArgs(a[2..] + b, ctx', frame);
      if r.Done? && r.rest != [] {
        assert (r.rest + b)[0] == r.rest[0] && (r.rest + b)[1..] == r.rest[1..] + b;
      }
    }
  }

  lemma {:induction false} LocalArgs(a: seq<Token>, b: seq<Token>, ctx: Context, ctx': Context, f: Frame, f': Frame)
    ensures Local(ParseArgs(a, ctx, f), ParseArgs(a + b, ctx', f'), b, 1)
    decreases |a|, 4
  {
    hide MoreArgs;
    if a != [] {
      assert (a + b)[0] == a[0];
    }
    LocalMoreArgs(a, b, ctx, ctx', f, f', []);
  }

  lemma {:induction false} LocalMoreArgs(a: seq<Token>, b: seq<Token>, ctx: Context, ctx': Context, f: Frame, f': Frame,
                                         got: seq<Term>)
    ensures Local(MoreArgs(a, ctx, f, got), MoreArgs(a + b, ctx', f', got), b, 1)
    decreases |a|, 3
  {
    hide ParseExpr;
    var inner, inner' := Enter(ctx, f.(received := |got|)), Enter(ctx', f'.(received := |got|));
    LocalExpr(a, b, inner, inner');
    var r := ParseExpr(a, inner);
    if r.Done? && r.rest != [] {
      assert (r.rest + b)[0] == r.rest[0] && (r.rest + b)[1..] == r.rest[1..] + b;
      if r.rest[0] == Comma {
        LocalMoreArgs(r.rest[1..], b, ctx, ctx', f, f', got + [r.value]);
      }
    }
  }

  lemma {:induction false} LocalArray(a: seq<Token>, b: seq<Token>, ctx: Context, ctx': Context)
    requires a != [] && a[0] == LBracket
    ensures Local(ParseArray(a, ctx), ParseArray(a + b, ctx'), b, 0)
    decreases |a|, 1
  {
    hide MoreItems, RecoveryAt;
    var inner, inner' := ctx.(brackets := ctx.brackets + 1), ctx'.(brackets := ctx'.brackets + 1);
    assert (a + b)[0] == a[0] && (a + b)[1..] == a[1..] + b;
    LocalItems(a[1..], b, inner, inner', []);
    if |a| > 1 {
      assert (a + b)[1] == a[1] && (a[1..] + b)[1..] == a[1..][1..] + b;
    }
    var r := MoreItems(a[1..], inner, []);
    if r.Done? && r.rest != [] {
      assert (r.rest + b)[0] == r.rest[0] && (r.rest + b)[1..] == r.rest[1..] + b;
    }
  }

  lemma {:induction false} LocalItems(a: seq<Token>, b: seq<Token>, ctx: Context, ctx': Context, got: seq<Term>)
    ensures Local(MoreItems(a, ctx, got), MoreItems(a + b, ctx', got), b, 1)
    decreases |a|, 3
  {
    hide ParseExpr;
    LocalExpr(a, b, ctx, ctx');
    var r := ParseExpr(a, ctx);
    if r.Done? && r.rest != [] {
      assert (r.rest + b)[0] == r.rest[0] && (r.rest + b)[1..] == r.rest[1..] + b;
      LocalItems(r.rest[1..], b, ctx, ctx', got + [r.value]);
      if |r.rest| > 1 {
        assert (r.rest + b)[1] == r.rest[1];
      }
    }
  }

  lemma {:induction false} LocalObject(a: seq<Token>, b: seq<Token>, ctx: Context, ctx': Context)
    requires a != [] && a[0] == LBrace
    ensures Local(ParseObject(a, ctx), ParseObject(a + b, ctx'), b, 0)
    decreases |a|, 1
  {
    hide MoreEntries, RecoveryAt;
    var inner, inner' := ctx.(braces := ctx.braces + 1), ctx'.(braces := ctx'.braces + 1);
    assert (a + b)[0] == a[0] && (a + b)[1..] == a[1..] + b;
    LocalEntries(a[1..], b, inner, inner', NoEntries);
    if |a| > 1 {
      assert (a + b)[1] == a[1] && (a[1..] + b)[1..] == a[1..][1..] + b;
    }
    var r := MoreEntries(a[1..], inner, NoEntries);
    if r.Done? && r.rest != [] {
      assert (r.rest + b)[0] == r.rest[0] && (r.rest + b)[1..] == r.rest[1..] + b;
    }
  }

  lemma {:induction false} LocalEntry(a: seq<Token>, b: seq<Token>, ctx: Context, ctx': Context, got: Literal)
    ensures Local(ParseEntry(a, ctx, got), ParseEntry(a + b, ctx', got), b, 0)
    decreases |a|, 2
  {
    hide ParseExpr, RecoveryAt, AddEntry;
    if a != [] {
      assert (a + b)[0] == a[0] && (a + b)[1..] == a[1..] + b;
      if |a| > 1 {
        assert (a[1..] + b)[0] == a[1] && (a[1..] + b)[1..] == a[1..][1..] + b;
        LocalExpr(a[1..][1..], b, ctx, ctx');
      }
    }
  }

  lemma {:induction false} LocalEntries(a: seq<Token>, b: seq<Token>, ctx: Context, ctx': Context, got: Literal)
    ensures Local(MoreEntries(a, ctx, got), MoreEntries(a + b, ctx', got), b, 1)
    decreases |a|, 3
  {
    hide ParseEntry;
    LocalEntry(a, b, ctx, ctx', got);
    var r := ParseEntry(a, ctx, got);
    if r.Done? && r.rest != [] {
      assert (r.rest + b)[0] == r.rest[0] && (r.rest + b)[1..] == r.rest[1..] + b;
      LocalEntries(r.rest[1..], b, ctx, ctx', r.value);
      if |r.rest| > 1 {
        assert (r.rest + b)[1] == r.rest[1];
      }
    }
  }

  // ----- a call behind a text that is fine as far as it goes -----

  lemma {:induction false} InheritedNames(name: string)
    requires Inherited(name)
    ensures ArityOf(name).None? && EntryOf(name) == Some(Arity(0, None))
    ensures name !in {"true", "false", "null", "undefined"}
  {
  }

  /** A complete call of an inherited name raises the exception. */
  lemma {:induction false} CallCrashes(ts: seq<Token>, ctx: Context)
    requires InheritedCall(ts, 0) && ArgumentsClose(ts[2..])
    ensures ParseExpr(ts, ctx) == Bad(Crash)
  {
    hide ParseArgs, Inherited, ArityOf, EntryOf, Dispatch, RecoveryAt, Enter;
    var name := ts[0].name;
    InheritedNames(name);
    var frame := Frame(name, 0, Arity(0, None));
    LocalArgs(ts[2..], [], Start, ctx, Frame("", 0, Arity(0, None)), frame);
    assert ts[2..] + [] == ts[2..];
    var r := ParseArgs(ts[2..], Start, Frame("", 0, Arity(0, None)));
    assert r.rest + [] == r.rest;
  }

  /** Such a call where an expression is wanted. */
  predicate Call(tail: seq<Token>) { InheritedCall(tail, 0) && ArgumentsClose(tail[2..]) }

  /** With the call behind it, a text that wanted an expression crashes. */
  predicate Hits<T>(r: Parsed<T>, r': Parsed<T>)
  {
    WantsExpression(r) ==> r'.Bad? && r'.failure.Crash?
  }

  lemma {:induction false} HitsExpr(p: seq<Token>, tail: seq<Token>, ctx: Context)
    requires Call(tail)
    ensures Hits(ParseExpr(p, ctx), ParseExpr(p + tail, ctx))
    decreases |p|, 2
  {
    hide ParseCall, ParseArray, ParseObject, Call;
    if p == [] {
      assert p + tail == tail;
      assert ParseExpr(tail, ctx) == Bad(Crash) by {
        CallNow(tail, ctx);
      }
    } else {
      assert (p + tail)[0] == p[0];
      match p[0]
      case Ident(_) => HitsCall(p, tail, ctx);
      case LBracket => HitsArray(p, tail, ctx);
      case LBrace => HitsObject(p, tail, ctx);
      case _ =>
    }
  }

  lemma {:induction false} CallNow(tail: seq<Token>, ctx: Context)
    requires Call(tail)
    ensures ParseExpr(tail, ctx) == Bad(Crash) && tail != [] && tail[0].Ident?
  {
    hide ParseExpr, ArgumentsClose;
    CallCrashes(tail, ctx);
  }

  lemma {:induction false} HitsCall(p: seq<Token>, tail: seq<Token>, ctx: Context)
    requires Call(tail) && p != [] && p[0].Ident?
    ensures Hits(ParseCall(p, ctx), ParseCall(p + tail, ctx))
    decreases |p|, 1
  {
    hide ParseArgs, Dispatch, ArityOf, EntryOf, Admits, Enter, Call;
    assert (p + tail)[0] == p[0];
    if |p| >= 2 && p[1] == LParen && EntryOf(p[0].name).Some? {
      var frame := Frame(p[0].name, 0, EntryOf(p[0].name).value);
      assert (p + tail)[1] == p[1] && (p + tail)[2..] == p[2..] + tail;
      HitsArgs(p[2..], tail, ctx, frame);
    }
  }

  lemma {:induction false} HitsArgs(p: seq<Token>, tail: seq<Token>, ctx: Context, frame: Frame)
    requires Call(tail)
    ensures Hits(ParseArgs(p, ctx, frame), ParseArgs(p + tail, ctx, frame))
    decreases |p|, 4
  {
    hide MoreArgs, Call;
    CallNow(tail, ctx);
    assert (p + tail)[0] == if p == [] then tail[0] else p[0];
    HitsMoreArgs(p, tail, ctx, frame, []);
  }

  lemma {:induction false} HitsMoreArgs(p: seq<Token>, tail: seq<Token>, ctx: Context, frame: Frame, got: seq<Term>)
    requires Call(tail)
    ensures Hits(MoreArgs(p, ctx, frame, got), MoreArgs(p + tail, ctx, frame, got))
    decreases |p|, 3
  {
    hide ParseExpr, Call;
    var inner := Enter(ctx, frame.(received := |got|));
    HitsExpr(p, tail, inner);
    LocalExpr(p, tail, inner, inner);
    var r := ParseExpr(p, inner);
    if r.Done? && r.rest != [] && r.rest[0] == Comma {
      assert (r.rest + tail)[0] == r.rest[0] && (r.rest + tail)[1..] == r.rest[1..] + tail;
      HitsMoreArgs(r.rest[1..], tail, ctx, frame, got + [r.value]);
    }
  }

  lemma {:induction false} HitsArray(p: seq<Token>, tail: seq<Token>, ctx: Context)
    requires Call(tail) && p != [] && p[0] == LBracket
    ensures Hits(ParseArray(p, ctx), ParseArray(p + tail, ctx))
    decreases |p|, 1
  {
    hide MoreItems, Call;
    var inner := ctx.(brackets := ctx.brackets + 1);
    CallNow(tail, ctx);
    assert (p + tail)[0] == p[0] && (p + tail)[1..] == p[1..] + tail;
    assert (p + tail)[1] == if |p| > 1 then p[1] else tail[0];
    HitsItems(p[1..], tail, inner, []);
  }

  lemma {:induction false} HitsItems(p: seq<Token>, tail: seq<Token>, ctx: Context, got: seq<Term>)
    requires Call(tail)
    ensures Hits(MoreItems(p, ctx, got), MoreItems(p + tail, ctx, got))
    decreases |p|, 3
  {
    hide ParseExpr, Call;
    CallNow(tail, ctx);
    HitsExpr(p, tail, ctx);
    LocalExpr(p, tail, ctx, ctx);
    var r := ParseExpr(p, ctx);
    if r.Done? && r.rest != [] {
      assert (r.rest + tail)[0] == r.rest[0] && (r.rest + tail)[1..] == r.rest[1..] + tail;
      assert (r.rest + tail)[1] == if |r.rest| > 1 then r.rest[1] else tail[0];
      HitsItems(r.rest[1..], tail, ctx, got + [r.value]);
    }
  }

  lemma {:induction false} HitsObject(p: seq<Token>, tail: seq<Token>, ctx: Context)
    requires Call(tail) && p != [] && p[0] == LBrace
    ensures Hits(ParseObject(p, ctx), ParseObject(p + tail, ctx))
    decreases |p|, 1
  {
    hide MoreEntries, Call;
    var inner := ctx.(braces := ctx.braces + 1);
    CallNow(tail, ctx);
    assert (p + tail)[0] == p[0] && (p + tail)[1..] == p[1..] + tail;
    assert (p + tail)[1] == if |p| > 1 then p[1] else tail[0];
    HitsEntries(p[1..], tail, inner, NoEntries);
  }

  lemma {:induction false} HitsEntry(p: seq<Token>, tail: seq<Token>, ctx: Context, got: Literal)
    requires Call(tail)
    ensures Hits(ParseEntry(p, ctx, got), ParseEntry(p + tail, ctx, got))
    decreases |p|, 2
  {
    hide ParseExpr, AddEntry, Call;
    if p != [] {
      assert (p + tail)[0] == p[0] && (p + tail)[1..] == p[1..] + tail;
      if |p| > 1 {
        assert (p[1..] + tail)[0] == p[1] && (p[1..] + tail)[1..] == p[1..][1..] + tail;
        HitsExpr(p[1..][1..], tail, ctx);
      }
    }
  }

  lemma {:induction false} HitsEntries(p: seq<Token>, tail: seq<Token>, ctx: Context, got: Literal)
    requires Call(tail)
    ensures Hits(MoreEntries(p, ctx, got), MoreEntries(p + tail, ctx, got))
    decreases |p|, 3
  {
    hide ParseEntry, Call;
    CallNow(tail, ctx);
    HitsEntry(p, tail, ctx, got);
    LocalEntry(p, tail, ctx, ctx, got);
    var r := ParseEntry(p, ctx, got);
    if r.Done? && r.rest != [] {
      assert (r.rest + tail)[0] == r.rest[0] && (r.rest + tail)[1..] == r.rest[1..] + tail;
      assert (r.rest + tail)[1] == if |r.rest| > 1 then r.rest[1] else tail[0];
      HitsEntries(r.rest[1..], tail, ctx, r.value);
    }
  }

  // ----- a crash has such a call behind it -----

  /** The parse `r'` of the text up to `i` wants an expression where a call stands. */
  predicate FoundAt<T>(ts: seq<Token>, i: nat, r': Parsed<T>)
  {
    i < |ts| && Call(ts[i..]) && WantsExpression(r')
  }

  lemma {:induction false} FoundExpr(ts: seq<Token>, ctx: Context) returns (i: nat)
    requires ParseExpr(ts, ctx) == Bad(Crash)
    ensures i < |ts| && FoundAt(ts, i, ParseExpr(ts[..i], ctx))
    decreases |ts|, 2
  {
    hide ParseCall, ParseArray, ParseObject, Call;
    if ts[0].Ident? {
      if CrashesHere(ts, ctx) {
        i := 0;
        HereCall(ts, ctx);
        assert ts[0..] == ts && ts[..0] == [];
      } else {
        i := FoundCall(ts, ctx);
        assert ts[..i][0] == ts[0];
      }
    } else if ts[0] == LBracket {
      i := FoundArray(ts, ctx);
      assert ts[..i][0] == ts[0];
    } else {
      i := FoundObject(ts, ctx);
      assert ts[..i][0] == ts[0];
    }
  }

  /** The first token begins the call that crashes. */
  predicate CrashesHere(ts: seq<Token>, ctx: Context)
    requires ts != [] && ts[0].Ident?
  {
    |ts| >= 2 && ts[1] == LParen && EntryOf(ts[0].name).Some? &&
    ParseArgs(ts[2..], ctx, Frame(ts[0].name, 0, EntryOf(ts[0].name).value)).Done?
  }

  lemma {:induction false} HereCall(ts: seq<Token>, ctx: Context)
    requires ts != [] && ts[0].Ident? && CrashesHere(ts, ctx) && ParseCall(ts, ctx) == Bad(Crash)
    ensures Call(ts)
  {
    hide ParseArgs, Dispatch, Admits, Enter, RecoveryAt;
    var name := ts[0].name;
    var frame := Frame(name, 0, EntryOf(name).value);
    LocalArgs(ts[2..], [], ctx, Start, frame, Frame("", 0, Arity(0, None)));
    assert ts[2..] + [] == ts[2..];
    var r := ParseArgs(ts[2..], ctx, frame);
    assert r.rest + [] == r.rest;
  }

  lemma {:induction false} FoundCall(ts: seq<Token>, ctx: Context) returns (i: nat)
    requires ts != [] && ts[0].Ident? && ParseCall(ts, ctx) == Bad(Crash) && !CrashesHere(ts, ctx)
    ensures 0 < i < |ts| && FoundAt(ts, i, ParseCall(ts[..i], ctx))
    decreases |ts|, 1
  {
    hide ParseArgs, Dispatch, ArityOf, EntryOf, Admits, Enter, Call, RecoveryAt;
    var frame := Frame(ts[0].name, 0, EntryOf(ts[0].name).value);
    var j := FoundArgs(ts[2..], ctx, frame);
    i := j + 2;
    assert ts[..i][0] == ts[0] && ts[..i][1] == ts[1] && ts[..i][2..] == ts[2..][..j] && ts[i..] == ts[2..][j..];
  }

  lemma {:induction false} FoundArgs(ts: seq<Token>, ctx: Context, frame: Frame) returns (i: nat)
    requires ParseArgs(ts, ctx, frame) == Bad(Crash)
    ensures i < |ts| && FoundAt(ts, i, ParseArgs(ts[..i], ctx, frame))
    decreases |ts|, 4
  {
    hide MoreArgs, Call;
    i := FoundMoreArgs(ts, ctx, frame, []);
    if i > 0 {
      assert ts[..i][0] == ts[0];
    }
  }

  lemma {:induction false} FoundMoreArgs(ts: seq<Token>, ctx: Context, frame: Frame, got: seq<Term>) returns (i: nat)
    requires MoreArgs(ts, ctx, frame, got) == Bad(Crash)
    ensures i < |ts| && FoundAt(ts, i, MoreArgs(ts[..i], ctx, frame, got))
    decreases |ts|, 3
  {
    hide ParseExpr, Call;
    var inner := Enter(ctx, frame.(received := |got|));
    var r := ParseExpr(ts, inner);
    if r.Bad? {
      i := FoundExpr(ts, inner);
    } else {
      var j := FoundMoreArgs(r.rest[1..], ctx, frame, got + [r.value]);
      i := |ts| - |r.rest| + 1 + j;
      CutExpr(ts, inner, i);
      var r' := ParseExpr(ts[..i], inner);
      assert r'.rest[1..] == r.rest[1..][..j] && ts[i..] == r.rest[1..][j..];
    }
  }

  /** What is read of a text is its beginning. */
  lemma {:induction false} CutExpr(ts: seq<Token>, ctx: Context, i: nat)
    requires ParseExpr(ts, ctx).Done? && |ts| - |ParseExpr(ts, ctx).rest| <= i <= |ts|
    ensures var r, n := ParseExpr(ts, ctx), |ts| - |ParseExpr(ts, ctx).rest|;
            ParseExpr(ts[..i], ctx) == Done(r.value, ts[n..i]) && r.rest == ts[n..]
  {
    hide ParseExpr;
    assert ts[..i] + ts[i..] == ts;
    LocalExpr(ts[..i], ts[i..], ctx, ctx);
    var r := ParseExpr(ts, ctx);
    var n := |ts| - |r.rest|;
    assert ts[..n] + ts[n..] == ts;
    LocalExpr(ts[..n], ts[n..], ctx, ctx);
    LocalExpr(ts[..n], ts[n..i], ctx, ctx);
    assert ts[..n] + ts[n..i] == ts[..i];
  }

  lemma {:induction false} FoundArray(ts: seq<Token>, ctx: Context) returns (i: nat)
    requires ts != [] && ts[0] == LBracket && ParseArray(ts, ctx) == Bad(Crash)
    ensures 0 < i < |ts| && FoundAt(ts, i, ParseArray(ts[..i], ctx))
    decreases |ts|, 1
  {
    hide MoreItems, Call, RecoveryAt;
    var inner := ctx.(brackets := ctx.brackets + 1);
    var j := FoundItems(ts[1..], inner, []);
    i := j + 1;
    assert ts[..i][0] == ts[0] && ts[..i][1..] == ts[1..][..j] && ts[i..] == ts[1..][j..];
    assert i > 1 ==> ts[..i][1] == ts[1];
  }

  lemma {:induction false} FoundItems(ts: seq<Token>, ctx: Context, got: seq<Term>) returns (i: nat)
    requires MoreItems(ts, ctx, got) == Bad(Crash)
    ensures i < |ts| && FoundAt(ts, i, MoreItems(ts[..i], ctx, got))
    decreases |ts|, 3
  {
    hide ParseExpr, Call;
    var r := ParseExpr(ts, ctx);
    if r.Bad? {
      i := FoundExpr(ts, ctx);
    } else {
      var j := FoundItems(r.rest[1..], ctx, got + [r.value]);
      i := |ts| - |r.rest| + 1 + j;
      CutExpr(ts, ctx, i);
      var r' := ParseExpr(ts[..i], ctx);
      assert r'.rest[1..] == r.rest[1..][..j] && ts[i..] == r.rest[1..][j..];
      assert j > 0 ==> r'.rest[1] == r.rest[1];
    }
  }

  lemma {:induction false} FoundObject(ts: seq<Token>, ctx: Context) returns (i: nat)
    requires ts != [] && ts[0] == LBrace && ParseObject(ts, ctx) == Bad(Crash)
    ensures 0 < i < |ts| && FoundAt(ts, i, ParseObject(ts[..i], ctx))
    decreases |ts|, 1
  {
    hide MoreEntries, Call, RecoveryAt;
    var inner := ctx.(braces := ctx.braces + 1);
    var j := FoundEntries(ts[1..], inner, NoEntries);
    i := j + 1;
    assert ts[..i][0] == ts[0] && ts[..i][1..] == ts[1..][..j] && ts[i..] == ts[1..][j..];
    assert i > 1 ==> ts[..i][1] == ts[1];
  }

  lemma {:induction false} FoundEntry(ts: seq<Token>, ctx: Context, got: Literal) returns (i: nat)
    requires ParseEntry(ts, ctx, got) == Bad(Crash)
    ensures i < |ts| && FoundAt(ts, i, ParseEntry(ts[..i], ctx, got))
    decreases |ts|, 2
  {
    hide ParseExpr, AddEntry, Call, RecoveryAt;
    var j := FoundExpr(ts[1..][1..], ctx);
    i := j + 2;
    assert ts[..i][0] == ts[0] && ts[..i][1..][0] == ts[1] && ts[..i][1..][1..] == ts[1..][1..][..j];
    assert ts[i..] == ts[1..][1..][j..];
  }

  lemma {:induction false} FoundEntries(ts: seq<Token>, ctx: Context, got: Literal) returns (i: nat)
    requires MoreEntries(ts, ctx, got) == Bad(Crash)
    ensures i < |ts| && FoundAt(ts, i, MoreEntries(ts[..i], ctx, got))
    decreases |ts|, 3
  {
    hide ParseEntry, Call;
    var r := ParseEntry(ts, ctx, got);
    if r.Bad? {
      i := FoundEntry(ts, ctx, got);
    } else {
      var j := FoundEntries(r.rest[1..], ctx, r.value);
      i := |ts| - |r.rest| + 1 + j;
      CutEntry(ts, ctx, got, i);
      var r' := ParseEntry(ts[..i], ctx, got);
      assert r'.rest[1..] == r.rest[1..][..j] && ts[i..] == r.rest[1..][j..];
      assert j > 0 ==> r'.rest[1] == r.rest[1];
    }
  }

  lemma {:induction false} CutEntry(ts: seq<Token>, ctx: Context, got: Literal, i: nat)
    requires ParseEntry(ts, ctx, got).Done? && |ts| - |ParseEntry(ts, ctx, got).rest| <= i <= |ts|
    ensures var r, n := ParseEntry(ts, ctx, got), |ts| - |ParseEntry(ts, ctx, got).rest|;
            ParseEntry(ts[..i], ctx, got) == Done(r.value, ts[n..i]) && r.rest == ts[n..]
  {
    hide ParseEntry;
    assert ts[..i] + ts[i..] == ts;
    LocalEntry(ts[..i], ts[i..], ctx, ctx, got);
    var r := ParseEntry(ts, ctx, got);
    var n := |ts| - |r.rest|;
    assert ts[..n] + ts[n..] == ts;
    LocalEntry(ts[..n], ts[n..], ctx, ctx, got);
    LocalEntry(ts[..n], ts[n..i], ctx, ctx, got);
    assert ts[..n] + ts[n..i] == ts[..i];
  }

  // ----- the whole -----

  /** Parsing raises an exception that is no syntax error exactly when somewhere stands a
      complete call of an inherited name, behind a text that is fine as far as it goes and
      wants an expression there. */
  lemma {:induction false} CrashesExactly(source: string)
    ensures ParseDSL(source) == Rejected(Crash) <==>
            Lex(source).Some? && exists i: nat :: i < |Lex(source).value| && CrashSite(Lex(source).value, i)
  {
    hide Lex, ParseExpr, ParseArgs, Inherited;
    if ParseDSL(source) == Rejected(Crash) {
      var ts := Lex(source).value;
      var i := FoundExpr(ts, Start);
      assert ts[i..][2..] == ts[i + 2..] && ts[i..][0] == ts[i] && ts[i..][1] == ts[i + 1];
      assert CrashSite(ts, i);
    }
    if Lex(source).Some? {
      var ts := Lex(source).value;
      forall i: nat | i < |ts| && CrashSite(ts, i) ensures ParseDSL(source) == Rejected(Crash) {
        assert ts[i..][2..] == ts[i + 2..] && ts[i..][0] == ts[i] && ts[i..][1] == ts[i + 1];
        HitsExpr(ts[..i], ts[i..], Start);
        assert ts[..i] + ts[i..] == ts;
      }
    }
  }

  /** So it never happens where no inherited name is followed by a parenthesis. */
  lemma {:induction false} NeverCrashes(source: string)
    requires Lex(source).Some? ==> forall i: nat :: i < |Lex(source).value| ==> !InheritedCall(Lex(source).value, i)
    ensures ParseDSL(source) != Rejected(Crash)
  {
    hide Lex, ParseDSL, Inherited;
    CrashesExactly(source);
  }
}
