/** The parser as it runs: a position in the token list, a stack of open calls and three
    depth counters, moved on while descending. */
module ParserState {
  import opened Text
  import opened Lexer
  import opened Term
  import opened Parser

  datatype Result<T> = Ok(value: T) | Error(failure: Failure)

  /** What a parsing method must do, given what the parser function does from where it stands. */
  ghost predicate Follows<T>(spec: Parsed<T>, r: Result<T>, left: seq<Token>, ctx: Context, ctx': Context)
  {
    match spec
    case Done(t, rest) => r == Ok(t) && left == rest && ctx' == ctx
    case Bad(f) => r == Error(f)
  }

  class State {
    const tokens: seq<Token>
    var pos: nat
    var frameStack: seq<Frame>
    var parenDepth: nat
    var bracketDepth: nat
    var braceDepth: nat

    ghost predicate Valid()
      reads this
    {
      pos <= |tokens|
    }

    ghost function Left(): seq<Token>
      reads this
      requires Valid()
    {
      tokens[pos..]
    }

    ghost function Here(): Context
      reads this
    {
      Context(frameStack, parenDepth, bracketDepth, braceDepth)
    }

    constructor (ts: seq<Token>)
      ensures Valid() && tokens == ts && Left() == ts && Here() == Start
    {
      tokens := ts;
      pos, frameStack, parenDepth, bracketDepth, braceDepth := 0, [], 0, 0, 0;
    }

    /** Simulates closing whatever is open, innermost first. It can be closed exactly when each
        call has enough arguments with one more for what is open inside it. */
    method BuildRecoveryInfo(expected: Expected) returns (r: Recovery)
      ensures r == RecoveryAt(Here(), expected)
      ensures r.context == Here()
      ensures var n := |frameStack|;
              r.autoClosable <==>
              forall i :: 0 <= i < n ==>
                frameStack[i].received + (if i < n - 1 || bracketDepth > 0 || braceDepth > 0 then 1 else 0)
                  >= frameStack[i].arity.min
    {
      var pending := if bracketDepth + braceDepth > 0 then 1 else 0;
      var autoClosable := true;
      var i := |frameStack|;
      while i > 0
        invariant 0 <= i <= |frameStack| && autoClosable
        invariant pending == if i < |frameStack| || bracketDepth + braceDepth > 0 then 1 else 0
        invariant forall j :: i <= j < |frameStack| ==> Enough(Here(), j)
        decreases i
      {
        i := i - 1;
        var f := frameStack[i];
        if f.received + pending < f.arity.min {
          autoClosable := false;
          assert !Enough(Here(), i);
          break;
        }
        pending := 1;
      }
      r := Recovery(expected, Context(frameStack, parenDepth, bracketDepth, braceDepth), autoClosable);
      assert autoClosable <==> EachEnough(Here());
      EnoughByPlace(Here());
    }

    method EndOfInput(expected: Expected) returns (f: Failure)
      ensures f == AtEnd(Here(), expected)
    {
      var recovery := BuildRecoveryInfo(expected);
      f := Syntax(Some(recovery));
    }

    method ExpectToken(t: Token) returns (r: Result<()>)
      requires Valid()
      modifies this`pos
      ensures Valid() && old(pos) <= pos <= old(pos) + 1
      ensures Follows(Expect(old(Left()), t, Here()), r, Left(), old(Here()), Here())
    {
      if pos == |tokens| {
        var f := EndOfInput(AToken(t));
        r := Error(f);
      } else if tokens[pos] != t {
        r := Error(Unexpected);
      } else {
        assert tokens[pos..][1..] == tokens[pos + 1..];
        pos := pos + 1;
        r := Ok(());
      }
    }

    method ParseExpression() returns (r: Result<Term>)
      requires Valid()
      modifies this
      ensures Valid() && pos >= old(pos)
      ensures Follows(ParseExpr(old(Left()), old(Here())), r, Left(), old(Here()), Here())
      decreases |tokens| - pos, 2
    {
      hide ParseCall, ParseArray, ParseObject;
      if pos == |tokens| {
        var f := EndOfInput(AnExpression);
        return Error(f);
      }
      ghost var left := Left();
      var tok := tokens[pos];
      assert left[0] == tok && left[1..] == tokens[pos + 1..];
      match tok {
        case StringTok(s) => pos := pos + 1; r := Ok(Str(s));
        case NumberTok(text) => pos := pos + 1; r := Ok(Num(text));
        case Ident(name) =>
          if name == "true" {
            pos := pos + 1;
            r := Ok(Bool(true));
          } else if name == "false" {
            pos := pos + 1;
            r := Ok(Bool(false));
          } else if name == "null" {
            pos := pos + 1;
            r := Ok(Null);
          } else if name == "undefined" {
            pos := pos + 1;
            r := Ok(Undefined);
          } else {
            r := ParseConstructorCall();
          }
        case LBracket => r := ParseArrayLit();
        case LBrace => r := ParseObjectLit();
        case _ => r := Error(Unexpected);
      }
    }

    method ParseConstructorCall() returns (r: Result<Term>)
      requires Valid() && pos < |tokens| && tokens[pos].Ident?
      modifies this
      ensures Valid() && pos >= old(pos)
      ensures Follows(ParseCall(old(Left()), old(Here())), r, Left(), old(Here()), Here())
      decreases |tokens| - pos, 1
    {
      hide ParseArgs, Dispatch, ArityOf, Admits, RecoveryAt;
      ghost var left, ctx := Left(), Here();
      var name := tokens[pos].name;
      pos := pos + 1;
      if pos == |tokens| || tokens[pos] != LParen {
        return Error(Unexpected);
      }
      assert left[1] == LParen && left[2..] == tokens[pos + 1..];
      var entry := EntryOf(name);
      if entry.None? {
        return Error(Unexpected);
      }
      pos := pos + 1;
      parenDepth := parenDepth + 1;
      var arity := entry.value;
      ghost var frame := Frame(name, 0, arity);
      frameStack := frameStack + [Frame(name, 0, arity)];
      var args := ParseArgList(frame, ctx);
      if args.Error? {
        return Error(args.failure);
      }
      if pos == |tokens| && |args.value| < arity.min {
        return Error(Unexpected);
      }
      var close := ExpectToken(RParen);
      if close.Error? {
        return Error(close.failure);
      }
      parenDepth := parenDepth - 1;
      frameStack := frameStack[..|frameStack| - 1];
      if !Admits(arity, |args.value|) {
        return Error(Unexpected);
      }
      if ArityOf(name).None? {
        return Error(Crash);
      }
      match Dispatch(name, args.value) {
        case None => r := Error(Unexpected);
        case Some(t) => r := Ok(t);
      }
    }

    /** The arguments of the innermost open call; its frame counts them. */
    method ParseArgList(ghost frame: Frame, ghost ctx: Context) returns (r: Result<seq<Term>>)
      requires Valid() && Here() == Enter(ctx, frame.(received := 0))
      modifies this
      ensures Valid() && pos >= old(pos)
      ensures match ParseArgs(old(Left()), ctx, frame)
              case Done(args, rest) =>
                r == Ok(args) && Left() == rest && Here() == Enter(ctx, frame.(received := |args|))
              case Bad(f) => r == Error(f)
      decreases |tokens| - pos, 4
    {
      hide ParseExpr;
      if pos < |tokens| && tokens[pos] == RParen {
        return Ok([]);
      }
      ghost var left := Left();
      var args: seq<Term> := [];
      var more := true;
      while more
        invariant Valid() && pos >= old(pos) && Here() == Enter(ctx, frame.(received := |args|))
        invariant more ==> MoreArgs(left, ctx, frame, []) == MoreArgs(Left(), ctx, frame, args)
        invariant !more ==> MoreArgs(left, ctx, frame, []) == Done(args, Left())
        decreases more, |tokens| - pos
      {
        ghost var before := Left();
        var arg := ParseExpression();
        if arg.Error? {
          return Error(arg.failure);
        }
        args := args + [arg.value];
        CountArgument(|args|);
        if pos < |tokens| && tokens[pos] == Comma {
          assert Left()[1..] == tokens[pos + 1..];
          pos := pos + 1;
        } else {
          more := false;
        }
      }
      r := Ok(args);
    }

    method CountArgument(n: nat)
      requires frameStack != []
      modifies this`frameStack
      ensures frameStack == old(frameStack[..|frameStack| - 1] + [frameStack[|frameStack| - 1].(received := n)])
    {
      var last := |frameStack| - 1;
      frameStack := frameStack[..last] + [frameStack[last].(received := n)];
    }

    method ParseArrayLit() returns (r: Result<Term>)
      requires Valid() && pos < |tokens| && tokens[pos] == LBracket
      modifies this
      ensures Valid() && pos >= old(pos)
      ensures Follows(ParseArray(old(Left()), old(Here())), r, Left(), old(Here()), Here())
      decreases |tokens| - pos, 1
    {
      hide MoreItems, RecoveryAt;
      ghost var whole := Left();
      assert whole[1..] == tokens[pos + 1..];
      pos := pos + 1;
      bracketDepth := bracketDepth + 1;
      var items := ParseItems();
      if items.Error? {
        return Error(items.failure);
      }
      var close := ExpectToken(RBracket);
      if close.Error? {
        return Error(close.failure);
      }
      bracketDepth := bracketDepth - 1;
      r := Ok(Array(items.value));
    }

    /** Items up to the closing bracket; a trailing comma is allowed. */
    method ParseItems() returns (r: Result<seq<Term>>)
      requires Valid()
      modifies this
      ensures Valid() && pos >= old(pos)
      ensures var left := old(Left());
              Follows(if left != [] && left[0] == RBracket then Done([], left) else MoreItems(left, old(Here()), []),
                      r, Left(), old(Here()), Here())
      decreases |tokens| - pos, 3
    {
      hide ParseExpr;
      ghost var ctx, left := Here(), Left();
      var items: seq<Term> := [];
      var more := !(pos < |tokens| && tokens[pos] == RBracket);
      ghost var spec := if more then MoreItems(left, ctx, []) else Done([], left);
      while more
        invariant Valid() && pos >= old(pos) && Here() == ctx
        invariant more ==> spec == MoreItems(Left(), ctx, items)
        invariant !more ==> spec == Done(items, Left())
        decreases more, |tokens| - pos
      {
        var item := ParseExpression();
        if item.Error? {
          return Error(item.failure);
        }
        items := items + [item.value];
        if pos < |tokens| && tokens[pos] == Comma {
          assert Left()[1..] == tokens[pos + 1..];
          pos := pos + 1;
          more := !(pos < |tokens| && tokens[pos] == RBracket);
        } else {
          more := false;
        }
      }
      r := Ok(items);
    }

    method ParseObjectLit() returns (r: Result<Term>)
      requires Valid() && pos < |tokens| && tokens[pos] == LBrace
      modifies this
      ensures Valid() && pos >= old(pos)
      ensures Follows(ParseObject(old(Left()), old(Here())), r, Left(), old(Here()), Here())
      decreases |tokens| - pos, 1
    {
      hide MoreEntries, RecoveryAt;
      ghost var whole := Left();
      assert whole[1..] == tokens[pos + 1..];
      pos := pos + 1;
      braceDepth := braceDepth + 1;
      var entries := ParseEntries();
      if entries.Error? {
        return Error(entries.failure);
      }
      var close := ExpectToken(RBrace);
      if close.Error? {
        return Error(close.failure);
      }
      braceDepth := braceDepth - 1;
      r := Ok(Made(entries.value));
    }

    /** Entries up to the closing brace; a trailing comma is allowed. */
    method ParseEntries() returns (r: Result<Literal>)
      requires Valid()
      modifies this
      ensures Valid() && pos >= old(pos)
      ensures var left := old(Left());
              Follows(if left != [] && left[0] == RBrace then Done(NoEntries, left)
                      else MoreEntries(left, old(Here()), NoEntries),
                      r, Left(), old(Here()), Here())
      decreases |tokens| - pos, 4
    {
      hide ParseEntry;
      ghost var ctx, left := Here(), Left();
      var entries := NoEntries;
      var more := !(pos < |tokens| && tokens[pos] == RBrace);
      ghost var spec := if more then MoreEntries(left, ctx, NoEntries) else Done(NoEntries, left);
      while more
        invariant Valid() && pos >= old(pos) && Here() == ctx
        invariant more ==> spec == MoreEntries(Left(), ctx, entries)
        invariant !more ==> spec == Done(entries, Left())
        decreases more, |tokens| - pos
      {
        var next := ParseObjectEntry(entries);
        if next.Error? {
          return Error(next.failure);
        }
        entries := next.value;
        if pos < |tokens| && tokens[pos] == Comma {
          assert Left()[1..] == tokens[pos + 1..];
          pos := pos + 1;
          more := !(pos < |tokens| && tokens[pos] == RBrace);
        } else {
          more := false;
        }
      }
      r := Ok(entries);
    }

    method ParseObjectEntry(entries: Literal) returns (r: Result<Literal>)
      requires Valid()
      modifies this
      ensures Valid() && pos >= old(pos)
      ensures Follows(ParseEntry(old(Left()), old(Here()), entries), r, Left(), old(Here()), Here())
      decreases |tokens| - pos, 3
    {
      hide ParseExpr, RecoveryAt;
      ghost var left, ctx := Left(), Here();
      if pos == |tokens| || !(tokens[pos].Ident? || tokens[pos].StringTok?) {
        return Error(Unexpected);
      }
      var key := if tokens[pos].Ident? then tokens[pos].name else tokens[pos].s;
      assert left[1..] == tokens[pos + 1..];
      pos := pos + 1;
      var colon := ExpectToken(Colon);
      if colon.Error? {
        return Error(colon.failure);
      }
      var value := ParseExpression();
      if value.Error? {
        return Error(value.failure);
      }
      r := Ok(AddEntry(entries, key, value.value));
    }
  }

  /** `parseDSLSafe`: tokenize, parse one expression, and expect the end. */
  method ParseSource(source: string) returns (r: Outcome)
    ensures r == ParseDSL(source)
  {
    var tokens := Tokenize(source);
    if tokens.None? {
      return Rejected(Unexpected);
    }
    var state := new State(tokens.value);
    var ir := state.ParseExpression();
    match ir {
      case Error(f) => r := Rejected(f);
      case Ok(t) => r := if state.pos == |state.tokens| then Accepted(t) else Rejected(Unexpected);
    }
  }
}
