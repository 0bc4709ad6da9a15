/** The recursive-descent parser of the constructor DSL as a function of the tokens that
    are left, with what it reports when the input ends too early. */
module Parser {
  import opened Text
  import opened Lexer
  import opened Term

  /** An open constructor call. */
  datatype Frame = Frame(name: string, received: nat, arity: Arity)

  /** What is open where the parser stands. */
  datatype Context = Context(frames: seq<Frame>, parens: nat, brackets: nat, braces: nat)

  /** What would have had to come where the input ends. */
  datatype Expected = AnExpression | AToken(token: Token)

  datatype Recovery = Recovery(expected: Expected, context: Context, autoClosable: bool)

  /** A syntax error, with recovery information where the input ended too early; or an
      exception that is no syntax error. */
  datatype Failure = Syntax(recovery: Option<Recovery>) | Crash

  datatype Parsed<T> = Done(value: T, rest: seq<Token>) | Bad(failure: Failure)

  const Start := Context([], 0, 0, 0)

  /** Whether closing everything gives every call enough arguments: whatever is open inside a
      call counts as one more argument of it. */
  predicate EachEnough(ctx: Context)
  {
    forall i :: 0 <= i < |ctx.frames| ==> Enough(ctx, i)
  }

  predicate Enough(ctx: Context, i: nat)
    requires i < |ctx.frames|
  {
    var inside := i < |ctx.frames| - 1 || ctx.brackets + ctx.braces > 0;
    ctx.frames[i].received + (if inside then 1 else 0) >= ctx.frames[i].arity.min
  }

  function RecoveryAt(ctx: Context, expected: Expected): Recovery { Recovery(expected, ctx, EachEnough(ctx)) }

  function AtEnd(ctx: Context, expected: Expected): Failure { Syntax(Some(RecoveryAt(ctx, expected))) }

  const Unexpected := Syntax(None)

  /** Consumes one given token. */
  function Expect(ts: seq<Token>, t: Token, ctx: Context): (r: Parsed<()>)
    ensures r.Done? ==> ts != [] && r.rest == ts[1..] && ts[0] == t
  {
    if ts == [] then Bad(AtEnd(ctx, AToken(t))) else if ts[0] != t then Bad(Unexpected) else Done((), ts[1..])
  }

  /** Names that the table of constructors inherits: they are found, but make nothing. */
  predicate Inherited(name: string)
  {
    name in {"constructor", "toString", "toLocaleString", "valueOf", "hasOwnProperty", "isPrototypeOf",
             "propertyIsEnumerable", "__proto__", "__defineGetter__", "__defineSetter__", "__lookupGetter__",
             "__lookupSetter__"}
  }

  function EntryOf(name: string): Option<Arity>
  {
    if ArityOf(name).Some? then ArityOf(name) else if Inherited(name) then Some(Arity(0, None)) else None
  }

  /** An object literal under construction: its own entries, and the prototype if it has been
      set (an object, or null). */
  datatype Literal = Literal(own: seq<Entry>, above: Option<Term>)

  const NoEntries := Literal([], None)

  /** Values that a prototype can be set to; others are ignored. */
  predicate CanBePrototype(t: Term)
  {
    t.Null? || t.Array? || t.Object? || t.Derived? || IsCall(t)
  }

  /** Whether a chain of prototypes ends in the standard one, which is what makes `__proto__`
      a way to set the prototype; below null it is a key like any other. */
  predicate EndsStandard(t: Term)
  {
    match t
    case Null => false
    case Derived(_, above) => EndsStandard(above)
    case _ => true
  }

  /** A property of the object itself; a repeated key keeps its last value. */
  function SetOwn(es: seq<Entry>, key: string, value: Term): seq<Entry>
  {
    if HasKey(es, key) then
      seq(|es|, i requires 0 <= i < |es| => if es[i].key == key then Entry(key, value) else es[i])
    else es + [Entry(key, value)]
  }

  /** Assigning a property in an object literal. */
  function AddEntry(l: Literal, key: string, value: Term): Literal
  {
    if key == "__proto__" && (l.above.None? || EndsStandard(l.above.value)) then
      if CanBePrototype(value) then l.(above := Some(value)) else l
    else l.(own := SetOwn(l.own, key, value))
  }

  function Made(l: Literal): (t: Term)
    ensures t.Object? || t.Derived?
  {
    if l.above.None? then Object(l.own) else Derived(l.own, l.above.value)
  }

  function Enter(ctx: Context, f: Frame): Context
  {
    ctx.(frames := ctx.frames + [f], parens := ctx.parens + 1)
  }

  function ParseExpr(ts: seq<Token>, ctx: Context): (r: Parsed<Term>)
    ensures r.Done? ==> |r.rest| < |ts|
    decreases |ts|, 2
  {
    if ts == [] then Bad(AtEnd(ctx, AnExpression))
    else
      match ts[0]
      case StringTok(s) => Done(Str(s), ts[1..])
      case NumberTok(text) => Done(Num(text), ts[1..])
      case Ident(name) =>
        if name == "true" then Done(Bool(true), ts[1..])
        else if name == "false" then Done(Bool(false), ts[1..])
        else if name == "null" then Done(Null, ts[1..])
        else if name == "undefined" then Done(Undefined, ts[1..])
        else ParseCall(ts, ctx)
      case LBracket => ParseArray(ts, ctx)
      case LBrace => ParseObject(ts, ctx)
      case _ => Bad(Unexpected)
  }

  function ParseCall(ts: seq<Token>, ctx: Context): (r: Parsed<Term>)
    requires ts != [] && ts[0].Ident?
    ensures r.Done? ==> |r.rest| < |ts|
    decreases |ts|, 1
  {
    var name := ts[0].name;
    if |ts| < 2 || ts[1] != LParen || EntryOf(name).None? then Bad(Unexpected)
    else
      var arity := EntryOf(name).value;
      var frame := Frame(name, 0, arity);
      match ParseArgs(ts[2..], ctx, frame)
      case Bad(f) => Bad(f)
      case Done(args, rest) =>
        if rest == [] && |args| < arity.min then Bad(Unexpected)
        else
          match Expect(rest, RParen, Enter(ctx, frame.(received := |args|)))
          case Bad(f) => Bad(f)
          case Done(_, after) =>
            if !Admits(arity, |args|) then Bad(Unexpected)
            else if ArityOf(name).None? then Bad(Crash)
            else
              match Dispatch(name, args)
              case None => Bad(Unexpected)
              case Some(t) => Done(t, after)
  }

  function ParseArgs(ts: seq<Token>, ctx: Context, frame: Frame): (r: Parsed<seq<Term>>)
    ensures r.Done? ==> |r.rest| <= |ts|
    decreases |ts|, 4
  {
    if ts != [] && ts[0] == RParen then Done([], ts) else MoreArgs(ts, ctx, frame, [])
  }

  function MoreArgs(ts: seq<Token>, ctx: Context, frame: Frame, got: seq<Term>): (r: Parsed<seq<Term>>)
    ensures r.Done? ==> |r.rest| < |ts|
    decreases |ts|, 3
  {
    match ParseExpr(ts, Enter(ctx, frame.(received := |got|)))
    case Bad(f) => Bad(f)
    case Done(t, rest) =>
      if rest != [] && rest[0] == Comma then MoreArgs(rest[1..], ctx, frame, got + [t])
      else Done(got + [t], rest)
  }

  function ParseArray(ts: seq<Token>, ctx: Context): (r: Parsed<Term>)
    requires ts != [] && ts[0] == LBracket
    ensures r.Done? ==> |r.rest| < |ts|
    decreases |ts|, 1
  {
    var inner := ctx.(brackets := ctx.brackets + 1);
    match (if |ts| > 1 && ts[1] == RBracket then Done([], ts[1..]) else MoreItems(ts[1..], inner, []))
    case Bad(f) => Bad(f)
    case Done(items, rest) =>
      match Expect(rest, RBracket, inner)
      case Bad(f) => Bad(f)
      case Done(_, after) => Done(Array(items), after)
  }

  function MoreItems(ts: seq<Token>, ctx: Context, got: seq<Term>): (r: Parsed<seq<Term>>)
    ensures r.Done? ==> |r.rest| < |ts|
    decreases |ts|, 3
  {
    match ParseExpr(ts, ctx)
    case Bad(f) => Bad(f)
    case Done(t, rest) =>
      if rest == [] || rest[0] != Comma then Done(got + [t], rest)
      else if |rest| > 1 && rest[1] == RBracket then Done(got + [t], rest[1..])
      else MoreItems(rest[1..], ctx, got + [t])
  }

  function ParseObject(ts: seq<Token>, ctx: Context): (r: Parsed<Term>)
    requires ts != [] && ts[0] == LBrace
    ensures r.Done? ==> |r.rest| < |ts|
    decreases |ts|, 1
  {
    var inner := ctx.(braces := ctx.braces + 1);
    match (if |ts| > 1 && ts[1] == RBrace then Done(NoEntries, ts[1..]) else MoreEntries(ts[1..], inner, NoEntries))
    case Bad(f) => Bad(f)
    case Done(entries, rest) =>
      match Expect(rest, RBrace, inner)
      case Bad(f) => Bad(f)
      case Done(_, after) => Done(Made(entries), after)
  }

  function MoreEntries(ts: seq<Token>, ctx: Context, got: Literal): (r: Parsed<Literal>)
    ensures r.Done? ==> |r.rest| < |ts|
    decreases |ts|, 3
  {
    match ParseEntry(ts, ctx, got)
    case Bad(f) => Bad(f)
    case Done(entries, rest) =>
      if rest == [] || rest[0] != Comma then Done(entries, rest)
      else if |rest| > 1 && rest[1] == RBrace then Done(entries, rest[1..])
      else MoreEntries(rest[1..], ctx, entries)
  }

  function ParseEntry(ts: seq<Token>, ctx: Context, got: Literal): (r: Parsed<Literal>)
    ensures r.Done? ==> |r.rest| < |ts|
    decreases |ts|, 2
  {
    if ts == [] || !(ts[0].Ident? || ts[0].StringTok?) then Bad(Unexpected)
    else
      var key := if ts[0].Ident? then ts[0].name else ts[0].s;
      match Expect(ts[1..], Colon, ctx)
      case Bad(f) => Bad(f)
      case Done(_, rest) =>
        match ParseExpr(rest, ctx)
        case Bad(f) => Bad(f)
        case Done(t, after) => Done(AddEntry(got, key, t), after)
  }

  /** A whole program: nothing may follow the expression. */
  function ParseTokens(ts: seq<Token>): Parsed<Term>
  {
    match ParseExpr(ts, Start)
    case Bad(f) => Bad(f)
    case Done(t, rest) => if rest == [] then Done(t, []) else Bad(Unexpected)
  }

  datatype Outcome = Accepted(ir: Term) | Rejected(failure: Failure)

  /** `parseDSL` on a source text. */
  function ParseDSL(source: string): Outcome
  {
    match Lex(source)
    case None => Rejected(Unexpected)
    case Some(ts) =>
      match ParseTokens(ts)
      case Done(t, _) => Accepted(t)
      case Bad(f) => Rejected(f)
  }

  lemma {:induction false} EnoughByPlace(ctx: Context)
    ensures var n := |ctx.frames|;
            EachEnough(ctx) <==>
            forall i :: 0 <= i < n ==>
              ctx.frames[i].received + (if i < n - 1 || ctx.brackets > 0 || ctx.braces > 0 then 1 else 0)
                >= ctx.frames[i].arity.min
  {
    assert forall i :: 0 <= i < |ctx.frames| ==>
      (Enough(ctx, i) <==>
       ctx.frames[i].received + (if i < |ctx.frames| - 1 || ctx.brackets > 0 || ctx.braces > 0 then 1 else 0)
         >= ctx.frames[i].arity.min);
  }
}
