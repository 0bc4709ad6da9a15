/** The printer of the constructor DSL, and the tokens of what it prints: they depend on
    the term alone, not on the layout. */
module Printer {
  import opened Text
  import opened Lexer
  import opened Term

  datatype Options = Options(indent: nat, maxWidth: int, compact: bool)

  // ----- layout -----

  function Spaces(n: nat): string { seq(n, _ => ' ') }

  /** Items after `pad`, separated by a comma and `gap`. */
  function Listing(items: seq<string>, pad: string, gap: string): string
  {
    if items == [] then ""
    else if |items| == 1 then pad + items[0]
    else pad + items[0] + ("," + gap) + Listing(items[1..], pad, gap)
  }

  predicate Fits(inline: string, o: Options) { o.compact && |inline| <= o.maxWidth }

  /** On one line where that fits, else one item a line. */
  function Wrapped(open: string, space: string, items: seq<string>, close: string, depth: nat, o: Options): string
  {
    var inline := open + space + Listing(items, "", " ") + space + close;
    if Fits(inline, o) then inline
    else open + "\n" + Listing(items, Spaces((depth + 1) * o.indent), "\n") + "\n" + Spaces(depth * o.indent) + close
  }

  /** A call of two arguments of which only the second moves to a line of its own. */
  function Paired(open: string, first: string, second: string, depth: nat, o: Options): string
  {
    var inline := open + first + ", " + second + ")";
    if Fits(inline, o) then inline
    else open + first + (",\n" + Spaces((depth + 1) * o.indent)) + second + ")"
  }

  function QuotedAll(names: seq<string>): (r: seq<string>)
    ensures |r| == |names| && forall i :: 0 <= i < |names| ==> r[i] == Quoted(names[i])
  {
    seq(|names|, i requires 0 <= i < |names| => Quoted(names[i]))
  }

  // ----- printing -----

  function Print(t: Term, depth: nat, o: Options): string
    decreases Size(t), 0
  {
    match t
    case Undefined => "undefined"
    case Null => "null"
    case Bool(b) => if b then "true" else "false"
    case Num(text) => text
    case Str(s) => Quoted(s)
    case Array(items) => if items == [] then "[]" else Wrapped("[", "", PrintAll(items, depth + 1, o), "]", depth, o)
    case Object(entries) =>
      if entries == [] then "{}" else Wrapped("{", " ", PrintEntries(entries, false, depth + 1, o), "}", depth, o)
    // only the parser makes such an object
    case Derived(own, _) =>
      if own == [] then "{}" else Wrapped("{", " ", PrintEntries(own, false, depth + 1, o), "}", depth, o)
    case Ref(name) => "Ref(" + Quoted(name) + ")"
    case Quote(e) => "Q(" + Print(e, depth, o) + ")"
    case Fn(params, body) =>
      Paired("Fn(", "[" + Listing(QuotedAll(params), "", " ") + "]", Print(body, depth + 1, o), depth, o)
    case Eval(id, data) => Paired("Eval(", Quoted(id), Print(data, depth + 1, o), depth, o)
    case While(c, exprs) =>
      Wrapped("While(" + Print(c, depth + 1, o) + ", [", "", PrintAll(exprs, depth + 1, o), "])", depth, o)
    case Construct(built) =>
      Wrapped("Construct({", " ", PrintEntries(Own(built), true, depth + 2, o), "})", depth, o)
    case _ =>
      ArgsSmaller(t);
      Wrapped(Name(t) + "(", "", PrintAll(Args(t), depth + 1, o), ")", depth, o)
  }

  function PrintAll(ts: seq<Term>, depth: nat, o: Options): (r: seq<string>)
    ensures |r| == |ts|
    decreases SizeAll(ts), 1, |ts|
  {
    if ts == [] then [] else [Print(ts[0], depth, o)] + PrintAll(ts[1..], depth, o)
  }

  /** Entries with quoted keys, or with bare ones. */
  function PrintEntries(es: seq<Entry>, bare: bool, depth: nat, o: Options): (r: seq<string>)
    ensures |r| == |es|
    decreases SizeEntries(es), 1, |es|
  {
    if es == [] then []
    else
      [(if bare then es[0].key else Quoted(es[0].key)) + ": " + Print(es[0].value, depth, o)] +
      PrintEntries(es[1..], bare, depth, o)
  }

  // ----- well-formed terms -----

  const StructuralIds: set<string> :=
    {"let", "seq", "if", "while", "call", "get", "add", "sub", "mul", "div", "mod", "neg", "gt", "gte", "lt", "lte",
     "eq", "neq", "and", "or", "not", "construct", "array", "concat", "throw", "concat-arrays", "merge-objects", "try"}

  const CompoundIds: set<string> :=
    {"all", "race", "scope", "spawn", "join", "resource", "provide", "timebox"}

  predicate DistinctKeys(es: seq<Entry>)
  {
    forall i, j :: 0 <= i < j < |es| ==> es[i].key != es[j].key
  }

  predicate BareKeys(es: seq<Entry>)
  {
    forall i :: 0 <= i < |es| ==> IsIdent(es[i].key)
  }

  /** IR that the constructors of the DSL build. */
  predicate WellFormed(t: Term)
    decreases Size(t), 0
  {
    if t.Undefined? || t.Derived? then false
    else if t.Num? then IsNumeral(t.text)
    else if t.Array? then WellFormedAll(t.items)
    else if t.Object? then DistinctKeys(t.entries) && !Tagged(t.entries) && WellFormedEntries(t.entries)
    else if t.Construct? then
      && t.built.Object? && BareKeys(t.built.entries) && DistinctKeys(t.built.entries)
      && !Tagged(t.built.entries) && WellFormedEntries(Own(t.built))
    else if t.Eval? then t.id !in StructuralIds && t.id !in CompoundIds && WellFormed(t.data)
    else if t.Try? then
      && WellFormed(t.tried) && WellFormedOption(t.catchBody) && WellFormedOption(t.finallyBody)
      && (t.catchBody.Some? || t.finallyBody.Some?)
      && (t.catchParam.Some? ==> t.catchParam.value != "" && t.catchBody.Some?)
      && (t.finallyPayload.Some? ==> t.finallyPayload.value != "")
    else if t.Fn? then WellFormed(t.body)
    else if t.While? then WellFormed(t.test) && WellFormedAll(t.exprs)
    else if IsCall(t) then
      ArgsSmaller(t);
      WellFormedAll(Args(t))
    else true
  }

  predicate WellFormedOption(t: Option<Term>)
    decreases SizeOption(t), 1
  {
    t.Some? ==> WellFormed(t.value)
  }

  predicate WellFormedAll(ts: seq<Term>)
    decreases SizeAll(ts), 1, |ts|
  {
    ts == [] || (WellFormed(ts[0]) && WellFormedAll(ts[1..]))
  }

  predicate WellFormedEntries(es: seq<Entry>)
    decreases SizeEntries(es), 1, |es|
  {
    es == [] || (WellFormed(es[0].value) && WellFormedEntries(es[1..]))
  }

  /** What stands in an argument list: a missing part of a `try` is written `undefined`. */
  predicate Printable(t: Term) { t.Undefined? || WellFormed(t) }

  predicate PrintableAll(ts: seq<Term>) { forall i :: 0 <= i < |ts| ==> Printable(ts[i]) }

  // ----- tokens -----

  function Toks(t: Term): seq<Token>
    decreases Size(t), 0
  {
    match t
    case Undefined => [Ident("undefined")]
    case Null => [Ident("null")]
    case Bool(b) => [Ident(if b then "true" else "false")]
    case Num(text) => [NumberTok(text)]
    case Str(s) => [StringTok(s)]
    case Array(items) => [LBracket] + Commas(ToksAll(items)) + [RBracket]
    case Object(entries) => [LBrace] + Commas(ToksEntries(entries, false)) + [RBrace]
    case Derived(own, _) => [LBrace] + Commas(ToksEntries(own, false)) + [RBrace]
    case Construct(built) =>
      [Ident("Construct"), LParen] + ([LBrace] + Commas(ToksEntries(Own(built), true)) + [RBrace]) + [RParen]
    case _ =>
      ArgsSmaller(t);
      [Ident(Name(t)), LParen] + Commas(ToksAll(Args(t))) + [RParen]
  }

  function ToksAll(ts: seq<Term>): (r: seq<seq<Token>>)
    ensures |r| == |ts|
    decreases SizeAll(ts), 1, |ts|
  {
    if ts == [] then [] else [Toks(ts[0])] + ToksAll(ts[1..])
  }

  function KeyTok(key: string, bare: bool): Token { if bare then Ident(key) else StringTok(key) }

  function ToksEntries(es: seq<Entry>, bare: bool): (r: seq<seq<Token>>)
    ensures |r| == |es|
    decreases SizeEntries(es), 1, |es|
  {
    if es == [] then []
    else [[KeyTok(es[0].key, bare), Colon] + Toks(es[0].value)] + ToksEntries(es[1..], bare)
  }

  function Commas(tss: seq<seq<Token>>): seq<Token>
  {
    if tss == [] then [] else if |tss| == 1 then tss[0] else tss[0] + [Comma] + Commas(tss[1..])
  }
}
