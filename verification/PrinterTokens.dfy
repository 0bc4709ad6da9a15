/** Tokenizing what was printed gives the tokens of the term, under every layout. */
module PrinterTokens {
  import opened Text
  import opened Lexer
  import opened Term
  import opened Printer

  // ----- pieces of text -----

  /** `text` reads as `toks` before anything that cannot continue a word. */
  ghost predicate Reads(text: string, toks: seq<Token>)
  {
    forall rest :: Breaks(rest) ==> Lex(text + rest) == Prepend(toks, Lex(rest))
  }

  /** `text` reads as `toks` before anything. */
  ghost predicate Closed(text: string, toks: seq<Token>)
  {
    forall rest :: Lex(text + rest) == Prepend(toks, Lex(rest))
  }

  lemma {:induction false} ReadsAt(text: string, toks: seq<Token>, rest: string)
    requires Reads(text, toks) && Breaks(rest)
    ensures Lex(text + rest) == Prepend(toks, Lex(rest))
  {
  }

  lemma {:induction false} ClosedAt(text: string, toks: seq<Token>, rest: string)
    requires Closed(text, toks)
    ensures Lex(text + rest) == Prepend(toks, Lex(rest))
  {
  }

  lemma {:induction false} ClosedReads(text: string, toks: seq<Token>)
    requires Closed(text, toks)
    ensures Reads(text, toks)
  {
    hide Lex;
  }

  /** A piece after a closed one. */
  lemma {:induction false} ClosedThen(a: string, ta: seq<Token>, b: string, tb: seq<Token>)
    requires Closed(a, ta)
    ensures Closed(b, tb) ==> Closed(a + b, ta + tb)
    ensures Reads(b, tb) ==> Reads(a + b, ta + tb)
  {
    hide Lex, Prepend;
    if Closed(b, tb) {
      forall rest ensures Lex(a + b + rest) == Prepend(ta + tb, Lex(rest)) {
        ClosedAt(a, ta, b + rest);
        ClosedAt(b, tb, rest);
        Joined(a, ta, b, tb, rest);
      }
    }
    if Reads(b, tb) {
      forall rest | Breaks(rest) ensures Lex(a + b + rest) == Prepend(ta + tb, Lex(rest)) {
        ClosedAt(a, ta, b + rest);
        ReadsAt(b, tb, rest);
        Joined(a, ta, b, tb, rest);
      }
    }
  }

  lemma {:induction false} Joined(a: string, ta: seq<Token>, b: string, tb: seq<Token>, rest: string)
    requires Lex(a + (b + rest)) == Prepend(ta, Lex(b + rest)) && Lex(b + rest) == Prepend(tb, Lex(rest))
    ensures Lex(a + b + rest) == Prepend(ta + tb, Lex(rest))
  {
    hide Lex;
    assert a + b + rest == a + (b + rest);
    PrependBoth(ta, tb, Lex(rest));
  }

  /** A closed piece that ends the word before it. */
  lemma {:induction false} ReadsThen(a: string, ta: seq<Token>, b: string, tb: seq<Token>)
    requires Reads(a, ta) && Closed(b, tb) && b != [] && Breaks(b)
    ensures Closed(a + b, ta + tb)
  {
    hide Lex, Prepend;
    forall rest ensures Lex(a + b + rest) == Prepend(ta + tb, Lex(rest)) {
      assert (b + rest)[0] == b[0];
      ReadsAt(a, ta, b + rest);
      ClosedAt(b, tb, rest);
      Joined(a, ta, b, tb, rest);
    }
  }

  // ----- words -----

  lemma {:induction false} QuotedReads(s: string)
    ensures Closed(Quoted(s), [StringTok(s)])
  {
    hide Lex, Quoted;
    forall rest ensures Lex(Quoted(s) + rest) == Prepend([StringTok(s)], Lex(rest)) {
      LexQuoted(s, rest);
    }
  }

  lemma {:induction false} IdentReads(name: string)
    requires IsIdent(name)
    ensures Reads(name, [Ident(name)])
  {
    hide Lex;
    forall rest | Breaks(rest) ensures Lex(name + rest) == Prepend([Ident(name)], Lex(rest)) {
      LexIdent(name, rest);
    }
  }

  lemma {:induction false} NumberReads(text: string)
    requires IsNumeral(text)
    ensures Reads(text, [NumberTok(text)])
  {
    hide Lex;
    forall rest | Breaks(rest) ensures Lex(text + rest) == Prepend([NumberTok(text)], Lex(rest)) {
      LexNumber(text, rest);
    }
  }

  lemma {:induction false} PunctuationReads(c: char)
    requires Punctuation(c).Some?
    ensures Closed([c], [Punctuation(c).value])
  {
    hide Lex;
    forall rest ensures Lex([c] + rest) == Prepend([Punctuation(c).value], Lex(rest)) {
      LexPunctuation(c, rest);
    }
  }

  predicate Blank(s: string) { forall i :: 0 <= i < |s| ==> IsSpace(s[i]) }

  lemma {:induction false} BlankReads(s: string)
    requires Blank(s)
    ensures Closed(s, [])
  {
    hide Lex;
    forall rest ensures Lex(s + rest) == Prepend([], Lex(rest)) {
      LexSpaces(s, rest);
      PrependNone(Lex(rest));
    }
  }

  // ----- lists -----

  /** A comma and the blanks after it. */
  lemma {:induction false} SeparatorReads(gap: string)
    requires Blank(gap)
    ensures Closed("," + gap, [Comma]) && Breaks("," + gap) && "," + gap != []
  {
    hide Lex;
    PunctuationReads(',');
    assert [','] == ",";
    BlankReads(gap);
    ClosedThen(",", [Comma], gap, []);
    assert [Comma] + [] == [Comma];
  }

  ghost predicate ReadsAll(items: seq<string>, tss: seq<seq<Token>>)
  {
    |items| == |tss| && forall i :: 0 <= i < |items| ==> Reads(items[i], tss[i])
  }

  lemma {:induction false} ReadsAllCons(item: string, toks: seq<Token>, items: seq<string>, tss: seq<seq<Token>>)
    requires Reads(item, toks) && ReadsAll(items, tss)
    ensures ReadsAll([item] + items, [toks] + tss)
  {
    hide Reads;
  }

  lemma {:induction false} ListingReads(items: seq<string>, tss: seq<seq<Token>>, pad: string, gap: string)
    requires ReadsAll(items, tss) && Blank(pad) && Blank(gap)
    ensures Reads(Listing(items, pad, gap), Commas(tss))
    decreases |items|
  {
    hide Reads, Closed, Lex, Blank;
    if items == [] {
      BlankNothing();
      BlankReads("");
      ClosedReads("", []);
    } else {
      assert Reads(items[0], tss[0]);
      BlankReads(pad);
      ClosedThen(pad, [], items[0], tss[0]);
      assert [] + tss[0] == tss[0];
      if |items| > 1 {
        SeparatorReads(gap);
        ReadsThen(pad + items[0], tss[0], "," + gap, [Comma]);
        ListingReads(items[1..], tss[1..], pad, gap);
        ClosedThen(pad + items[0] + ("," + gap), tss[0] + [Comma], Listing(items[1..], pad, gap), Commas(tss[1..]));
      }
    }
  }

  lemma {:induction false} BlankNothing()
    ensures Blank("")
  {
  }

  lemma {:induction false} BlankSpaces(n: nat)
    ensures Blank(Spaces(n)) && Blank("\n" + Spaces(n)) && Blank(" ") && Blank("") && Blank("\n")
  {
  }

  /** `before`, a list and `close`, laid out in either way. */
  lemma {:induction false} WrappedReads(open: string, topen: seq<Token>, space: string, items: seq<string>,
                                        tss: seq<seq<Token>>,
                     close: string, tclose: seq<Token>, depth: nat, o: Options)
    requires Closed(open, topen) && Blank(space) && ReadsAll(items, tss)
    requires Closed(close, tclose) && close != [] && Breaks(close)
    ensures Reads(Wrapped(open, space, items, close, depth, o), topen + Commas(tss) + tclose)
  {
    hide Reads, Closed, Blank, Listing, Lex, Commas, ReadsAll;
    var pad, outer := Spaces((depth + 1) * o.indent), Spaces(depth * o.indent);
    BlankSpaces((depth + 1) * o.indent);
    BlankSpaces(depth * o.indent);
    Enclosed(open, topen, space, items, tss, "", " ", space, close, tclose);
    Enclosed(open, topen, "\n", items, tss, pad, "\n", "\n" + outer, close, tclose);
    assert open + "\n" + Listing(items, pad, "\n") + ("\n" + outer) + close
        == open + "\n" + Listing(items, pad, "\n") + "\n" + outer + close;
  }

  lemma {:induction false} Enclosed(open: string, topen: seq<Token>, lead: string, items: seq<string>,
                                    tss: seq<seq<Token>>,
                 pad: string, gap: string, trail: string, close: string, tclose: seq<Token>)
    requires Closed(open, topen) && Blank(lead) && ReadsAll(items, tss) && Blank(pad) && Blank(gap) && Blank(trail)
    requires Closed(close, tclose) && close != [] && Breaks(close)
    ensures Reads(open + lead + Listing(items, pad, gap) + trail + close, topen + Commas(tss) + tclose)
  {
    hide Reads, Closed, Listing, Lex, Commas, ReadsAll;
    var list, tlist := Listing(items, pad, gap), Commas(tss);
    BlankReads(lead);
    BlankReads(trail);
    ListingReads(items, tss, pad, gap);
    ClosedThen(open, topen, lead, []);
    ClosedThen(open + lead, topen + [], list, tlist);
    ClosedThen(trail, [], close, tclose);
    assert Breaks(trail + close) && trail + close != [];
    ReadsThen(open + lead + list, topen + [] + tlist, trail + close, [] + tclose);
    assert open + lead + list + (trail + close) == open + lead + list + trail + close;
    assert topen + [] + tlist + ([] + tclose) == topen + tlist + tclose;
    ClosedReads(open + lead + list + trail + close, topen + tlist + tclose);
  }

  // ----- calls -----

  lemma {:induction false} OpenCall(name: string)
    requires IsIdent(name)
    ensures Closed(name + "(", [Ident(name), LParen])
  {
    hide Lex;
    IdentReads(name);
    PunctuationReads('(');
    assert ['('] == "(";
    ReadsThen(name, [Ident(name)], "(", [LParen]);
    assert [Ident(name)] + [LParen] == [Ident(name), LParen];
  }

  lemma {:induction false} CloseParen()
    ensures Closed(")", [RParen]) && Breaks(")")
  {
    PunctuationReads(')');
    assert [')'] == ")";
  }

  /** Two arguments, in either layout. */
  lemma {:induction false} PairedReads(open: string, topen: seq<Token>, first: string, tfirst: seq<Token>,
                    second: string, tsecond: seq<Token>, depth: nat, o: Options)
    requires Closed(open, topen) && Reads(first, tfirst) && Reads(second, tsecond)
    ensures Reads(Paired(open, first, second, depth, o), topen + Commas([tfirst, tsecond]) + [RParen])
  {
    hide Reads, Closed, Lex, Blank, Spaces;
    var pad := Spaces((depth + 1) * o.indent);
    BlankSpaces((depth + 1) * o.indent);
    PairWith(open, topen, first, tfirst, " ", second, tsecond);
    PairWith(open, topen, first, tfirst, "\n" + pad, second, tsecond);
    assert "," + ("\n" + pad) == ",\n" + pad;
    assert ", " == "," + " ";
  }

  lemma {:induction false} PairWith(open: string, topen: seq<Token>, first: string, tfirst: seq<Token>, gap: string,
                 second: string, tsecond: seq<Token>)
    requires Closed(open, topen) && Reads(first, tfirst) && Reads(second, tsecond) && Blank(gap)
    ensures Reads(open + first + ("," + gap) + second + ")", topen + Commas([tfirst, tsecond]) + [RParen])
  {
    hide Reads, Closed, Lex, Blank;
    ClosedThen(open, topen, first, tfirst);
    SeparatorReads(gap);
    ReadsThen(open + first, topen + tfirst, "," + gap, [Comma]);
    ClosedThen(open + first + ("," + gap), topen + tfirst + [Comma], second, tsecond);
    CloseParen();
    ReadsThen(open + first + ("," + gap) + second, topen + tfirst + [Comma] + tsecond, ")", [RParen]);
    ClosedReads(open + first + ("," + gap) + second + ")", topen + tfirst + [Comma] + tsecond + [RParen]);
    var two := [tfirst, tsecond];
    assert two[1..] == [tsecond];
    assert Commas(two) == tfirst + [Comma] + tsecond;
    assert topen + tfirst + [Comma] + tsecond + [RParen] == topen + (tfirst + [Comma] + tsecond) + [RParen];
  }

  // ----- terms -----

  lemma {:induction false} WellFormedEach(ts: seq<Term>)
    requires WellFormedAll(ts)
    ensures PrintableAll(ts)
  {
    if ts != [] {
      WellFormedEach(ts[1..]);
      forall i | 0 <= i < |ts| ensures Printable(ts[i]) {
        if i > 0 {
          assert ts[i] == ts[1..][i - 1];
        }
      }
    }
  }

  /** The arguments of a well-formed node can be printed. */
  lemma {:induction false} ArgsPrintable(t: Term)
    requires WellFormed(t) && IsCall(t) && !t.Construct?
    ensures PrintableAll(Args(t))
  {
    hide SizeAll, Size;
    if t.Try? {
      forall i | 0 <= i < |Args(t)| ensures Printable(Args(t)[i]) {
      }
    } else if t.Fn? {
      StringsPrintable(t.params);
    } else if t.While? || t.Eval? {
    } else {
      WellFormedEach(Args(t));
    }
  }

  lemma {:induction false} StringsPrintable(names: seq<string>)
    ensures WellFormedAll(Strings(names))
  {
    if names != [] {
      StringsPrintable(names[1..]);
      assert Strings(names)[1..] == Strings(names[1..]);
    }
  }

  lemma {:induction false} IdentWords()
    ensures IsIdent("undefined") && IsIdent("null") && IsIdent("true") && IsIdent("false") && IsIdent("Construct")
    ensures IsIdent("Ref") && IsIdent("Q") && IsIdent("Fn") && IsIdent("Eval") && IsIdent("While")
  {
  }

  lemma {:induction false} NameIsIdent(t: Term)
    requires IsCall(t)
    ensures IsIdent(Name(t))
  {
    if t.Binary? {
      BinaryIsIdent(t.bop);
    } else if t.Listed? {
      ListIsIdent(t.kind);
    } else {
      PlainIsIdent(t);
    }
  }

  lemma {:induction false} BinaryIsIdent(op: BinaryOp)
    ensures IsIdent(BinaryName(op))
  {
  }

  lemma {:induction false} ListIsIdent(kind: ListKind)
    ensures IsIdent(ListName(kind))
  {
  }

  lemma {:induction false} PlainIsIdent(t: Term)
    requires IsCall(t) && !t.Binary? && !t.Listed?
    ensures IsIdent(Name(t))
  {
  }

  /** Tokenizing a printed term gives its tokens, whatever the layout options and the depth. */
  lemma {:induction false} PrintReads(t: Term, depth: nat, o: Options)
    requires Printable(t)
    ensures Reads(Print(t, depth, o), Toks(t))
    decreases Size(t), 2
  {
    hide Reads, Closed, Lex, WellFormed, Wrapped, Paired, Toks;
    IdentWords();
    NotDerived(t);
    match t
    case Undefined => IdentReads("undefined"); ToksOfWord(t);
    case Null => IdentReads("null"); ToksOfWord(t);
    case Bool(b) => IdentReads(if b then "true" else "false"); ToksOfWord(t);
    case Num(text) => NumeralIs(t); NumberReads(text); ToksOfWord(t);
    case Str(s) => QuotedReads(s); ClosedReads(Quoted(s), [StringTok(s)]); ToksOfWord(t);
    case Array(_) => ArrayReads(t, depth, o);
    case Object(_) => ObjectReads(t, depth, o);
    case Construct(_) => ConstructReads(t, depth, o);
    case Derived(_, _) =>
      assert false;
    case _ => CallReads(t, depth, o);
  }

  lemma {:induction false} NotDerived(t: Term)
    requires Printable(t)
    ensures !t.Derived?
  {
  }

  lemma {:induction false} NumeralIs(t: Term)
    requires Printable(t) && t.Num?
    ensures IsNumeral(t.text)
  {
  }

  lemma {:induction false} ToksOfWord(t: Term)
    ensures t.Undefined? ==> Toks(t) == [Ident("undefined")]
    ensures t.Null? ==> Toks(t) == [Ident("null")]
    ensures t.Bool? ==> Toks(t) == [Ident(if t.b then "true" else "false")]
    ensures t.Num? ==> Toks(t) == [NumberTok(t.text)]
    ensures t.Str? ==> Toks(t) == [StringTok(t.s)]
  {
  }

  lemma {:induction false} BracketsRead()
    ensures Closed("[", [LBracket]) && Closed("]", [RBracket]) && Breaks("]")
    ensures Closed("{", [LBrace]) && Closed("}", [RBrace]) && Breaks("}")
    ensures Blank("") && Blank(" ")
  {
    hide Lex;
    PunctuationReads('[');
    PunctuationReads(']');
    PunctuationReads('{');
    PunctuationReads('}');
    assert ['['] == "[" && [']'] == "]" && ['{'] == "{" && ['}'] == "}";
  }

  lemma {:induction false} ItemsPrintable(t: Term)
    requires WellFormed(t) && t.Array?
    ensures PrintableAll(t.items)
  {
    WellFormedEach(t.items);
  }

  lemma {:induction false} ArrayReads(t: Term, depth: nat, o: Options)
    requires WellFormed(t) && t.Array?
    ensures Reads(Print(t, depth, o), Toks(t))
    decreases Size(t), 1
  {
    hide Reads, Closed, Lex, WellFormed, Wrapped;
    BracketsRead();
    ItemsPrintable(t);
    if t.items == [] {
      ClosedThen("[", [LBracket], "]", [RBracket]);
      assert "[" + "]" == "[]";
      ClosedReads("[]", [LBracket] + [RBracket]);
      assert [LBracket] + Commas([]) + [RBracket] == [LBracket] + [RBracket];
    } else {
      AllRead(t.items, depth + 1, o);
      WrappedReads("[", [LBracket], "", PrintAll(t.items, depth + 1, o), ToksAll(t.items), "]", [RBracket], depth, o);
    }
  }

  lemma {:induction false} AllRead(ts: seq<Term>, depth: nat, o: Options)
    requires PrintableAll(ts)
    ensures ReadsAll(PrintAll(ts, depth, o), ToksAll(ts))
    decreases SizeAll(ts), 3, |ts|
  {
    hide Reads, WellFormed, Lex;
    if ts != [] {
      assert Printable(ts[0]);
      PrintReads(ts[0], depth, o);
      AllRead(ts[1..], depth, o);
      ReadsAllCons(Print(ts[0], depth, o), Toks(ts[0]), PrintAll(ts[1..], depth, o), ToksAll(ts[1..]));
    }
  }

  lemma {:induction false} EntriesRead(es: seq<Entry>, bare: bool, depth: nat, o: Options)
    requires WellFormedEntries(es) && (bare ==> BareKeys(es))
    ensures ReadsAll(PrintEntries(es, bare, depth, o), ToksEntries(es, bare))
    decreases SizeEntries(es), 3, |es|
  {
    hide Reads, WellFormed, Lex, Quoted, Closed;
    if es != [] {
      var e := es[0];
      PrintReads(e.value, depth, o);
      EntriesRead(es[1..], bare, depth, o);
      var key := if bare then e.key else Quoted(e.key);
      KeyReads(e.key, bare);
      PunctuationReads(':');
      BlankSpaces(0);
      BlankReads(" ");
      ClosedThen(":", [Colon], " ", []);
      assert ":" + " " == ": " && [':'] == ":" && [Colon] + [] == [Colon];
      ReadsThen(key, [KeyTok(e.key, bare)], ": ", [Colon]);
      ClosedThen(key + ": ", [KeyTok(e.key, bare)] + [Colon], Print(e.value, depth, o), Toks(e.value));
      assert [KeyTok(e.key, bare)] + [Colon] == [KeyTok(e.key, bare), Colon];
      ReadsAllCons(key + ": " + Print(e.value, depth, o), [KeyTok(e.key, bare), Colon] + Toks(e.value),
                   PrintEntries(es[1..], bare, depth, o), ToksEntries(es[1..], bare));
    }
  }

  lemma {:induction false} KeyReads(key: string, bare: bool)
    requires bare ==> IsIdent(key)
    ensures Reads(if bare then key else Quoted(key), [KeyTok(key, bare)])
  {
    hide Lex, Reads, Closed, Quoted;
    if bare {
      IdentReads(key);
    } else {
      QuotedReads(key);
      ClosedReads(Quoted(key), [StringTok(key)]);
    }
  }

  lemma {:induction false} EntriesPrintable(t: Term)
    requires WellFormed(t) && (t.Object? || t.Construct?)
    ensures WellFormedEntries(if t.Object? then t.entries else Own(t.built))
    ensures t.Construct? ==> t.built.Object? && BareKeys(Own(t.built))
  {
  }

  lemma {:induction false} ObjectReads(t: Term, depth: nat, o: Options)
    requires WellFormed(t) && t.Object?
    ensures Reads(Print(t, depth, o), Toks(t))
    decreases Size(t), 1
  {
    hide Reads, Closed, Lex, WellFormed, Wrapped;
    BracketsRead();
    EntriesPrintable(t);
    if t.entries == [] {
      ClosedThen("{", [LBrace], "}", [RBrace]);
      assert "{" + "}" == "{}";
      ClosedReads("{}", [LBrace] + [RBrace]);
      assert [LBrace] + Commas([]) + [RBrace] == [LBrace] + [RBrace];
    } else {
      EntriesRead(t.entries, false, depth + 1, o);
      WrappedReads("{", [LBrace], " ", PrintEntries(t.entries, false, depth + 1, o), ToksEntries(t.entries, false),
                   "}", [RBrace], depth, o);
    }
  }

  lemma {:induction false} ConstructReads(t: Term, depth: nat, o: Options)
    requires WellFormed(t) && t.Construct?
    ensures Reads(Print(t, depth, o), Toks(t))
    decreases Size(t), 1
  {
    hide Reads, Closed, Lex, WellFormed, Wrapped, Commas;
    BracketsRead();
    IdentWords();
    EntriesPrintable(t);
    EntriesRead(Own(t.built), true, depth + 2, o);
    OpenWord("Construct", "Construct(");
    ClosedThen("Construct(", [Ident("Construct"), LParen], "{", [LBrace]);
    assert "Construct(" + "{" == "Construct({";
    CloseParen();
    ClosedThen("}", [RBrace], ")", [RParen]);
    assert "}" + ")" == "})";
    var tss := ToksEntries(Own(t.built), true);
    WrappedReads("Construct({", [Ident("Construct"), LParen] + [LBrace], " ",
                 PrintEntries(Own(t.built), true, depth + 2, o), tss, "})", [RBrace] + [RParen], depth, o);
    assert [Ident("Construct"), LParen] + [LBrace] + Commas(tss) + ([RBrace] + [RParen])
        == [Ident("Construct"), LParen] + ([LBrace] + Commas(tss) + [RBrace]) + [RParen];
  }

  /** A call of one argument that is never broken. */
  lemma {:induction false} SingleReads(name: string, text: string, toks: seq<Token>)
    requires IsIdent(name) && Reads(text, toks)
    ensures Reads(name + "(" + text + ")", [Ident(name), LParen] + Commas([toks]) + [RParen])
  {
    hide Reads, Closed, Lex;
    OpenCall(name);
    ClosedThen(name + "(", [Ident(name), LParen], text, toks);
    CloseParen();
    ReadsThen(name + "(" + text, [Ident(name), LParen] + toks, ")", [RParen]);
    ClosedReads(name + "(" + text + ")", [Ident(name), LParen] + toks + [RParen]);
  }

  lemma {:induction false} NamesRead(names: seq<string>)
    ensures ReadsAll(QuotedAll(names), ToksAll(Strings(names)))
  {
    hide Reads, Lex, Quoted, Toks, Size, SizeAll;
    if names != [] {
      NamesRead(names[1..]);
      QuotedReads(names[0]);
      ClosedReads(Quoted(names[0]), [StringTok(names[0])]);
      ReadsAllCons(Quoted(names[0]), [StringTok(names[0])], QuotedAll(names[1..]), ToksAll(Strings(names[1..])));
      assert QuotedAll(names) == [Quoted(names[0])] + QuotedAll(names[1..]);
      StringToks(names);
    }
  }

  lemma {:induction false} StringToks(names: seq<string>)
    requires names != []
    ensures ToksAll(Strings(names)) == [[StringTok(names[0])]] + ToksAll(Strings(names[1..]))
  {
    hide Toks;
    var all := Strings(names);
    assert all == [Str(names[0])] + Strings(names[1..]);
    assert all[1..] == Strings(names[1..]) && all[0] == Str(names[0]);
    ToksOfWord(all[0]);
  }

  lemma {:induction false} NameListReads(names: seq<string>)
    ensures Reads("[" + Listing(QuotedAll(names), "", " ") + "]", Toks(Array(Strings(names))))
  {
    hide Reads, Closed, Lex, Listing, Commas;
    BracketsRead();
    NamesRead(names);
    ListingReads(QuotedAll(names), ToksAll(Strings(names)), "", " ");
    var list, tlist := Listing(QuotedAll(names), "", " "), Commas(ToksAll(Strings(names)));
    ClosedThen("[", [LBracket], list, tlist);
    ReadsThen("[" + list, [LBracket] + tlist, "]", [RBracket]);
    ClosedReads("[" + list + "]", [LBracket] + tlist + [RBracket]);
  }

  lemma {:induction false} OpenWord(name: string, open: string)
    requires IsIdent(name) && open == name + "("
    ensures Closed(open, [Ident(name), LParen])
  {
    OpenCall(name);
  }

  /** The opening of a `while`: its condition and the bracket of its body. */
  lemma {:induction false} WhileOpens(text: string, toks: seq<Token>)
    requires Reads(text, toks)
    ensures Closed("While(" + text + ", [", [Ident("While"), LParen] + toks + [Comma] + [LBracket])
  {
    hide Reads, Closed, Lex, Blank;
    IdentWords();
    OpenWord("While", "While(");
    BracketsRead();
    SeparatorReads(" ");
    var to := [Ident("While"), LParen];
    ClosedThen("While(", to, text, toks);
    ReadsThen("While(" + text, to + toks, "," + " ", [Comma]);
    ClosedThen("While(" + text + ("," + " "), to + toks + [Comma], "[", [LBracket]);
    assert "While(" + text + ("," + " ") + "[" == "While(" + text + ", [";
  }

  lemma {:induction false} WhileCloses()
    ensures Closed("])", [RBracket] + [RParen]) && Breaks("])")
  {
    hide Lex, Closed, Reads;
    BracketsRead();
    CloseParen();
    ClosedThen("]", [RBracket], ")", [RParen]);
    assert "]" + ")" == "])";
  }

  lemma {:induction false} CommasCons(tss: seq<seq<Token>>, rest: seq<Token>)
    requires tss != []
    ensures |tss| == 1 ==> Commas(tss) + rest == tss[0] + rest
    ensures |tss| > 1 ==> Commas(tss) + rest == tss[0] + ([Comma] + (Commas(tss[1..]) + rest))
  {
    if |tss| > 1 {
      assert Commas(tss) + rest == tss[0] + [Comma] + Commas(tss[1..]) + rest;
    }
  }

  lemma {:induction false} TwoCommas(a: seq<Token>, b: seq<Token>)
    ensures Commas([a, b]) == a + [Comma] + b
  {
    var two := [a, b];
    assert two[1..] == [b];
  }

  lemma {:induction false} ToksAllTwo(a: Term, b: Term)
    ensures ToksAll([a, b]) == [Toks(a), Toks(b)] && ToksAll([a]) == [Toks(a)]
  {
    hide Toks;
    var two := [a, b];
    assert two[0] == a && two[1..] == [b] && [b][1..] == [] && [a][1..] == [];
  }

  lemma {:induction false} ToksOfCall(t: Term)
    requires IsCall(t) && !t.Construct?
    ensures Toks(t) == [Ident(Name(t)), LParen] + Commas(ToksAll(Args(t))) + [RParen]
    ensures Toks(Array(if t.While? then t.exprs else [])) ==
            [LBracket] + Commas(ToksAll(if t.While? then t.exprs else [])) + [RBracket]
  {
  }

  lemma {:induction false} WhileReads(t: Term, depth: nat, o: Options)
    requires WellFormed(t) && t.While?
    ensures Reads(Print(t, depth, o), Toks(t))
    decreases Size(t), 0
  {
    hide Reads, Closed, Lex, WellFormed, Wrapped, Commas, Toks, Blank, ReadsAll;
    WhileParts(t);
    PrintReads(t.test, depth + 1, o);
    AllRead(t.exprs, depth + 1, o);
    var c, tc := Print(t.test, depth + 1, o), Toks(t.test);
    var to, tl := [Ident("While"), LParen], Commas(ToksAll(t.exprs));
    WhileOpens(c, tc);
    WhileCloses();
    BlankSpaces(0);
    WrappedReads("While(" + c + ", [", to + tc + [Comma] + [LBracket], "", PrintAll(t.exprs, depth + 1, o),
                 ToksAll(t.exprs), "])", [RBracket] + [RParen], depth, o);
    ToksOfCall(t);
    ToksAllTwo(t.test, Array(t.exprs));
    TwoCommas(tc, Toks(Array(t.exprs)));
    assert to + tc + [Comma] + [LBracket] + tl + ([RBracket] + [RParen])
        == to + (tc + [Comma] + ([LBracket] + tl + [RBracket])) + [RParen];
  }

  lemma {:induction false} WhileParts(t: Term)
    requires WellFormed(t) && t.While?
    ensures Printable(t.test) && PrintableAll(t.exprs)
  {
    WellFormedEach(t.exprs);
  }

  lemma {:induction false} PairParts(t: Term)
    requires WellFormed(t) && (t.Fn? || t.Eval?)
    ensures Printable(if t.Fn? then t.body else t.data)
  {
  }

  lemma {:induction false} PairReads(t: Term, depth: nat, o: Options)
    requires WellFormed(t) && (t.Fn? || t.Eval?)
    ensures Reads(Print(t, depth, o), Toks(t))
    decreases Size(t), 0
  {
    hide Reads, Closed, Lex, WellFormed, Paired, Commas, Toks, Quoted, Listing;
    PairParts(t);
    ToksOfCall(t);
    IdentWords();
    if t.Fn? {
      PrintReads(t.body, depth + 1, o);
      NameListReads(t.params);
      OpenWord("Fn", "Fn(");
      ToksAllTwo(Array(Strings(t.params)), t.body);
      PairedReads("Fn(", [Ident("Fn"), LParen], "[" + Listing(QuotedAll(t.params), "", " ") + "]",
                  Toks(Array(Strings(t.params))), Print(t.body, depth + 1, o), Toks(t.body), depth, o);
    } else {
      PrintReads(t.data, depth + 1, o);
      QuotedReads(t.id);
      ClosedReads(Quoted(t.id), [StringTok(t.id)]);
      ToksOfWord(Str(t.id));
      OpenWord("Eval", "Eval(");
      ToksAllTwo(Str(t.id), t.data);
      PairedReads("Eval(", [Ident("Eval"), LParen], Quoted(t.id), [StringTok(t.id)], Print(t.data, depth + 1, o),
                  Toks(t.data), depth, o);
    }
  }

  lemma {:induction false} QuoteParts(t: Term)
    requires WellFormed(t) && t.Quote?
    ensures Printable(t.expr)
  {
    assert Args(t) == [t.expr];
  }

  lemma {:induction false} UnbrokenReads(t: Term, depth: nat, o: Options)
    requires WellFormed(t) && (t.Ref? || t.Quote?)
    ensures Reads(Print(t, depth, o), Toks(t))
    decreases Size(t), 0
  {
    hide Reads, Closed, Lex, WellFormed, Commas, Toks, Quoted;
    ToksOfCall(t);
    IdentWords();
    if t.Ref? {
      QuotedReads(t.name);
      ClosedReads(Quoted(t.name), [StringTok(t.name)]);
      ToksOfWord(Str(t.name));
      ToksAllTwo(Str(t.name), Null);
      SingleReads("Ref", Quoted(t.name), [StringTok(t.name)]);
      assert "Ref" + "(" == "Ref(";
    } else {
      QuoteParts(t);
      PrintReads(t.expr, depth, o);
      ToksAllTwo(t.expr, Null);
      SingleReads("Q", Print(t.expr, depth, o), Toks(t.expr));
      assert "Q" + "(" == "Q(";
    }
  }

  lemma {:induction false} CallReads(t: Term, depth: nat, o: Options)
    requires WellFormed(t) && IsCall(t) && !t.Construct?
    ensures Reads(Print(t, depth, o), Toks(t))
    decreases Size(t), 1
  {
    hide Reads, Closed, Lex, WellFormed, Wrapped, Paired, Listing, Commas, Toks, Blank, ReadsAll, Args, Name;
    if t.Ref? || t.Quote? {
      UnbrokenReads(t, depth, o);
    } else if t.Fn? || t.Eval? {
      PairReads(t, depth, o);
    } else if t.While? {
      WhileReads(t, depth, o);
    } else {
      ArgsPrintable(t);
      ArgsSmaller(t);
      AllRead(Args(t), depth + 1, o);
      NameIsIdent(t);
      OpenCall(Name(t));
      CloseParen();
      BlankSpaces(0);
      WrappedReads(Name(t) + "(", [Ident(Name(t)), LParen], "", PrintAll(Args(t), depth + 1, o), ToksAll(Args(t)), ")",
                   [RParen], depth, o);
      ToksOfCall(t);
    }
  }

  /** The tokens of the printed text, alone. */
  lemma {:induction false} PrintLexes(t: Term, o: Options)
    requires WellFormed(t)
    ensures Lex(Print(t, 0, o)) == Some(Toks(t))
  {
    hide Print, Toks, WellFormed;
    PrintReads(t, 0, o);
    ReadsAt(Print(t, 0, o), Toks(t), "");
    assert Print(t, 0, o) + "" == Print(t, 0, o);
    assert Lex("") == Some([]);
    assert Toks(t) + [] == Toks(t);
  }
}
