/** The layout of printed IR: a term takes one line exactly when this is wanted and fits. */
module Layout {
  import opened Lexer
  import opened Term
  import opened Printer

  // ----- on one line -----

  /** The term on one line. */
  function OneLine(t: Term): string
    decreases Size(t), 0
  {
    match t
    case Undefined => "undefined"
    case Null => "null"
    case Bool(b) => if b then "true" else "false"
    case Num(text) => text
    case Str(s) => Quoted(s)
    case Array(items) => if items == [] then "[]" else InLine("[", "", OneLineAll(items), "]")
    case Object(entries) => if entries == [] then "{}" else InLine("{", " ", OneLineEntries(entries, false), "}")
    case Derived(own, _) => if own == [] then "{}" else InLine("{", " ", OneLineEntries(own, false), "}")
    case Ref(name) => "Ref(" + Quoted(name) + ")"
    case Quote(e) => "Q(" + OneLine(e) + ")"
    case Fn(params, body) => "Fn([" + Listing(QuotedAll(params), "", " ") + "], " + OneLine(body) + ")"
    case Eval(id, data) => "Eval(" + Quoted(id) + ", " + OneLine(data) + ")"
    case While(c, exprs) => InLine("While(" + OneLine(c) + ", [", "", OneLineAll(exprs), "])")
    case Construct(built) => InLine("Construct({", " ", OneLineEntries(Own(built), true), "})")
    case _ =>
      ArgsSmaller(t);
      InLine(Name(t) + "(", "", OneLineAll(Args(t)), ")")
  }

  function InLine(open: string, space: string, items: seq<string>, close: string): string
  {
    open + space + Listing(items, "", " ") + space + close
  }

  function OneLineAll(ts: seq<Term>): (r: seq<string>)
    ensures |r| == |ts|
    decreases SizeAll(ts), 1, |ts|
  {
    if ts == [] then [] else [OneLine(ts[0])] + OneLineAll(ts[1..])
  }

  function OneLineEntries(es: seq<Entry>, bare: bool): (r: seq<string>)
    ensures |r| == |es|
    decreases SizeEntries(es), 1, |es|
  {
    if es == [] then []
    else
      [(if bare then es[0].key else Quoted(es[0].key)) + ": " + OneLine(es[0].value)] + OneLineEntries(es[1..], bare)
  }

  /** Terms that can be spread over lines. */
  predicate Breakable(t: Term)
  {
    match t
    case Array(items) => items != []
    case Object(entries) => entries != []
    case Derived(own, _) => own != []
    case _ => IsCall(t) && !t.Ref? && !t.Quote?
  }

  // ----- a term that fits -----

  lemma {:induction false} ItemsShorter(items: seq<string>, i: nat)
    requires i < |items|
    ensures |items[i]| <= |Listing(items, "", " ")|
  {
    if i > 0 {
      ItemsShorter(items[1..], i - 1);
    }
  }

  predicate EachAtMost(items: seq<string>, w: int) { forall i :: 0 <= i < |items| ==> |items[i]| <= w }

  lemma {:induction false} InLineItems(open: string, space: string, items: seq<string>, close: string, w: int)
    requires |InLine(open, space, items, close)| <= w
    ensures EachAtMost(items, w) && |open| <= w
  {
    forall i | 0 <= i < |items| ensures |items[i]| <= w {
      ItemsShorter(items, i);
    }
  }

  /** A term that fits is printed on one line. */
  lemma {:induction false} FitsOnLine(t: Term, depth: nat, o: Options)
    requires o.compact && |OneLine(t)| <= o.maxWidth
    ensures Print(t, depth, o) == OneLine(t)
    decreases Size(t), 0
  {
    hide PrintAll, OneLineAll, PrintEntries, OneLineEntries, Listing, Quoted, Args, Name, SizeAll, SizeEntries;
    if t.Array? {
      if t.items != [] {
        InLineItems("[", "", OneLineAll(t.items), "]", o.maxWidth);
        FitAll(t.items, depth + 1, o);
      }
    } else if t.Object? || t.Derived? {
      if Own(t) != [] {
        InLineItems("{", " ", OneLineEntries(Own(t), false), "}", o.maxWidth);
        FitEntries(Own(t), false, depth + 1, o);
      }
    } else if t.Quote? {
      FitsOnLine(t.expr, depth, o);
    } else if t.Fn? {
      FitsOnLine(t.body, depth + 1, o);
      FnText(t.params, OneLine(t.body));
    } else if t.Eval? {
      FitsOnLine(t.data, depth + 1, o);
    } else if t.While? {
      InLineItems("While(" + OneLine(t.test) + ", [", "", OneLineAll(t.exprs), "])", o.maxWidth);
      FitsOnLine(t.test, depth + 1, o);
      FitAll(t.exprs, depth + 1, o);
    } else if t.Construct? {
      InLineItems("Construct({", " ", OneLineEntries(Own(t.built), true), "})", o.maxWidth);
      FitEntries(Own(t.built), true, depth + 2, o);
    } else if IsCall(t) && !t.Ref? {
      ArgsSmaller(t);
      InLineItems(Name(t) + "(", "", OneLineAll(Args(t)), ")", o.maxWidth);
      FitAll(Args(t), depth + 1, o);
    }
  }

  lemma {:induction false} FnText(params: seq<string>, body: string)
    ensures "Fn(" + ("[" + Listing(QuotedAll(params), "", " ") + "]") + ", " + body + ")" ==
            "Fn([" + Listing(QuotedAll(params), "", " ") + "], " + body + ")"
  {
    hide Listing;
    assert "Fn(" + "[" == "Fn([" && "]" + ", " == "], ";
  }

  lemma {:induction false} FitAll(ts: seq<Term>, depth: nat, o: Options)
    requires o.compact && EachAtMost(OneLineAll(ts), o.maxWidth)
    ensures PrintAll(ts, depth, o) == OneLineAll(ts)
    decreases SizeAll(ts), 1, |ts|
  {
    hide Print, OneLine;
    if ts != [] {
      assert OneLineAll(ts)[0] == OneLine(ts[0]) && OneLineAll(ts)[1..] == OneLineAll(ts[1..]);
      FitsOnLine(ts[0], depth, o);
      FitAll(ts[1..], depth, o);
    }
  }

  lemma {:induction false} FitEntries(es: seq<Entry>, bare: bool, depth: nat, o: Options)
    requires o.compact && EachAtMost(OneLineEntries(es, bare), o.maxWidth)
    ensures PrintEntries(es, bare, depth, o) == OneLineEntries(es, bare)
    decreases SizeEntries(es), 1, |es|
  {
    hide Print, OneLine, Quoted;
    if es != [] {
      var all := OneLineEntries(es, bare);
      assert all[0] == (if bare then es[0].key else Quoted(es[0].key)) + ": " + OneLine(es[0].value);
      assert all[1..] == OneLineEntries(es[1..], bare);
      FitsOnLine(es[0].value, depth, o);
      FitEntries(es[1..], bare, depth, o);
    }
  }

  // ----- a text without line breaks -----

  lemma {:induction false} ItemsInside(items: seq<string>, i: nat)
    requires i < |items| && '\n' in items[i]
    ensures '\n' in Listing(items, "", " ")
  {
    if i > 0 {
      ItemsInside(items[1..], i - 1);
    }
  }

  predicate NoBreaks(items: seq<string>) { forall i :: 0 <= i < |items| ==> '\n' !in items[i] }

  lemma {:induction false} WrappedBroken(open: string, space: string, items: seq<string>, close: string, depth: nat,
                                         o: Options)
    requires !Fits(InLine(open, space, items, close), o)
    ensures '\n' in Wrapped(open, space, items, close, depth, o)
  {
    hide Listing, Spaces;
    assert Wrapped(open, space, items, close, depth, o)[|open|] == '\n';
  }

  lemma {:induction false} PairedBroken(open: string, first: string, second: string, depth: nat, o: Options)
    requires !Fits(open + first + ", " + second + ")", o)
    ensures '\n' in Paired(open, first, second, depth, o)
  {
    hide Spaces;
    assert Paired(open, first, second, depth, o)[|open + first| + 1] == '\n';
  }

  /** A text without breaks is the one on one line, which fits, and so are its items. */
  lemma {:induction false} WrappedUnbroken(open: string, space: string, items: seq<string>, close: string, depth: nat,
                                           o: Options)
    requires '\n' !in Wrapped(open, space, items, close, depth, o)
    ensures Wrapped(open, space, items, close, depth, o) == InLine(open, space, items, close)
    ensures o.compact && |InLine(open, space, items, close)| <= o.maxWidth
    ensures NoBreaks(items) && '\n' !in open
  {
    hide Listing, Spaces;
    if !Fits(InLine(open, space, items, close), o) {
      WrappedBroken(open, space, items, close, depth, o);
    }
    forall i | 0 <= i < |items| ensures '\n' !in items[i] {
      if '\n' in items[i] {
        ItemsInside(items, i);
      }
    }
  }

  lemma {:induction false} PairedUnbroken(open: string, first: string, second: string, depth: nat, o: Options)
    requires '\n' !in Paired(open, first, second, depth, o)
    ensures Paired(open, first, second, depth, o) == open + first + ", " + second + ")"
    ensures o.compact && |open + first + ", " + second + ")"| <= o.maxWidth && '\n' !in second
  {
    hide Spaces;
    if !Fits(open + first + ", " + second + ")", o) {
      PairedBroken(open, first, second, depth, o);
    }
  }

  /** A term that is printed without a line break is printed on one line, and one that could
      be spread over lines then fits. */
  lemma {:induction false} UnbrokenFits(t: Term, depth: nat, o: Options)
    requires '\n' !in Print(t, depth, o)
    ensures Print(t, depth, o) == OneLine(t)
    ensures Breakable(t) ==> o.compact && |OneLine(t)| <= o.maxWidth
    decreases Size(t), 0
  {
    hide PrintAll, OneLineAll, PrintEntries, OneLineEntries, Listing, Quoted, Args, Name, SizeAll, SizeEntries, Wrapped,
      Paired;
    if t.Array? {
      if t.items != [] {
        WrappedUnbroken("[", "", PrintAll(t.items, depth + 1, o), "]", depth, o);
        UnbrokenAll(t.items, depth + 1, o);
      }
    } else if t.Object? || t.Derived? {
      if Own(t) != [] {
        WrappedUnbroken("{", " ", PrintEntries(Own(t), false, depth + 1, o), "}", depth, o);
        UnbrokenEntries(Own(t), false, depth + 1, o);
      }
    } else if t.Quote? {
      UnbrokenFits(t.expr, depth, o);
    } else if t.Fn? {
      var params := "[" + Listing(QuotedAll(t.params), "", " ") + "]";
      PairedUnbroken("Fn(", params, Print(t.body, depth + 1, o), depth, o);
      UnbrokenFits(t.body, depth + 1, o);
      FnText(t.params, OneLine(t.body));
    } else if t.Eval? {
      PairedUnbroken("Eval(", Quoted(t.id), Print(t.data, depth + 1, o), depth, o);
      UnbrokenFits(t.data, depth + 1, o);
    } else if t.While? {
      var test := Print(t.test, depth + 1, o);
      WrappedUnbroken("While(" + test + ", [", "", PrintAll(t.exprs, depth + 1, o), "])", depth, o);
      NoneInside("While(", test, ", [");
      UnbrokenFits(t.test, depth + 1, o);
      UnbrokenAll(t.exprs, depth + 1, o);
    } else if t.Construct? {
      WrappedUnbroken("Construct({", " ", PrintEntries(Own(t.built), true, depth + 2, o), "})", depth, o);
      UnbrokenEntries(Own(t.built), true, depth + 2, o);
    } else if IsCall(t) && !t.Ref? {
      ArgsSmaller(t);
      WrappedUnbroken(Name(t) + "(", "", PrintAll(Args(t), depth + 1, o), ")", depth, o);
      UnbrokenAll(Args(t), depth + 1, o);
    }
  }

  lemma {:induction false} NoneInside(a: string, b: string, c: string)
    requires '\n' !in a + b + c
    ensures '\n' !in b
  {
    assert a + b + c == a + (b + c);
  }

  lemma {:induction false} UnbrokenAll(ts: seq<Term>, depth: nat, o: Options)
    requires NoBreaks(PrintAll(ts, depth, o))
    ensures PrintAll(ts, depth, o) == OneLineAll(ts)
    decreases SizeAll(ts), 1, |ts|
  {
    hide Print, OneLine;
    if ts != [] {
      var all := PrintAll(ts, depth, o);
      assert all[0] == Print(ts[0], depth, o) && all[1..] == PrintAll(ts[1..], depth, o);
      UnbrokenFits(ts[0], depth, o);
      UnbrokenAll(ts[1..], depth, o);
    }
  }

  lemma {:induction false} UnbrokenEntries(es: seq<Entry>, bare: bool, depth: nat, o: Options)
    requires NoBreaks(PrintEntries(es, bare, depth, o))
    ensures PrintEntries(es, bare, depth, o) == OneLineEntries(es, bare)
    decreases SizeEntries(es), 1, |es|
  {
    hide Print, OneLine, Quoted;
    if es != [] {
      var all := PrintEntries(es, bare, depth, o);
      var key := if bare then es[0].key else Quoted(es[0].key);
      assert all[0] == key + ": " + Print(es[0].value, depth, o) && all[1..] == PrintEntries(es[1..], bare, depth, o);
      NoneInside(key + ": ", Print(es[0].value, depth, o), "");
      UnbrokenFits(es[0].value, depth, o);
      UnbrokenEntries(es[1..], bare, depth, o);
    }
  }
}
