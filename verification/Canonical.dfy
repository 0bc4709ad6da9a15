/** The canonical encoding of JSON values: the text that equality and payload identity
    compare. */
module Canonical {
  import opened Text
  import opened Lexer
  import opened Printer
  import opened PrinterTokens
  import opened Ir

  /** JSON values; objects without an order of keys, numbers as their numerals. */
  datatype Json =
    | JNull | JBool(b: bool) | JNum(text: string) | JStr(s: string)
    | JArr(items: seq<Json>) | JObj(fields: map<string, Json>)

  ghost predicate Finite(v: Json)
  {
    match v
    case JNum(text) => IsNumeral(text)
    case JArr(items) => forall i :: 0 <= i < |items| ==> Finite(items[i])
    case JObj(fields) => forall k :: k in fields ==> Finite(fields[k])
    case _ => true
  }

  /** Numbers are told apart by value but for the two zeros. */
  function Normal(v: Json): Json
  {
    match v
    case JNum(text) => JNum(if text == "-0" then "0" else text)
    case JArr(items) => JArr(seq(|items|, i requires 0 <= i < |items| => Normal(items[i])))
    case JObj(fields) => JObj(map k | k in fields :: Normal(fields[k]))
    case _ => v
  }

  /** A value without a negative zero. */
  ghost predicate Unsigned(v: Json)
  {
    match v
    case JNum(text) => text != "-0"
    case JArr(items) => forall i :: 0 <= i < |items| ==> Unsigned(items[i])
    case JObj(fields) => forall k :: k in fields ==> Unsigned(fields[k])
    case _ => true
  }

  // ----- encoding -----

  function Encode(v: Json): string
    decreases v, 1
  {
    match v
    case JNull => "null"
    case JBool(b) => if b then "true" else "false"
    case JNum(text) => if text == "-0" then "0" else text
    case JStr(s) => Quoted(s)
    case JArr(items) => "[" + Listing(EncodeAll(items), "", "") + "]"
    case JObj(fields) => "{" + Listing(EncodeFields(v, SortedKeys(fields.Keys)), "", "") + "}"
  }

  function EncodeAll(items: seq<Json>): (r: seq<string>)
    ensures |r| == |items|
    decreases items, 0
  {
    if items == [] then [] else [Encode(items[0])] + EncodeAll(items[1..])
  }

  function EncodeFields(v: Json, keys: seq<string>): (r: seq<string>)
    requires v.JObj? && forall k :: k in keys ==> k in v.fields
    ensures |r| == |keys|
    decreases v, 0, |keys|
  {
    if keys == [] then []
    else
      var k := keys[0];
      assert k in keys;
      [Quoted(k) + ":" + Encode(v.fields[k])] + EncodeFields(v, keys[1..])
  }

  // ----- how values are spelled -----

  lemma {:induction false} ListingMore(x: string, rest: seq<string>)
    ensures Listing([], "", "") == "" && Listing([x], "", "") == x
    ensures rest != [] ==> Listing([x] + rest, "", "") == x + "," + Listing(rest, "", "")
  {
    assert ([x] + rest)[1..] == rest;
    assert "" + x == x && "," + "" == ",";
  }

  /** Within brackets, what follows the first item. */
  lemma {:induction false} Bracketing(open: string, x: string, tail: string, close: string)
    requires |open| == 1
    ensures open + (x + "," + tail) + close == open + x + "," + (open + tail + close)[1..]
  {
    assert (open + tail + close)[1..] == tail + close;
  }

  /** Arrays: the encodings of the items, with commas between them and nothing else. */
  lemma {:induction false} ArraySpelled(a: Json, rest: seq<Json>)
    ensures Encode(JArr([])) == "[]" && Encode(JArr([a])) == "[" + Encode(a) + "]"
    ensures rest != [] ==> Encode(JArr([a] + rest)) == "[" + Encode(a) + "," + Encode(JArr(rest))[1..]
  {
    EncodeFirst(a, []);
    EncodeFirst(a, rest);
    hide Encode, EncodeAll, Listing;
    ArrayText([]);
    ArrayText([a]);
    ArrayText(rest);
    ArrayText([a] + rest);
    ListingMore(Encode(a), EncodeAll(rest));
    assert [a] + [] == [a] && [Encode(a)] + [] == [Encode(a)];
    Bracketing("[", Encode(a), Listing(EncodeAll(rest), "", ""), "]");
  }

  lemma {:induction false} EncodeFirst(a: Json, rest: seq<Json>)
    ensures EncodeAll([a] + rest) == [Encode(a)] + EncodeAll(rest) && EncodeAll([]) == []
  {
    assert ([a] + rest)[1..] == rest;
  }

  lemma {:induction false} ArrayText(items: seq<Json>)
    ensures Encode(JArr(items)) == "[" + Listing(EncodeAll(items), "", "") + "]"
  {
  }

  /** Objects: the least key comes first, with its value behind a colon; the others follow
      behind a comma. */
  lemma {:induction false} ObjectSpelled(fields: map<string, Json>, k: string)
    requires k in fields && forall j :: j in fields ==> AtMost(k, j)
    ensures Encode(JObj(map[])) == "{}"
    ensures var rest := fields - {k};
            Encode(JObj(fields)) == "{" + Quoted(k) + ":" + Encode(fields[k]) +
                                    (if rest == map[] then "}" else "," + Encode(JObj(rest))[1..])
  {
    hide Encode, Quoted, EncodeFields, Listing, SortedKeys, AtMost;
    var rest := fields - {k};
    ObjectText(fields);
    ObjectText(rest);
    LeastFirst(fields, k);
    var first := Quoted(k) + ":" + Encode(fields[k]);
    var others := EncodeFields(JObj(rest), SortedKeys(rest.Keys));
    ListingMore(first, others);
    assert [first] + [] == [first];
    Bracketing("{", first, Listing(others, "", ""), "}");
  }

  lemma {:induction false} LeastFirst(fields: map<string, Json>, k: string)
    requires k in fields && forall j :: j in fields ==> AtMost(k, j)
    ensures var rest := fields - {k};
            var others := EncodeFields(JObj(rest), SortedKeys(rest.Keys));
            && EncodeFields(JObj(fields), SortedKeys(fields.Keys)) == [Quoted(k) + ":" + Encode(fields[k])] + others
            && (rest == map[] <==> others == [])
    ensures Encode(JObj(map[])) == "{}"
  {
    NoFields();
    hide Encode, Quoted, AtMost;
    var rest := fields - {k};
    assert rest.Keys == fields.Keys - {k};
    assert IsLeast(k, fields.Keys);
    LeastKeyFirst(fields.Keys, k);
    var keys := SortedKeys(rest.Keys);
    hide EncodeFields, SortedKeys;
    SameFields(fields, rest, keys);
    FieldFirst(fields, k, keys);
    FieldFirst(fields, k, []);
    assert rest != map[] ==> rest.Keys != {};
  }

  lemma {:induction false} NoFields()
    ensures Encode(JObj(map[])) == "{}"
  {
    var none: map<string, Json> := map[];
    assert none.Keys == {} && EncodeFields(JObj(none), SortedKeys({})) == [];
  }

  lemma {:induction false} FieldFirst(fields: map<string, Json>, k: string, keys: seq<string>)
    requires k in fields && forall j :: j in keys ==> j in fields
    ensures EncodeFields(JObj(fields), [k] + keys) ==
            [Quoted(k) + ":" + Encode(fields[k])] + EncodeFields(JObj(fields), keys)
    ensures EncodeFields(JObj(fields), []) == []
  {
    hide Encode, Quoted;
    assert ([k] + keys)[1..] == keys;
  }

  lemma {:induction false} ObjectText(fields: map<string, Json>)
    ensures var keys := SortedKeys(fields.Keys);
            Encode(JObj(fields)) == "{" + Listing(EncodeFields(JObj(fields), keys), "", "") + "}"
  {
  }

  lemma {:induction false} SameFields(fields: map<string, Json>, rest: map<string, Json>, keys: seq<string>)
    requires forall x :: x in keys ==> x in rest && x in fields && rest[x] == fields[x]
    ensures EncodeFields(JObj(fields), keys) == EncodeFields(JObj(rest), keys)
  {
    hide Encode, Quoted;
    if keys != [] {
      SameFields(fields, rest, keys[1..]);
    }
  }

  // ----- tokens -----

  function JsonToks(v: Json): seq<Token>
    decreases v, 1
  {
    match v
    case JNull => [Ident("null")]
    case JBool(b) => [Ident(if b then "true" else "false")]
    case JNum(text) => [NumberTok(text)]
    case JStr(s) => [StringTok(s)]
    case JArr(items) => [LBracket] + Commas(ItemToks(items)) + [RBracket]
    case JObj(fields) => [LBrace] + Commas(FieldToks(v, SortedKeys(fields.Keys))) + [RBrace]
  }

  function ItemToks(items: seq<Json>): (r: seq<seq<Token>>)
    ensures |r| == |items|
    decreases items, 0
  {
    if items == [] then [] else [JsonToks(items[0])] + ItemToks(items[1..])
  }

  function FieldToks(v: Json, keys: seq<string>): (r: seq<seq<Token>>)
    requires v.JObj? && forall k :: k in keys ==> k in v.fields
    ensures |r| == |keys|
    decreases v, 0, |keys|
  {
    if keys == [] then []
    else
      var k := keys[0];
      assert k in keys;
      [[StringTok(k), Colon] + JsonToks(v.fields[k])] + FieldToks(v, keys[1..])
  }

  lemma {:induction false} EncodeReads(v: Json)
    requires Finite(v) && Unsigned(v)
    ensures Reads(Encode(v), JsonToks(v))
    decreases v, 1
  {
    hide Reads, Closed, Lex, Listing, Commas;
    IdentWords();
    BracketsRead();
    match v
    case JNull => IdentReads("null");
    case JBool(b) => IdentReads(if b then "true" else "false");
    case JNum(text) => NumberReads(text);
    case JStr(s) => QuotedReads(s); ClosedReads(Quoted(s), [StringTok(s)]);
    case JArr(items) =>
      ItemsRead(items);
      ListingReads(EncodeAll(items), ItemToks(items), "", "");
      Delimited("[", LBracket, Listing(EncodeAll(items), "", ""), Commas(ItemToks(items)), "]", RBracket);
    case JObj(fields) =>
      var keys := SortedKeys(fields.Keys);
      FieldsRead(v, keys);
      ListingReads(EncodeFields(v, keys), FieldToks(v, keys), "", "");
      Delimited("{", LBrace, Listing(EncodeFields(v, keys), "", ""), Commas(FieldToks(v, keys)), "}", RBrace);
  }

  lemma {:induction false} Delimited(open: string, topen: Token, text: string, toks: seq<Token>, close: string,
                                     tclose: Token)
    requires Closed(open, [topen]) && Reads(text, toks) && Closed(close, [tclose]) && close != [] && Breaks(close)
    ensures Reads(open + text + close, [topen] + toks + [tclose])
  {
    hide Reads, Closed, Lex;
    ClosedThen(open, [topen], text, toks);
    ReadsThen(open + text, [topen] + toks, close, [tclose]);
    ClosedReads(open + text + close, [topen] + toks + [tclose]);
  }

  lemma {:induction false} ItemsRead(items: seq<Json>)
    requires forall i :: 0 <= i < |items| ==> Finite(items[i]) && Unsigned(items[i])
    ensures ReadsAll(EncodeAll(items), ItemToks(items))
    decreases items, 0
  {
    hide Reads, Lex;
    if items != [] {
      EncodeReads(items[0]);
      ItemsRead(items[1..]);
      ReadsAllCons(Encode(items[0]), JsonToks(items[0]), EncodeAll(items[1..]), ItemToks(items[1..]));
    }
  }

  lemma {:induction false} FieldsRead(v: Json, keys: seq<string>)
    requires v.JObj? && Finite(v) && Unsigned(v) && forall k :: k in keys ==> k in v.fields
    ensures ReadsAll(EncodeFields(v, keys), FieldToks(v, keys))
    decreases v, 0, |keys|
  {
    hide Reads, Closed, Lex, Quoted;
    if keys != [] {
      var k := keys[0];
      assert k in keys;
      EncodeReads(v.fields[k]);
      FieldsRead(v, keys[1..]);
      FieldReads(k, Encode(v.fields[k]), JsonToks(v.fields[k]));
      ReadsAllCons(Quoted(k) + ":" + Encode(v.fields[k]), [StringTok(k), Colon] + JsonToks(v.fields[k]),
                   EncodeFields(v, keys[1..]), FieldToks(v, keys[1..]));
    }
  }

  lemma {:induction false} FieldReads(k: string, text: string, toks: seq<Token>)
    requires Reads(text, toks)
    ensures Reads(Quoted(k) + ":" + text, [StringTok(k), Colon] + toks)
  {
    hide Reads, Closed, Lex, Quoted;
    QuotedReads(k);
    PunctuationReads(':');
    assert [':'] == ":";
    ClosedThen(Quoted(k), [StringTok(k)], ":", [Colon]);
    assert [StringTok(k)] + [Colon] == [StringTok(k), Colon];
    ClosedThen(Quoted(k) + ":", [StringTok(k), Colon], text, toks);
  }

  // ----- decoding -----

  /** `JSON.parse` on tokens: a value and what follows it. */
  function ParseJson(ts: seq<Token>): (r: Option<(Json, seq<Token>)>)
    ensures r.Some? ==> |r.value.1| < |ts|
    decreases |ts|, 1
  {
    if ts == [] then None
    else
      match ts[0]
      case StringTok(s) => Some((JStr(s), ts[1..]))
      case NumberTok(text) => Some((JNum(text), ts[1..]))
      case Ident(name) =>
        if name == "null" then Some((JNull, ts[1..]))
        else if name == "true" then Some((JBool(true), ts[1..]))
        else if name == "false" then Some((JBool(false), ts[1..]))
        else None
      case LBracket =>
        if |ts| > 1 && ts[1] == RBracket then Some((JArr([]), ts[2..])) else ParseItems(ts[1..], [])
      case LBrace =>
        if |ts| > 1 && ts[1] == RBrace then Some((JObj(map[]), ts[2..])) else ParseFields(ts[1..], map[])
      case _ => None
  }

  function ParseItems(ts: seq<Token>, got: seq<Json>): (r: Option<(Json, seq<Token>)>)
    ensures r.Some? ==> |r.value.1| < |ts|
    decreases |ts|, 2
  {
    match ParseJson(ts)
    case None => None
    case Some((v, rest)) =>
      if rest != [] && rest[0] == Comma then ParseItems(rest[1..], got + [v])
      else if rest != [] && rest[0] == RBracket then Some((JArr(got + [v]), rest[1..]))
      else None
  }

  function ParseFields(ts: seq<Token>, got: map<string, Json>): (r: Option<(Json, seq<Token>)>)
    ensures r.Some? ==> |r.value.1| < |ts|
    decreases |ts|, 2
  {
    if |ts| < 2 || !ts[0].StringTok? || ts[1] != Colon then None
    else
      match ParseJson(ts[2..])
      case None => None
      case Some((v, rest)) =>
        if rest != [] && rest[0] == Comma then ParseFields(rest[1..], got[ts[0].s := v])
        else if rest != [] && rest[0] == RBrace then Some((JObj(got[ts[0].s := v]), rest[1..]))
        else None
  }

  function Decode(text: string): Option<Json>
  {
    match Lex(text)
    case None => None
    case Some(ts) =>
      match ParseJson(ts)
      case Some((v, rest)) => if rest == [] then Some(v) else None
      case None => None
  }

  lemma {:induction false} JsonFirst(v: Json)
    ensures JsonToks(v) != [] && JsonToks(v)[0] !in {RBracket, RBrace, Comma}
  {
  }

  lemma {:induction false} ParseEncoded(v: Json, rest: seq<Token>)
    ensures ParseJson(JsonToks(v) + rest) == Some((v, rest))
    decreases v, 3
  {
    hide Commas, ItemToks, FieldToks, ParseItems, ParseFields;
    match v
    case JArr(_) => ParseArrayEncoded(v, rest);
    case JObj(_) => ParseObjectEncoded(v, rest);
    case _ => assert (JsonToks(v) + rest)[1..] == rest;
  }

  lemma {:induction false} ParseArrayEncoded(v: Json, rest: seq<Token>)
    requires v.JArr?
    ensures ParseJson(JsonToks(v) + rest) == Some((v, rest))
    decreases v, 2
  {
    hide Commas, ItemToks, FieldToks, ParseItems, ParseFields;
    var ts, items := JsonToks(v) + rest, v.items;
    if items == [] {
      NoTokens(v);
      assert ts == [LBracket, RBracket] + rest && ts[2..] == rest;
    } else {
      var inner := Commas(ItemToks(items)) + ([RBracket] + rest);
      assert ts[1..] == inner;
      ItemsStart(items, [RBracket] + rest);
      assert ts[1] == inner[0];
      ParseItemsBack(items, rest, []);
      assert [] + items == items;
    }
  }

  lemma {:induction false} ParseObjectEncoded(v: Json, rest: seq<Token>)
    requires v.JObj?
    ensures ParseJson(JsonToks(v) + rest) == Some((v, rest))
    decreases v, 2
  {
    hide Commas, FieldToks, ParseJson, Sorted;
    ParseKeysEncoded(v, SortedKeys(v.fields.Keys), rest);
  }

  lemma {:induction false} ParseKeysEncoded(v: Json, keys: seq<string>, rest: seq<Token>)
    requires v.JObj? && (forall k :: k in keys ==> k in v.fields) && (forall k :: k in v.fields ==> k in keys)
    ensures ParseJson([LBrace] + Commas(FieldToks(v, keys)) + [RBrace] + rest) == Some((v, rest))
    decreases v, 1, |keys| + 1
  {
    hide Commas, FieldToks, ParseItems, ParseFields, Restrict, JsonToks;
    var ts := [LBrace] + Commas(FieldToks(v, keys)) + [RBrace] + rest;
    if keys == [] {
      NoTokens(v);
      assert v.fields == map[];
      assert ts == [LBrace, RBrace] + rest && ts[2..] == rest;
    } else {
      var inner := Commas(FieldToks(v, keys)) + ([RBrace] + rest);
      assert ts[1..] == inner;
      FieldsStart(v, keys, [RBrace] + rest);
      assert ts[1] == inner[0];
      ParseFieldsBack(v, keys, rest, map[]);
      RestrictAll(v, keys);
    }
  }

  lemma {:induction false} RestrictAll(v: Json, keys: seq<string>)
    requires v.JObj? && forall k :: k in v.fields ==> k in keys
    ensures map[] + Restrict(v, keys) == v.fields
  {
  }

  lemma {:induction false} NoTokens(v: Json)
    ensures Commas(ItemToks([])) == []
    ensures v.JObj? ==> Commas(FieldToks(v, [])) == []
  {
  }

  /** The part of an object under some of its keys. */
  function Restrict(v: Json, keys: seq<string>): map<string, Json>
    requires v.JObj?
  {
    map k | k in v.fields && k in keys :: v.fields[k]
  }

  lemma {:induction false} ItemsStart(items: seq<Json>, rest: seq<Token>)
    requires items != []
    ensures Commas(ItemToks(items)) + rest != [] && (Commas(ItemToks(items)) + rest)[0] !in {RBracket, RBrace}
  {
    JsonFirst(items[0]);
    assert ItemToks(items)[0] == JsonToks(items[0]);
    CommasCons(ItemToks(items), rest);
  }

  lemma {:induction false} ItemsCons(items: seq<Json>)
    requires items != []
    ensures ItemToks(items)[0] == JsonToks(items[0]) && ItemToks(items)[1..] == ItemToks(items[1..])
  {
    hide JsonToks;
  }

  lemma {:induction false} ParseItemsBack(items: seq<Json>, rest: seq<Token>, got: seq<Json>)
    requires items != []
    ensures ParseItems(Commas(ItemToks(items)) + ([RBracket] + rest), got) == Some((JArr(got + items), rest))
    decreases items, 1
  {
    hide Commas, ItemToks, JsonToks, ParseJson;
    var after := [RBracket] + rest;
    ItemsCons(items);
    CommasCons(ItemToks(items), after);
    assert after[1..] == rest;
    if |items| == 1 {
      ParseEncoded(items[0], after);
      assert got + [items[0]] == got + items;
    } else {
      var more := Commas(ItemToks(items[1..])) + after;
      ParseEncoded(items[0], [Comma] + more);
      assert ([Comma] + more)[1..] == more;
      ParseItemsBack(items[1..], rest, got + [items[0]]);
      assert got + [items[0]] + items[1..] == got + items;
    }
  }

  lemma {:induction false} FieldsCons(v: Json, keys: seq<string>)
    requires v.JObj? && (forall k :: k in keys ==> k in v.fields) && keys != []
    ensures keys[0] in v.fields
    ensures FieldToks(v, keys)[0] == [StringTok(keys[0]), Colon] + JsonToks(v.fields[keys[0]])
    ensures FieldToks(v, keys)[1..] == FieldToks(v, keys[1..])
  {
    hide JsonToks;
    assert keys[0] in keys;
  }

  lemma {:induction false} FieldsStart(v: Json, keys: seq<string>, rest: seq<Token>)
    requires v.JObj? && (forall k :: k in keys ==> k in v.fields) && keys != []
    ensures Commas(FieldToks(v, keys)) + rest != [] && (Commas(FieldToks(v, keys)) + rest)[0] !in {RBracket, RBrace}
  {
    hide JsonToks, FieldToks, Commas;
    FieldsCons(v, keys);
    CommasCons(FieldToks(v, keys), rest);
  }

  lemma {:induction false} ParseFieldsBack(v: Json, keys: seq<string>, rest: seq<Token>, got: map<string, Json>)
    requires v.JObj? && (forall k :: k in keys ==> k in v.fields) && keys != []
    ensures ParseFields(Commas(FieldToks(v, keys)) + ([RBrace] + rest), got)
         == Some((JObj(got + Restrict(v, keys)), rest))
    decreases v, 1, |keys|
  {
    hide Commas, FieldToks, JsonToks, ParseJson;
    var k, after := keys[0], [RBrace] + rest;
    FieldsCons(v, keys);
    CommasCons(FieldToks(v, keys), after);
    assert after[1..] == rest;
    var head := [StringTok(k), Colon];
    if |keys| == 1 {
      var ts := head + JsonToks(v.fields[k]) + after;
      assert ts[2..] == JsonToks(v.fields[k]) + after;
      ParseEncoded(v.fields[k], after);
      assert keys == [k];
      assert got[k := v.fields[k]] == got + Restrict(v, keys);
    } else {
      var more := [Comma] + (Commas(FieldToks(v, keys[1..])) + after);
      var ts := head + JsonToks(v.fields[k]) + more;
      assert ts[2..] == JsonToks(v.fields[k]) + more;
      ParseEncoded(v.fields[k], more);
      assert more[1..] == Commas(FieldToks(v, keys[1..])) + after;
      ParseFieldsBack(v, keys[1..], rest, got[k := v.fields[k]]);
      RestrictCons(v, keys, got);
    }
  }

  lemma {:induction false} RestrictCons(v: Json, keys: seq<string>, got: map<string, Json>)
    requires v.JObj? && keys != [] && keys[0] in v.fields
    ensures got[keys[0] := v.fields[keys[0]]] + Restrict(v, keys[1..]) == got + Restrict(v, keys)
  {
    assert forall k :: k in keys <==> k == keys[0] || k in keys[1..];
  }

  // ----- the encoding determines the value -----

  lemma {:induction false} NormalUnsigned(v: Json)
    requires Finite(v)
    ensures Finite(Normal(v)) && Unsigned(Normal(v))
    ensures Unsigned(v) ==> Normal(v) == v
  {
    match v
    case JNum(text) => ZeroNumeral();
    case JArr(items) =>
      var ns := Normal(v).items;
      forall i | 0 <= i < |items| ensures Finite(ns[i]) && Unsigned(ns[i]) && (Unsigned(v) ==> ns[i] == items[i]) {
        NormalUnsigned(items[i]);
      }
    case JObj(fields) =>
      var ns := Normal(v).fields;
      forall k | k in fields ensures Finite(ns[k]) && Unsigned(ns[k]) && (Unsigned(v) ==> ns[k] == fields[k]) {
        NormalUnsigned(fields[k]);
      }
    case _ =>
  }

  lemma {:induction false} ZeroNumeral()
    ensures IsNumeral("0")
  {
    assert Decimal(0) == "0" && NumberText(0) == "0";
    NumberIsNumeral(0);
  }

  /** The sign of a zero does not count. */
  lemma {:induction false} EncodeNormal(v: Json)
    ensures Encode(Normal(v)) == Encode(v)
    decreases v, 1
  {
    match v
    case JArr(items) =>
      NormalItems(items);
      assert Normal(v).items == NormalAll(items);
    case JObj(fields) =>
      assert Normal(v).fields.Keys == fields.Keys;
      NormalFields(v, SortedKeys(fields.Keys));
    case _ =>
  }

  function NormalAll(items: seq<Json>): seq<Json>
  {
    seq(|items|, i requires 0 <= i < |items| => Normal(items[i]))
  }

  lemma {:induction false} NormalItems(items: seq<Json>)
    ensures EncodeAll(NormalAll(items)) == EncodeAll(items)
    decreases items, 0
  {
    hide Encode, Normal;
    if items != [] {
      EncodeNormal(items[0]);
      NormalItems(items[1..]);
      assert NormalAll(items)[1..] == NormalAll(items[1..]);
    }
  }

  lemma {:induction false} NormalFields(v: Json, keys: seq<string>)
    requires v.JObj? && Normal(v).JObj? && Normal(v).fields.Keys == v.fields.Keys
    requires forall k :: k in keys ==> k in v.fields
    ensures EncodeFields(Normal(v), keys) == EncodeFields(v, keys)
    decreases v, 0, |keys|
  {
    hide Encode, Quoted;
    if keys != [] {
      var k := keys[0];
      assert k in keys;
      assert Normal(v).fields[k] == Normal(v.fields[k]);
      EncodeNormal(v.fields[k]);
      NormalFields(v, keys[1..]);
    }
  }

  /** Parsing the encoding back gives the value, with a negative zero turned into zero. */
  lemma {:induction false} DecodeEncode(v: Json)
    requires Finite(v)
    ensures Decode(Encode(v)) == Some(Normal(v))
  {
    hide Encode, JsonToks, Lex, ParseJson, Finite, Normal, Unsigned;
    NormalUnsigned(v);
    EncodeNormal(v);
    var n := Normal(v);
    EncodeReads(n);
    ReadsAt(Encode(n), JsonToks(n), "");
    assert Encode(n) + "" == Encode(n) && JsonToks(n) + [] == JsonToks(n);
    assert Lex("") == Some([]) by { LexNothing(); }
    ParseEncoded(n, []);
  }

  /** Encodings are equal exactly when the values are, up to the order of keys and the sign of
      a zero. */
  lemma {:induction false} EncodeInjective(a: Json, b: Json)
    requires Finite(a) && Finite(b)
    ensures Encode(a) == Encode(b) <==> Normal(a) == Normal(b)
  {
    hide Encode, Decode, Finite, Normal;
    DecodeEncode(a);
    DecodeEncode(b);
    EncodeNormal(a);
    EncodeNormal(b);
  }

  // ----- payload identity -----

  datatype Payload = Payload(input: Json, sha: string)

  function PayloadSha(v: Json, hash: string -> string): string { hash(Encode(v)) }

  /** `payloadIdentity`: the value read back from its encoding, and the hash of that. */
  function PayloadIdentity(v: Json, hash: string -> string): Payload
  {
    Payload(Decode(Encode(v)).GetOr(JNull), hash(Encode(v)))
  }

  /** Input and hash agree, and, the hash being free of collisions, the hash stands for the
      value. */
  lemma {:induction false} PayloadConsistent(a: Json, b: Json, hash: string -> string)
    requires Finite(a) && Finite(b)
    requires forall x, y :: hash(x) == hash(y) ==> x == y
    ensures PayloadSha(PayloadIdentity(a, hash).input, hash) == PayloadIdentity(a, hash).sha
    ensures PayloadIdentity(a, hash).sha == PayloadIdentity(b, hash).sha <==> Normal(a) == Normal(b)
  {
    hide Encode, Decode, Finite, Normal;
    EncodeNormal(a);
    DecodeEncode(a);
    DecodeEncode(b);
    EncodeInjective(a, b);
  }

  // ----- numbers by value -----

  /** A number as JavaScript has them: the zeros differ, and every other is a real. */
  datatype Number = NegativeZero | Plain(value: real)

  datatype Value =
    | VNull | VBool(b: bool) | VNumber(n: Number) | VStr(s: string)
    | VArr(items: seq<Value>) | VObj(fields: map<string, Value>)

  function Ten(k: nat): (r: real)
    ensures r > 0.0
  {
    if k == 0 then 1.0 else 10.0 * Ten(k - 1)
  }

  /** The number that the digits at the beginning of a text denote. */
  function Leading(s: string): nat { Numeral(s[..Digits(s)]) }

  function Fraction(s: string): real
  {
    if s == [] || s[0] != '.' then 0.0 else Leading(s[1..]) as real / Ten(Digits(s[1..]))
  }

  function AfterFraction(s: string): string
  {
    if s == [] || s[0] != '.' then s else s[1..][Digits(s[1..])..]
  }

  function Scale(s: string): real
  {
    if s == [] || (s[0] != 'e' && s[0] != 'E') then 1.0
    else if |s| > 1 && s[1] == '-' then 1.0 / Ten(Leading(s[2..]))
    else if |s| > 1 && s[1] == '+' then Ten(Leading(s[2..]))
    else Ten(Leading(s[1..]))
  }

  function Magnitude(s: string): real
  {
    var rest := s[Digits(s)..];
    (Leading(s) as real + Fraction(rest)) * Scale(AfterFraction(rest))
  }

  /** The value of a numeral: whole part, fraction and exponent. */
  function NumeralValue(t: string): real
  {
    if t != [] && t[0] == '-' then 0.0 - Magnitude(t[1..]) else Magnitude(t)
  }

  /** What JavaScript does with numbers: `String(n)`, and the rounding of a numeral's value to
      the number that is nearest to it. */
  datatype Numbers = Numbers(text: real -> string, round: real -> real)

  /** The value as it is encoded. */
  function ToTexts(v: Value, js: Numbers): Json
  {
    match v
    case VNull => JNull
    case VBool(b) => JBool(b)
    case VNumber(NegativeZero) => JNum("-0")
    case VNumber(Plain(r)) => JNum(js.text(r))
    case VStr(s) => JStr(s)
    case VArr(items) => JArr(seq(|items|, i requires 0 <= i < |items| => ToTexts(items[i], js)))
    case VObj(fields) => JObj(map k | k in fields :: ToTexts(fields[k], js))
  }

  /** The value that is read. */
  function FromTexts(v: Json, js: Numbers): Value
  {
    match v
    case JNull => VNull
    case JBool(b) => VBool(b)
    case JNum(text) => VNumber(Plain(js.round(NumeralValue(text))))
    case JStr(s) => VStr(s)
    case JArr(items) => VArr(seq(|items|, i requires 0 <= i < |items| => FromTexts(items[i], js)))
    case JObj(fields) => VObj(map k | k in fields :: FromTexts(fields[k], js))
  }

  function OneZero(v: Value): Value
  {
    match v
    case VNumber(NegativeZero) => VNumber(Plain(0.0))
    case VArr(items) => VArr(seq(|items|, i requires 0 <= i < |items| => OneZero(items[i])))
    case VObj(fields) => VObj(map k | k in fields :: OneZero(fields[k]))
    case _ => v
  }

  /** Zero is written and read as such. */
  predicate JsZero(js: Numbers) { js.text(0.0) == "0" && js.round(0.0) == 0.0 }

  /** The text of a number is a numeral that is read as this number. */
  predicate Spells(js: Numbers, r: real)
  {
    IsNumeral(js.text(r)) && js.text(r) != "-0" && js.round(NumeralValue(js.text(r))) == r
  }

  /** So it is for all numbers of the value. */
  ghost predicate Readable(v: Value, js: Numbers)
  {
    match v
    case VNumber(n) => n.Plain? ==> Spells(js, n.value)
    case VArr(items) => forall i :: 0 <= i < |items| ==> Readable(items[i], js)
    case VObj(fields) => forall k :: k in fields ==> Readable(fields[k], js)
    case _ => true
  }

  lemma {:induction false} ZeroValue()
    ensures NumeralValue("0") == 0.0
  {
    var s := "0";
    assert s[1..] == [] && Digits(s[1..]) == 0 && Digits(s) == 1;
    assert s[..1] == s && s[..0] == [] && Numeral(s) == 0;
  }

  lemma {:induction false} TextsFinite(v: Value, js: Numbers)
    requires Readable(v, js)
    ensures Finite(ToTexts(v, js))
  {
    hide IsNumeral, NumeralValue;
    match v
    case VNumber(NegativeZero) => MinusZeroNumeral();
    case VArr(items) =>
      var r := ToTexts(v, js).items;
      forall i | 0 <= i < |r| ensures Finite(r[i]) {
        TextsFinite(items[i], js);
      }
    case VObj(fields) =>
      var r := ToTexts(v, js).fields;
      forall k | k in r ensures Finite(r[k]) {
        TextsFinite(fields[k], js);
      }
    case _ =>
  }

  lemma {:induction false} MinusZeroNumeral()
    ensures IsNumeral("-0")
  {
    var t := "-0";
    assert t[1..] == "0" && t[2..] == [];
    assert "0"[1..] == [] && Digits("0") == 1;
  }

  lemma {:induction false} TextsRead(v: Value, js: Numbers)
    requires Readable(v, js) && JsZero(js)
    ensures FromTexts(Normal(ToTexts(v, js)), js) == OneZero(v)
  {
    hide IsNumeral, NumeralValue;
    ZeroValue();
    match v
    case VArr(items) =>
      var r, z := FromTexts(Normal(ToTexts(v, js)), js).items, OneZero(v).items;
      forall i | 0 <= i < |items| ensures r[i] == z[i] {
        TextsRead(items[i], js);
      }
      assert r == z;
    case VObj(fields) =>
      var r, z := FromTexts(Normal(ToTexts(v, js)), js).fields, OneZero(v).fields;
      forall k | k in fields ensures r[k] == z[k] {
        TextsRead(fields[k], js);
      }
      assert r == z;
    case _ =>
  }

  lemma {:induction false} TextsOfOneZero(v: Value, js: Numbers)
    requires Readable(v, js) && JsZero(js)
    ensures Normal(ToTexts(v, js)) == ToTexts(OneZero(v), js)
  {
    hide IsNumeral, NumeralValue;
    match v
    case VArr(items) =>
      var r, z := Normal(ToTexts(v, js)).items, ToTexts(OneZero(v), js).items;
      forall i | 0 <= i < |items| ensures r[i] == z[i] {
        TextsOfOneZero(items[i], js);
      }
      assert r == z;
    case VObj(fields) =>
      var r, z := Normal(ToTexts(v, js)).fields, ToTexts(OneZero(v), js).fields;
      forall k | k in fields ensures r[k] == z[k] {
        TextsOfOneZero(fields[k], js);
      }
      assert r == z;
    case _ =>
  }

  /** Reading an encoding gives the value of every number, and one zero. */
  lemma {:induction false} ValueRoundTrip(v: Value, js: Numbers)
    requires Readable(v, js) && JsZero(js)
    ensures Decode(Encode(ToTexts(v, js))).Some?
    ensures FromTexts(Decode(Encode(ToTexts(v, js))).value, js) == OneZero(v)
  {
    hide Encode, Decode, Finite, Normal, ToTexts, FromTexts, OneZero;
    TextsFinite(v, js);
    DecodeEncode(ToTexts(v, js));
    TextsRead(v, js);
  }

  /** Encodings are equal exactly when the values are, numbers compared by value, up to the order
      of keys and the sign of a zero. */
  lemma {:induction false} ValueInjective(a: Value, b: Value, js: Numbers)
    requires Readable(a, js) && Readable(b, js) && JsZero(js)
    ensures Encode(ToTexts(a, js)) == Encode(ToTexts(b, js)) <==> OneZero(a) == OneZero(b)
  {
    hide Encode, Decode, Finite, Normal, ToTexts, FromTexts, OneZero;
    ValueRoundTrip(a, js);
    ValueRoundTrip(b, js);
    TextsOfOneZero(a, js);
    TextsOfOneZero(b, js);
    EncodeNormal(ToTexts(a, js));
    EncodeNormal(ToTexts(b, js));
  }

  /** The decimal text of an integer spells it. */
  lemma {:induction false} IntegerSpelled(n: int)
    ensures NumeralValue(NumberText(n)) == n as real
  {
    var d := Decimal(if n < 0 then -n else n);
    DigitsAll(d);
    NumeralOfDecimal(if n < 0 then -n else n);
    assert d[..|d|] == d && d[|d|..] == [];
    NumberTextSign(n);
    assert Magnitude(d) == Numeral(d) as real;
  }

  // ----- kernel values -----

  predicate IsData(v: Node)
  {
    match v
    case Null => true
    case Bool(_) => true
    case Num(_) => true
    case Str(_) => true
    case Arr(items) => forall i :: 0 <= i < |items| ==> IsData(items[i])
    case Obj(fields) => forall k :: k in fields ==> IsData(fields[k])
    case _ => false
  }

  function NumberText(n: int): string { if n < 0 then "-" + Decimal(-n) else Decimal(n) }

  /** A data value as JSON. */
  function ToJson(v: Node): Json
    requires IsData(v)
  {
    match v
    case Null => JNull
    case Bool(b) => JBool(b)
    case Num(n) => JNum(NumberText(n))
    case Str(s) => JStr(s)
    case Arr(items) => JArr(seq(|items|, i requires 0 <= i < |items| => ToJson(items[i])))
    case Obj(fields) => JObj(map k | k in fields :: ToJson(fields[k]))
  }

  lemma {:induction false} DigitsAll(s: string)
    requires AllDigits(s)
    ensures Digits(s) == |s|
  {
    if s != [] {
      DigitsAll(s[1..]);
    }
  }

  lemma {:induction false} NumberIsNumeral(n: int)
    ensures IsNumeral(NumberText(n))
  {
    var d := Decimal(if n < 0 then -n else n);
    var t := NumberText(n);
    DigitsAll(d);
    if n < 0 {
      assert t[0] == '-' && t[1] == d[0] && t[1..] == d;
    } else {
      assert t[0..] == d;
    }
    assert t[|t|..] == [];
    hide Decimal, Digits;
    var i := if n < 0 then 1 else 0;
    if d[0] == '0' {
      assert |d| == 1;
    }
  }

  lemma {:induction false} NumberTextInjective(m: int, n: int)
    requires NumberText(m) == NumberText(n)
    ensures m == n
  {
    hide NumberText, Decimal;
    NumberTextSign(m);
    NumberTextSign(n);
    if m < 0 {
      DecimalInjective(-m, -n);
    } else {
      DecimalInjective(m, n);
    }
  }

  lemma {:induction false} NumberTextSign(n: int)
    ensures NumberText(n) != [] && (NumberText(n)[0] == '-' <==> n < 0)
    ensures if n < 0 then NumberText(n)[1..] == Decimal(-n) else NumberText(n) == Decimal(n)
  {
  }

  lemma {:induction false} NotNegativeZero(n: int)
    ensures NumberText(n) != "-0"
  {
    hide NumberText, Decimal;
    NumberTextSign(n);
    if n < 0 && Decimal(-n) == Decimal(0) {
      DecimalInjective(-n, 0);
    }
    assert Decimal(0) == "0" by { ZeroText(); }
    assert "-0"[1..] == "0";
  }

  lemma {:induction false} ZeroText()
    ensures Decimal(0) == "0"
  {
  }

  lemma {:induction false} ToJsonFinite(v: Node)
    requires IsData(v)
    ensures Finite(ToJson(v)) && Unsigned(ToJson(v))
  {
    match v
    case Num(n) => NumberIsNumeral(n); NotNegativeZero(n);
    case Arr(items) =>
      forall i | 0 <= i < |items| ensures Finite(ToJson(items[i])) && Unsigned(ToJson(items[i])) {
        ToJsonFinite(items[i]);
      }
    case Obj(fields) =>
      forall k | k in fields ensures Finite(ToJson(fields[k])) && Unsigned(ToJson(fields[k])) {
        ToJsonFinite(fields[k]);
      }
    case _ =>
  }

  lemma {:induction false} ToJsonInjective(a: Node, b: Node)
    requires IsData(a) && IsData(b) && ToJson(a) == ToJson(b)
    ensures a == b
  {
    match a
    case Num(n) => NumberTextInjective(n, b.n);
    case Arr(items) =>
      var x, y := ToJson(a).items, ToJson(b).items;
      assert |items| == |x| == |y| == |b.items|;
      forall i | 0 <= i < |items| ensures items[i] == b.items[i] {
        assert x[i] == ToJson(items[i]) && y[i] == ToJson(b.items[i]);
        ToJsonInjective(items[i], b.items[i]);
      }
      assert items == b.items;
    case Obj(fields) =>
      var x, y := ToJson(a).fields, ToJson(b).fields;
      assert fields.Keys == x.Keys == y.Keys == b.fields.Keys;
      forall k | k in fields ensures fields[k] == b.fields[k] {
        assert x[k] == ToJson(fields[k]) && y[k] == ToJson(b.fields[k]);
        ToJsonInjective(fields[k], b.fields[k]);
      }
      assert fields == b.fields;
    case _ =>
  }

  /** The kernel's `eq`, which compares encodings, is structural equality of data values. */
  lemma {:induction false} EqIsStructural(a: Node, b: Node)
    requires IsData(a) && IsData(b)
    ensures Encode(ToJson(a)) == Encode(ToJson(b)) <==> a == b
  {
    hide Encode, ToJson, Finite, Normal, Unsigned;
    ToJsonFinite(a);
    ToJsonFinite(b);
    NormalUnsigned(ToJson(a));
    NormalUnsigned(ToJson(b));
    EncodeInjective(ToJson(a), ToJson(b));
    if ToJson(a) == ToJson(b) {
      ToJsonInjective(a, b);
    }
  }
}
