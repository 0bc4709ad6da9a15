/** The lexical level of the constructor DSL: string escapes, numerals, and the tokenizer. */
module Lexer {
  import opened Text

  /** Tokens without their positions; the end of the sequence stands for EOF. */
  datatype Token =
    | Ident(name: string) | StringTok(s: string) | NumberTok(text: string)
    | LParen | RParen | LBracket | RBracket | LBrace | RBrace | Comma | Colon

  predicate IsSpace(c: char) { c == ' ' || c == '\t' || c == '\r' || c == '\n' }

  predicate IsIdentStart(c: char) { 'a' <= c <= 'z' || 'A' <= c <= 'Z' || c == '_' }

  predicate IsIdentContinue(c: char) { IsIdentStart(c) || IsDigit(c) }

  function Punctuation(c: char): Option<Token>
  {
    if c == '(' then Some(LParen) else if c == ')' then Some(RParen)
    else if c == '[' then Some(LBracket) else if c == ']' then Some(RBracket)
    else if c == '{' then Some(LBrace) else if c == '}' then Some(RBrace)
    else if c == ',' then Some(Comma) else if c == ':' then Some(Colon)
    else None
  }

  // ----- runs of characters -----

  /** The length of the longest prefix of digits. */
  function Digits(s: string): (n: nat)
    ensures n <= |s| && AllDigits(s[..n]) && (n < |s| ==> !IsDigit(s[n]))
  {
    if s == [] || !IsDigit(s[0]) then 0 else 1 + Digits(s[1..])
  }

  function IdentRun(s: string): (n: nat)
    ensures n <= |s| && (forall i :: 0 <= i < n ==> IsIdentContinue(s[i])) && (n < |s| ==> !IsIdentContinue(s[n]))
  {
    if s == [] || !IsIdentContinue(s[0]) then 0 else 1 + IdentRun(s[1..])
  }

  // ----- numbers -----

  /** The length of the number at the start of `s`, or None where it is malformed. */
  function ScanNumber(s: string): (n: Option<nat>)
    requires StartsNumber(s)
    ensures n.Some? ==> 0 < n.value <= |s|
  {
    var i := if s[0] == '-' then 1 else 0;
    if s[i] == '0' && i + 1 < |s| && IsDigit(s[i + 1]) then None
    else
      var j := if s[i] == '0' then i + 1 else i + Digits(s[i..]);
      match ScanFraction(s[j..])
      case None => None
      case Some(f) =>
        match ScanExponent(s[j + f..])
        case None => None
        case Some(e) => Some(j + f + e)
  }

  predicate StartsNumber(s: string)
  {
    s != [] && (IsDigit(s[0]) || (s[0] == '-' && |s| > 1 && IsDigit(s[1])))
  }

  function ScanFraction(s: string): (n: Option<nat>)
    ensures n.Some? ==> n.value <= |s|
  {
    if s == [] || s[0] != '.' then Some(0)
    else if Digits(s[1..]) == 0 then None
    else Some(1 + Digits(s[1..]))
  }

  function ScanExponent(s: string): (n: Option<nat>)
    ensures n.Some? ==> n.value <= |s|
  {
    if s == [] || (s[0] != 'e' && s[0] != 'E') then Some(0)
    else
      var k := if |s| > 1 && (s[1] == '+' || s[1] == '-') then 2 else 1;
      if Digits(s[k..]) == 0 then None else Some(k + Digits(s[k..]))
  }

  /** The numerals of section 6 of RFC 8259. */
  predicate IsNumeral(t: string)
  {
    StartsNumber(t) && ScanNumber(t) == Some(|t|)
  }

  // ----- strings -----

  function HexValue(c: char): (v: Option<nat>)
    ensures v.Some? ==> v.value < 16
  {
    if IsDigit(c) then Some(DigitValue(c))
    else if 'a' <= c <= 'f' then Some((c - 'a') as nat + 10)
    else if 'A' <= c <= 'F' then Some((c - 'A') as nat + 10)
    else None
  }

  /** The number a leading run of hexadecimal digits denotes; None without a digit. */
  function HexRun(s: string, sofar: Option<nat>): Option<nat>
    decreases |s|
  {
    if s == [] || HexValue(s[0]).None? then sofar
    else HexRun(s[1..], Some(16 * sofar.GetOr(0) + HexValue(s[0]).value))
  }

  predicate IsScriptSpace(c: char)
  {
    var n := c as int;
    9 <= n <= 13 || n == 32 || n == 160 || n == 0x1680 || 0x2000 <= n <= 0x200A || n == 0x2028 || n == 0x2029 ||
    n == 0x202F || n == 0x205F || n == 0x3000 || n == 0xFEFF
  }

  function SkipSpace(s: string): string
  {
    if s != [] && IsScriptSpace(s[0]) then SkipSpace(s[1..]) else s
  }

  /** `parseInt(s, 16)`: leading space, a sign and a `0x` are allowed, and what follows the
      digits is ignored. */
  function ParseHex(s: string): Option<int>
  {
    var t := SkipSpace(s);
    var signed := t != [] && (t[0] == '-' || t[0] == '+');
    var u := if signed then t[1..] else t;
    var v := if |u| >= 2 && u[0] == '0' && (u[1] == 'x' || u[1] == 'X') then u[2..] else u;
    match HexRun(v, None)
    case None => None
    case Some(n) => Some(if signed && t[0] == '-' then -(n as int) else n)
  }

  /** The character of a `\u` escape. Characters are Unicode scalar values here: an escape
      of half a surrogate pair has none. */
  function EscapedCode(hex: string): Option<char>
  {
    match ParseHex(hex)
    case None => None
    case Some(n) =>
      var code := n % 0x10000;
      if 0xD800 <= code < 0xE000 then None else Some(code as char)
  }

  function SimpleEscape(c: char): Option<char>
  {
    if c == '"' then Some('"') else if c == '\\' then Some('\\') else if c == '/' then Some('/')
    else if c == 'n' then Some('\n') else if c == 'r' then Some('\r') else if c == 't' then Some('\t')
    else if c == 'b' then Some(8 as char) else if c == 'f' then Some(12 as char)
    else None
  }

  /** Reads a string up to its closing quote: what it denotes and what follows. */
  function ScanString(s: string): (r: Option<(string, string)>)
    ensures r.Some? ==> |r.value.1| < |s|
    decreases |s|
  {
    if s == [] || s[0] == '\n' then None
    else if s[0] == '"' then Some(("", s[1..]))
    else if s[0] != '\\' then Follow(s[0], ScanString(s[1..]))
    else if |s| < 2 then None
    else if s[1] == 'u' then
      if |s| < 6 || EscapedCode(s[2..6]).None? then None
      else Follow(EscapedCode(s[2..6]).value, ScanString(s[6..]))
    else if SimpleEscape(s[1]).None? then None
    else Follow(SimpleEscape(s[1]).value, ScanString(s[2..]))
  }

  function Follow(c: char, r: Option<(string, string)>): Option<(string, string)>
  {
    if r.None? then None else Some(([c] + r.value.0, r.value.1))
  }

  // ----- the tokenizer -----

  /** One token and what follows; None is a lexical error. */
  function LexOne(s: string): (r: Option<(Token, string)>)
    requires s != []
    ensures r.Some? ==> |r.value.1| < |s|
  {
    if Punctuation(s[0]).Some? then Some((Punctuation(s[0]).value, s[1..]))
    else if StartsNumber(s) then
      match ScanNumber(s)
      case None => None
      case Some(n) => Some((NumberTok(s[..n]), s[n..]))
    else if s[0] == '"' then
      match ScanString(s[1..])
      case None => None
      case Some((value, rest)) => Some((StringTok(value), rest))
    else if IsIdentStart(s[0]) then
      var n := IdentRun(s);
      Some((Ident(s[..n]), s[n..]))
    else None
  }

  function Lex(s: string): Option<seq<Token>>
    decreases |s|
  {
    if s == [] then Some([])
    else if IsSpace(s[0]) then Lex(s[1..])
    else
      match LexOne(s)
      case None => None
      case Some((t, rest)) => Prepend([t], Lex(rest))
  }

  function Prepend(ts: seq<Token>, r: Option<seq<Token>>): Option<seq<Token>>
  {
    if r.None? then None else Some(ts + r.value)
  }

  /** The loop over the source text. */
  method Tokenize(source: string) returns (r: Option<seq<Token>>)
    ensures r == Lex(source)
  {
    var tokens: seq<Token> := [];
    var i := 0;
    assert source[0..] == source;
    PrependNone(Lex(source));
    while i < |source|
      invariant 0 <= i <= |source|
      invariant Lex(source) == Prepend(tokens, Lex(source[i..]))
    {
      var rest := source[i..];
      if IsSpace(source[i]) {
        assert rest[1..] == source[i + 1..];
        i := i + 1;
      } else {
        match LexOne(rest) {
          case None => return None;
          case Some((t, more)) =>
            TailIs(source, i, more);
            PrependBoth(tokens, [t], Lex(more));
            tokens := tokens + [t];
            i := |source| - |more|;
        }
      }
    }
    assert source[i..] == [] && tokens + [] == tokens;
    r := Some(tokens);
  }

  lemma {:induction false} PrependNone(r: Option<seq<Token>>)
    ensures Prepend([], r) == r
  {
    if r.Some? {
      assert [] + r.value == r.value;
    }
  }

  lemma {:induction false} PrependBoth(a: seq<Token>, b: seq<Token>, r: Option<seq<Token>>)
    ensures Prepend(a, Prepend(b, r)) == Prepend(a + b, r)
  {
    if r.Some? {
      assert a + (b + r.value) == a + b + r.value;
    }
  }

  lemma {:induction false} TailIs(source: string, i: nat, more: string)
    requires i < |source| && LexOne(source[i..]).Some? && more == LexOne(source[i..]).value.1
    ensures |more| < |source| - i && source[|source| - |more|..] == more
  {
    LexOneTail(source[i..]);
    assert source[|source| - |more|..] == source[i..][|source| - i - |more|..];
  }

  /** What follows a token is a suffix of the text. */
  lemma {:induction false} LexOneTail(s: string)
    requires s != [] && LexOne(s).Some?
    ensures var more := LexOne(s).value.1; |more| < |s| && s[|s| - |more|..] == more
  {
    if s[0] == '"' && Punctuation(s[0]).None? && !StartsNumber(s) {
      ScanStringTail(s[1..]);
    }
  }

  lemma {:induction false} ScanStringTail(s: string)
    requires ScanString(s).Some?
    ensures var more := ScanString(s).value.1; |more| < |s| && s[|s| - |more|..] == more
    decreases |s|
  {
    var more := ScanString(s).value.1;
    if s[0] != '"' {
      var k := if s[0] != '\\' then 1 else if s[1] == 'u' then 6 else 2;
      ScanStringTail(s[k..]);
      assert s[|s| - |more|..] == s[k..][|s| - k - |more|..];
    }
  }

  // ----- writing strings -----

  function HexDigit(n: nat): (c: char)
    requires n < 16
    ensures HexValue(c) == Some(n) && c != '-' && c != '+' && c != 'x' && c != 'X' && !IsScriptSpace(c)
  {
    if n < 10 then DigitChar(n) else 'a' + (n - 10) as char
  }

  function EscapeChar(c: char): string
  {
    if c == '"' then "\\\"" else if c == '\\' then "\\\\"
    else if c == '\n' then "\\n" else if c == '\r' then "\\r" else if c == '\t' then "\\t"
    else if c == 8 as char then "\\b" else if c == 12 as char then "\\f"
    else if c < ' ' then "\\u00" + [HexDigit(c as nat / 16), HexDigit(c as nat % 16)]
    else [c]
  }

  function EscapeChars(s: string): string
  {
    if s == [] then [] else EscapeChar(s[0]) + EscapeChars(s[1..])
  }

  /** `JSON.stringify` of a string. */
  function Quoted(s: string): string { "\"" + EscapeChars(s) + "\"" }

  /** Unescaping what was escaped gives the string back, whatever the string. */
  lemma {:induction false} UnescapeEscape(s: string, rest: string)
    ensures ScanString(EscapeChars(s) + "\"" + rest) == Some((s, rest))
    decreases |s|
  {
    var text := EscapeChars(s) + "\"" + rest;
    if s == [] {
      assert text == "\"" + rest;
    } else {
      var tail := EscapeChars(s[1..]) + "\"" + rest;
      UnescapeEscape(s[1..], rest);
      assert text == EscapeChar(s[0]) + tail;
      UnescapeChar(s[0], tail);
      assert [s[0]] + s[1..] == s;
    }
  }

  lemma {:induction false} UnescapeChar(c: char, tail: string)
    ensures ScanString(EscapeChar(c) + tail) == Follow(c, ScanString(tail))
  {
    hide EscapedCode;
    var e := EscapeChar(c);
    var text := e + tail;
    assert text[|e|..] == tail;
    if |e| == 6 {
      assert text[2..6] == e[2..6] == "00" + [HexDigit(c as nat / 16), HexDigit(c as nat % 16)];
      assert text[0] == e[0] == '\\' && text[1] == e[1] == 'u';
      ControlCode(c);
    } else if |e| == 2 {
      assert text[0] == e[0] && text[1] == e[1];
    }
  }

  /** The `\u` escape of a control character. */
  lemma {:induction false} ControlCode(c: char)
    requires c < ' '
    ensures EscapedCode("00" + [HexDigit(c as nat / 16), HexDigit(c as nat % 16)]) == Some(c)
  {
    var a, b := HexDigit(c as nat / 16), HexDigit(c as nat % 16);
    var h := ['0', '0', a, b];
    assert "00" + [a, b] == h;
    assert SkipSpace(h) == h;
    HexOf4(a, b);
  }

  lemma {:induction false} HexOf4(a: char, b: char)
    requires HexValue(a).Some? && HexValue(b).Some?
    ensures HexRun(['0', '0', a, b], None) == Some(16 * HexValue(a).value + HexValue(b).value)
  {
    var h := ['0', '0', a, b];
    assert h[1..] == ['0', a, b] && ['0', a, b][1..] == [a, b] && [a, b][1..] == [b] && [b][1..] == [];
    var byte := 16 * HexValue(a).value + HexValue(b).value;
    assert HexRun([], Some(byte)) == Some(byte);
    assert HexRun([b], Some(HexValue(a).value)) == Some(16 * HexValue(a).value + HexValue(b).value);
    assert HexRun([a, b], Some(0)) == Some(16 * HexValue(a).value + HexValue(b).value);
  }

  // ----- the tokens of pieces of text -----

  /** A number or an identifier ends before `rest`. */
  predicate Breaks(rest: string) { rest == [] || (!IsIdentContinue(rest[0]) && rest[0] != '.') }

  predicate IsIdent(name: string)
  {
    name != [] && IsIdentStart(name[0]) && forall i :: 0 <= i < |name| ==> IsIdentContinue(name[i])
  }

  lemma {:induction false} LexNothing()
    ensures Lex([]) == Some([])
  {
  }

  lemma {:induction false} LexStep(s: string, t: Token, rest: string)
    requires s != [] && !IsSpace(s[0]) && LexOne(s) == Some((t, rest))
    ensures Lex(s) == Prepend([t], Lex(rest))
  {
    hide LexOne;
  }

  lemma {:induction false} LexPunctuation(c: char, rest: string)
    requires Punctuation(c).Some?
    ensures Lex([c] + rest) == Prepend([Punctuation(c).value], Lex(rest))
  {
    hide ScanString, ScanNumber, IdentRun, Digits, Lex, Prepend;
    assert ([c] + rest)[1..] == rest;
    assert !IsSpace(c);
    LexStep([c] + rest, Punctuation(c).value, rest);
  }

  lemma {:induction false} LexSpaces(pad: string, rest: string)
    requires forall i :: 0 <= i < |pad| ==> IsSpace(pad[i])
    ensures Lex(pad + rest) == Lex(rest)
  {
    if pad == [] {
      assert pad + rest == rest;
    } else {
      LexSpaces(pad[1..], rest);
      assert (pad + rest)[1..] == pad[1..] + rest;
    }
  }

  lemma {:induction false} LexQuoted(s: string, rest: string)
    ensures Lex(Quoted(s) + rest) == Prepend([StringTok(s)], Lex(rest))
  {
    hide ScanString, ScanNumber, IdentRun, Digits, EscapeChars, Lex, Prepend;
    UnescapeEscape(s, rest);
    var text := Quoted(s) + rest;
    assert text[0] == '"' && text[1..] == EscapeChars(s) + "\"" + rest;
    LexStep(text, StringTok(s), rest);
  }

  lemma {:induction false} IdentRunEnds(name: string, rest: string)
    requires forall i :: 0 <= i < |name| ==> IsIdentContinue(name[i])
    requires rest == [] || !IsIdentContinue(rest[0])
    ensures IdentRun(name + rest) == |name|
  {
    if name == [] {
      assert name + rest == rest;
    } else {
      IdentRunEnds(name[1..], rest);
      assert (name + rest)[1..] == name[1..] + rest;
    }
  }

  lemma {:induction false} LexIdent(name: string, rest: string)
    requires IsIdent(name) && Breaks(rest)
    ensures Lex(name + rest) == Prepend([Ident(name)], Lex(rest))
  {
    hide ScanString, ScanNumber, IdentRun, Digits, Lex, Prepend;
    IdentRunEnds(name, rest);
    var text := name + rest;
    assert text[..|name|] == name && text[|name|..] == rest && text[0] == name[0];
    LexStep(text, Ident(name), rest);
  }

  lemma {:induction false} DigitsEnd(s: string, rest: string)
    requires Breaks(rest)
    ensures Digits(s + rest) == Digits(s)
  {
    if s == [] {
      assert s + rest == rest;
    } else {
      DigitsEnd(s[1..], rest);
      assert (s + rest)[1..] == s[1..] + rest;
    }
  }

  lemma {:induction false} FractionEnds(s: string, rest: string)
    requires Breaks(rest)
    ensures ScanFraction(s + rest) == ScanFraction(s)
  {
    if s != [] {
      assert (s + rest)[1..] == s[1..] + rest;
      DigitsEnd(s[1..], rest);
    } else {
      assert s + rest == rest;
    }
  }

  lemma {:induction false} ExponentEnds(s: string, rest: string)
    requires Breaks(rest) && ScanExponent(s).Some?
    ensures ScanExponent(s + rest) == ScanExponent(s)
  {
    if s != [] {
      var k := if |s| > 1 && (s[1] == '+' || s[1] == '-') then 2 else 1;
      if k <= |s| {
        assert (s + rest)[k..] == s[k..] + rest;
        DigitsEnd(s[k..], rest);
      }
      if s[0] == 'e' || s[0] == 'E' {
        assert |s| > 1;
        assert (s + rest)[1] == s[1];
      }
    } else {
      assert s + rest == rest;
    }
  }

  /** What follows a number and cannot continue it does not change how it is read. */
  lemma {:induction false} ScanNumberEnds(t: string, rest: string)
    requires StartsNumber(t) && ScanNumber(t).Some? && Breaks(rest)
    ensures StartsNumber(t + rest) && ScanNumber(t + rest) == ScanNumber(t)
  {
    hide Digits, ScanFraction, ScanExponent;
    var text := t + rest;
    assert text[0] == t[0] && (|t| > 1 ==> text[1] == t[1]);
    var i := if t[0] == '-' then 1 else 0;
    assert text[i] == t[i] && (i + 1 < |t| ==> text[i + 1] == t[i + 1]);
    Splits(t, rest, i);
    DigitsEnd(t[i..], rest);
    var j := if t[i] == '0' then i + 1 else i + Digits(t[i..]);
    Splits(t, rest, j);
    FractionEnds(t[j..], rest);
    var f := ScanFraction(t[j..]).value;
    Splits(t, rest, j + f);
    ExponentEnds(t[j + f..], rest);
  }

  lemma {:induction false} Splits(t: string, rest: string, i: nat)
    requires i <= |t|
    ensures (t + rest)[i..] == t[i..] + rest
  {
  }

  lemma {:induction false} LexNumber(t: string, rest: string)
    requires IsNumeral(t) && Breaks(rest)
    ensures Lex(t + rest) == Prepend([NumberTok(t)], Lex(rest))
  {
    hide ScanString, ScanNumber, IdentRun, Digits, Lex, Prepend;
    ScanNumberEnds(t, rest);
    var text := t + rest;
    assert text[..|t|] == t && text[|t|..] == rest && text[0] == t[0];
    LexStep(text, NumberTok(t), rest);
  }

  // ----- text with something appended -----

  lemma {:induction false} ScanStringAppend(s: string, w: string)
    requires ScanString(s).Some?
    ensures ScanString(s + w) == Some((ScanString(s).value.0, ScanString(s).value.1 + w))
    decreases |s|
  {
    hide EscapedCode, SimpleEscape;
    assert (s + w)[0] == s[0];
    Splits(s, w, 1);
    if s[0] != '"' {
      if s[0] != '\\' {
        ScanStringAppend(s[1..], w);
      } else {
        assert (s + w)[1] == s[1];
        Splits(s, w, 2);
        if s[1] == 'u' {
          Splits(s, w, 6);
          assert (s + w)[2..6] == s[2..6];
          ScanStringAppend(s[6..], w);
        } else {
          ScanStringAppend(s[2..], w);
        }
      }
    }
  }

  lemma {:induction false} IdentRunAppend(s: string, w: string)
    requires Breaks(w)
    ensures IdentRun(s + w) == IdentRun(s)
  {
    if s == [] {
      assert s + w == w;
    } else {
      IdentRunAppend(s[1..], w);
      Splits(s, w, 1);
    }
  }

  lemma {:induction false} LexOneAppend(s: string, w: string)
    requires s != [] && LexOne(s).Some? && Breaks(w)
    ensures LexOne(s + w) == Some((LexOne(s).value.0, LexOne(s).value.1 + w))
  {
    hide ScanString, ScanNumber, IdentRun, Digits;
    var text := s + w;
    assert text[0] == s[0] && (|s| > 1 ==> text[1] == s[1]);
    if Punctuation(s[0]).Some? {
      Splits(s, w, 1);
    } else if StartsNumber(s) {
      ScanNumberEnds(s, w);
      var n := ScanNumber(s).value;
      Splits(s, w, n);
      assert text[..n] == s[..n];
    } else if s[0] == '"' {
      Splits(s, w, 1);
      ScanStringAppend(s[1..], w);
    } else {
      IdentRunAppend(s, w);
      var n := IdentRun(s);
      Splits(s, w, n);
      assert text[..n] == s[..n];
    }
  }

  /** Appending what cannot continue a word appends its tokens. */
  lemma {:induction false} LexAppend(s: string, w: string)
    requires Lex(s).Some? && Breaks(w)
    ensures Lex(s + w) == Prepend(Lex(s).value, Lex(w))
    decreases |s|
  {
    hide LexOne;
    if s == [] {
      assert s + w == w;
      PrependNone(Lex(w));
    } else {
      assert (s + w)[0] == s[0];
      if IsSpace(s[0]) {
        LexAppend(s[1..], w);
        Splits(s, w, 1);
      } else {
        var (t, rest) := LexOne(s).value;
        LexOneAppend(s, w);
        LexAppend(rest, w);
        PrependBoth([t], Lex(rest).value, Lex(w));
      }
    }
  }
}
