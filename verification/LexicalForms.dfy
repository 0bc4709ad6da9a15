/** The lexical grammar of the constructor DSL, spelled out: numerals as in section 6 of RFC 8259,
    the escapes of strings that are read and those that are written, and every other token. */
module LexicalForms {
  import opened Text
  import opened Lexer

  // ----- numerals -----

  predicate IsInteger(t: string) { t == "0" || (t != "" && AllDigits(t) && t[0] != '0') }

  predicate IsFraction(t: string) { t == "" || (|t| > 1 && t[0] == '.' && AllDigits(t[1..])) }

  predicate IsExponent(t: string)
  {
    t == "" ||
    (|t| > 1 && t[0] in {'e', 'E'} &&
     var digits := if t[1] in {'+', '-'} then t[2..] else t[1..]; digits != "" && AllDigits(digits))
  }

  /** A sign, an integer without leading zeros, a fraction and an exponent. */
  predicate IsSpelled(t: string, sign: string, i: string, f: string, e: string)
  {
    t == sign + i + f + e && (sign == "" || sign == "-") && IsInteger(i) && IsFraction(f) && IsExponent(e)
  }

  /** The numerals that are read are those of that grammar. */
  lemma {:induction false} NumeralForm(t: string)
    ensures IsNumeral(t) <==> exists sign, i, f, e :: IsSpelled(t, sign, i, f, e)
  {
    if IsNumeral(t) {
      NumeralParts(t);
    }
    if sign, i, f, e :| IsSpelled(t, sign, i, f, e) {
      PartsNumeral(t, sign, i, f, e);
    }
  }

  /** Where the parts of a numeral begin. */
  predicate Cut(t: string, a: nat, b: nat, c: nat)
  {
    && a < b <= c <= |t| && (if t[0] == '-' then a == 1 else a == 0) && IsDigit(t[a])
    && (t[a] == '0' && a + 1 < |t| ==> !IsDigit(t[a + 1]))
    && b - a == (if t[a] == '0' then 1 else Digits(t[a..]))
    && ScanFraction(t[b..]) == Some(c - b) && ScanExponent(t[c..]) == Some(|t| - c)
  }

  lemma {:induction false} CutNumeral(t: string)
    ensures IsNumeral(t) <==> exists a, b, c :: Cut(t, a, b, c)
  {
    hide Digits, ScanFraction, ScanExponent;
    if IsNumeral(t) {
      var a := if t[0] == '-' then 1 else 0;
      var b := if t[a] == '0' then a + 1 else a + Digits(t[a..]);
      FirstDigit(t[a..]);
      var c := b + ScanFraction(t[b..]).value;
      assert Cut(t, a, b, c);
    }
  }

  lemma {:induction false} FirstDigit(s: string)
    requires s != [] && IsDigit(s[0])
    ensures 0 < Digits(s)
  {
  }

  lemma {:induction false} NumeralParts(t: string)
    requires IsNumeral(t)
    ensures exists sign, i, f, e :: IsSpelled(t, sign, i, f, e)
  {
    hide Digits, ScanFraction, ScanExponent, IsFraction, IsExponent, IsInteger, IsNumeral;
    CutNumeral(t);
    var a: nat, b: nat, c: nat :| Cut(t, a, b, c);
    CutParts(t, a, b, c);
  }

  lemma {:induction false} CutParts(t: string, a: nat, b: nat, c: nat)
    requires Cut(t, a, b, c)
    ensures IsSpelled(t, t[..a], t[a..b], t[b..c], t[c..])
  {
    hide Digits, ScanFraction, ScanExponent, IsFraction, IsExponent, IsInteger;
    IntegerPart(t[a..], b - a);
    FractionPart(t[b..]);
    ExponentPart(t[c..]);
    Pieces(t, a, b, c);
    Together(t, t[..a], t[a..b], t[b..c], t[c..]);
  }

  lemma {:induction false} Together(t: string, sign: string, i: string, f: string, e: string)
    requires t == sign + i + f + e
    requires sign == "" || sign == "-"
    requires IsInteger(i) && IsFraction(f) && IsExponent(e)
    ensures IsSpelled(t, sign, i, f, e)
  {
  }

  lemma {:induction false} Pieces(t: string, a: nat, b: nat, c: nat)
    requires a <= b <= c <= |t| && a <= 1 && (a == 1 ==> t[0] == '-')
    ensures t[a..][..b - a] == t[a..b] && t[b..][..c - b] == t[b..c] && t[c..][..|t| - c] == t[c..]
    ensures t == t[..a] + t[a..b] + t[b..c] + t[c..] && (t[..a] == "" || t[..a] == "-")
  {
    assert t[..a] == if a == 1 then "-" else "";
  }

  lemma {:induction false} IntegerPart(s: string, n: nat)
    requires s != [] && IsDigit(s[0]) && n == if s[0] == '0' then 1 else Digits(s)
    ensures 0 < n <= |s| && IsInteger(s[..n])
  {
    assert s[0] == '0' ==> s[..1] == "0";
  }

  lemma {:induction false} FractionPart(s: string)
    requires ScanFraction(s).Some?
    ensures IsFraction(s[..ScanFraction(s).value])
  {
    var n := ScanFraction(s).value;
    if n > 0 {
      assert s[..n][1..] == s[1..][..n - 1];
    }
  }

  lemma {:induction false} ExponentPart(s: string)
    requires ScanExponent(s).Some?
    ensures IsExponent(s[..ScanExponent(s).value])
  {
    var n := ScanExponent(s).value;
    if n > 0 {
      var k := if |s| > 1 && (s[1] == '+' || s[1] == '-') then 2 else 1;
      assert s[..n][k..] == s[k..][..n - k];
      assert s[..n][1] == s[1];
    }
  }

  lemma {:induction false} PartsNumeral(t: string, sign: string, i: string, f: string, e: string)
    requires IsSpelled(t, sign, i, f, e)
    ensures IsNumeral(t)
  {
    hide Digits, ScanFraction, ScanExponent, IsFraction, IsExponent, IsInteger, IsNumeral;
    var a := |sign|;
    var b := a + |i|;
    var c := b + |f|;
    Parts(t, sign, i, f, e);
    FractionBreaks(f, e);
    IntegerRead(i, f + e);
    FractionRead(f, e);
    ExponentRead(e);
    assert Cut(t, a, b, c);
    CutNumeral(t);
  }

  lemma {:induction false} Parts(t: string, sign: string, i: string, f: string, e: string)
    requires t == sign + i + f + e && (sign == "" || sign == "-") && IsInteger(i)
    ensures var a := |sign|;
            && t[a..] == i + (f + e) && t[a + |i|..] == f + e && t[a + |i| + |f|..] == e
            && t[a] == i[0] && IsDigit(i[0]) && (a + 1 < |t| ==> t[a + 1] == (i + (f + e))[1])
            && (if t[0] == '-' then a == 1 else a == 0)
  {
    assert t == sign + (i + (f + e));
  }

  /** What follows the integer part does not continue it. */
  lemma {:induction false} FractionBreaks(f: string, e: string)
    requires IsFraction(f) && IsExponent(e)
    ensures f + e == [] || !IsDigit((f + e)[0])
    ensures e == [] || (!IsDigit(e[0]) && e[0] != '.')
  {
  }

  lemma {:induction false} DigitsStop(s: string, rest: string)
    requires AllDigits(s) && (rest == [] || !IsDigit(rest[0]))
    ensures Digits(s + rest) == |s|
  {
    if s == [] {
      assert s + rest == rest;
    } else {
      assert (s + rest)[1..] == s[1..] + rest;
      DigitsStop(s[1..], rest);
    }
  }

  lemma {:induction false} IntegerRead(i: string, rest: string)
    requires IsInteger(i) && (rest == [] || !IsDigit(rest[0]))
    ensures i != [] && IsDigit(i[0]) && (i[0] != '0' ==> Digits(i + rest) == |i|)
    ensures i[0] == '0' ==> |i| == 1 && (|i + rest| > 1 ==> !IsDigit((i + rest)[1]))
  {
    if i[0] != '0' {
      DigitsStop(i, rest);
    } else if rest != [] {
      assert (i + rest)[1] == rest[0];
    }
  }

  lemma {:induction false} FractionRead(f: string, e: string)
    requires IsFraction(f) && (e == [] || (!IsDigit(e[0]) && e[0] != '.'))
    ensures ScanFraction(f + e) == Some(|f|)
  {
    if f == "" {
      assert f + e == e;
    } else {
      assert (f + e)[1..] == f[1..] + e;
      DigitsStop(f[1..], e);
    }
  }

  lemma {:induction false} ExponentRead(e: string)
    requires IsExponent(e)
    ensures ScanExponent(e) == Some(|e|)
  {
    if e != "" {
      var k := if e[1] in {'+', '-'} then 2 else 1;
      assert e[k..] + [] == e[k..];
      DigitsStop(e[k..], []);
    }
  }

  // ----- strings -----

  /** How a character is written in a string: quotes, backslashes and control characters are
      escaped, and nothing else. */
  lemma {:induction false} EscapesWritten(c: char)
    ensures EscapeChar('"') == ['\\', '"'] && EscapeChar('\\') == ['\\', '\\']
    ensures EscapeChar(8 as char) == ['\\', 'b'] && EscapeChar(9 as char) == ['\\', 't']
    ensures EscapeChar(10 as char) == ['\\', 'n'] && EscapeChar(12 as char) == ['\\', 'f']
    ensures EscapeChar(13 as char) == ['\\', 'r']
    ensures c < ' ' && c !in {8 as char, 9 as char, 10 as char, 12 as char, 13 as char} ==>
              var d := "0123456789abcdef";
              EscapeChar(c) == ['\\', 'u', '0', '0', d[c as nat / 16], d[c as nat % 16]]
    ensures c >= ' ' && c !in {'"', '\\'} ==> EscapeChar(c) == [c]
  {
    var d := "0123456789abcdef";
    forall n: nat | n < 16 ensures HexDigit(n) == d[n] {
      if n < 10 {
        assert d[n] == '0' + n as char;
      }
    }
  }

  /** How a string goes on behind an escape, and which escapes there are. */
  lemma {:induction false} EscapesRead(c: char, rest: string)
    ensures var r := ScanString(['\\', c] + rest);
            c != 'u' ==>
            r == (if c == '"' then Follow('"', ScanString(rest))
                  else if c == '\\' then Follow('\\', ScanString(rest))
                  else if c == '/' then Follow('/', ScanString(rest))
                  else if c == 'b' then Follow(8 as char, ScanString(rest))
                  else if c == 't' then Follow(9 as char, ScanString(rest))
                  else if c == 'n' then Follow(10 as char, ScanString(rest))
                  else if c == 'f' then Follow(12 as char, ScanString(rest))
                  else if c == 'r' then Follow(13 as char, ScanString(rest))
                  else None)
  {
    var s := ['\\', c] + rest;
    assert s[0] == '\\' && s[1] == c && s[2..] == rest;
  }

  /** Other characters stand for themselves; a line break or the end of the text is an error. */
  lemma {:induction false} CharactersRead(c: char, rest: string)
    requires c != '\\'
    ensures ScanString([]) == None
    ensures ScanString([c] + rest) ==
            if c == '\n' then None else if c == '"' then Some(("", rest)) else Follow(c, ScanString(rest))
  {
    assert ([c] + rest)[1..] == rest;
  }

  /** Four hexadecimal digits give the character with that number. */
  lemma {:induction false} CodeRead(a: nat, b: nat, c: nat, d: nat, rest: string)
    requires a < 16 && b < 16 && c < 16 && d < 16
    requires var n := 4096 * a + 256 * b + 16 * c + d; !(0xD800 <= n < 0xE000)
    ensures var n := 4096 * a + 256 * b + 16 * c + d;
            ScanString(['\\', 'u', HexDigit(a), HexDigit(b), HexDigit(c), HexDigit(d)] + rest) ==
            Follow(n as char, ScanString(rest))
  {
    hide HexDigit, SimpleEscape, HexValue;
    var h := [HexDigit(a), HexDigit(b), HexDigit(c), HexDigit(d)];
    var s := ['\\', 'u'] + h + rest;
    assert ['\\', 'u', HexDigit(a), HexDigit(b), HexDigit(c), HexDigit(d)] == ['\\', 'u'] + h;
    assert s[0] == '\\' && s[1] == 'u' && s[2..6] == h && s[6..] == rest;
    HexOf(a, b, c, d);
  }

  lemma {:induction false} HexOf(a: nat, b: nat, c: nat, d: nat)
    requires a < 16 && b < 16 && c < 16 && d < 16
    ensures ParseHex([HexDigit(a), HexDigit(b), HexDigit(c), HexDigit(d)]) ==
            Some(4096 * a + 256 * b + 16 * c + d)
  {
    hide HexDigit, HexValue;
    var h := [HexDigit(a), HexDigit(b), HexDigit(c), HexDigit(d)];
    assert SkipSpace(h) == h;
    assert h[1..] == [HexDigit(b), HexDigit(c), HexDigit(d)] && h[1..][1..] == [HexDigit(c), HexDigit(d)];
    assert [HexDigit(c), HexDigit(d)][1..] == [HexDigit(d)] && [HexDigit(d)][1..] == [];
    var n := 4096 * a + 256 * b + 16 * c + d;
    assert HexRun([], Some(n)) == Some(n);
    assert HexRun([HexDigit(d)], Some(256 * a + 16 * b + c)) == Some(n);
    assert HexRun([HexDigit(c), HexDigit(d)], Some(16 * a + b)) == Some(n);
    assert HexRun([HexDigit(b), HexDigit(c), HexDigit(d)], Some(a)) == Some(n);
  }

  // ----- tokens -----

  /** What begins with a character that is no digit, letter, underscore, quote or sign: space is
      skipped, eight characters are tokens of their own, any other is an error. */
  lemma {:induction false} CharacterTokens(c: char, rest: string)
    ensures var r := Lex([c] + rest);
            && (c in {' ', '\t', '\r', '\n'} ==> r == Lex(rest))
            && (c == '(' ==> r == Prepend([LParen], Lex(rest))) && (c == ')' ==> r == Prepend([RParen], Lex(rest)))
            && (c == '[' ==> r == Prepend([LBracket], Lex(rest))) && (c == ']' ==> r == Prepend([RBracket], Lex(rest)))
            && (c == '{' ==> r == Prepend([LBrace], Lex(rest))) && (c == '}' ==> r == Prepend([RBrace], Lex(rest)))
            && (c == ',' ==> r == Prepend([Comma], Lex(rest))) && (c == ':' ==> r == Prepend([Colon], Lex(rest)))
    ensures !('0' <= c <= '9' || 'a' <= c <= 'z' || 'A' <= c <= 'Z' ||
              c in {' ', '\t', '\r', '\n', '(', ')', '[', ']', '{', '}', ',', ':', '"', '_', '-'}) ==>
              Lex([c] + rest) == None
  {
    assert ([c] + rest)[1..] == rest;
    if Punctuation(c).Some? {
      LexPunctuation(c, rest);
    }
  }

  /** A sign without a digit behind it is an error. */
  lemma {:induction false} LoneSign(rest: string)
    requires rest == [] || !('0' <= rest[0] <= '9')
    ensures Lex("-" + rest) == None
  {
    var s := "-" + rest;
    assert rest != [] ==> s[1] == rest[0];
  }

  /** Names are made of letters, digits and underscores and do not begin with a digit. */
  lemma {:induction false} NamesRead(name: string, rest: string)
    requires name != [] && !('0' <= name[0] <= '9') && (rest == [] || rest[0] != '.')
    requires forall i :: 0 <= i < |name| ==>
               'a' <= name[i] <= 'z' || 'A' <= name[i] <= 'Z' || '0' <= name[i] <= '9' || name[i] == '_'
    requires rest == [] || !('a' <= rest[0] <= 'z' || 'A' <= rest[0] <= 'Z' || '0' <= rest[0] <= '9' || rest[0] == '_')
    ensures Lex(name + rest) == Prepend([Ident(name)], Lex(rest))
  {
    LexIdent(name, rest);
  }
}
