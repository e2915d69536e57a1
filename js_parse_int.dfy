/**
 * The JavaScript built-in `parseInt(text, 10)` that the input handler of the
 * number-guessing component uses to turn the raw text of the guess field into
 * a number.
 *
 * The algorithm (ECMAScript, "parseInt ( string, radix )"):
 * drop leading white space, take one optional `+` or `-`, then take the
 * longest prefix of decimal digits; when that prefix is empty the result is
 * NaN, otherwise it is the value of the digits, negated after a `-`.
 * Anything after the digits is ignored.
 */
module JsParseInt {

  /** What `parseInt` returns: NaN, or an integral number. */
  datatype Parsed = NaN | Int(value: int)

  /** StrWhiteSpaceChar: the WhiteSpace and LineTerminator code points. */
  predicate IsWhiteSpace(c: char) {
    || c == '\t' || c == '\n' || c == '\U{000B}' || c == '\U{000C}' || c == '\r'
    || c == ' ' || c == '\U{00A0}' || c == '\U{1680}'
    || ('\U{2000}' <= c <= '\U{200A}')
    || c == '\U{2028}' || c == '\U{2029}' || c == '\U{202F}' || c == '\U{205F}'
    || c == '\U{3000}' || c == '\U{FEFF}'
  }

  predicate IsDigit(c: char) {
    '0' <= c <= '9'
  }

  predicate AllDigits(d: string) {
    forall i :: 0 <= i < |d| ==> IsDigit(d[i])
  }

  predicate AllWhiteSpace(w: string) {
    forall i :: 0 <= i < |w| ==> IsWhiteSpace(w[i])
  }

  function DigitValue(c: char): nat
    requires IsDigit(c)
  {
    c as int - '0' as int
  }

  function DigitChar(n: nat): char
    requires n < 10
  {
    ('0' as int + n) as char
  }

  /** The input with its leading white space removed. */
  function TrimStart(s: string): (r: string)
    ensures r == [] || !IsWhiteSpace(r[0])
  {
    if s != [] && IsWhiteSpace(s[0]) then TrimStart(s[1..]) else s
  }

  /** The longest prefix of `s` made of decimal digits. */
  function DigitPrefix(s: string): (r: string)
    ensures |r| <= |s| && r == s[..|r|]
    ensures AllDigits(r)
    ensures |r| < |s| ==> !IsDigit(s[|r|])
  {
    if s != [] && IsDigit(s[0]) then [s[0]] + DigitPrefix(s[1..]) else []
  }

  /** The value of a string of decimal digits, most significant digit first. */
  function DigitsValue(d: string): nat
    requires AllDigits(d)
  {
    if d == [] then 0 else DigitsValue(d[..|d| - 1]) * 10 + DigitValue(d[|d| - 1])
  }

  /** The canonical decimal rendering of a natural number (no leading zero). */
  function Decimal(n: nat): (r: string)
    ensures |r| > 0 && AllDigits(r)
    ensures |r| > 1 ==> r[0] != '0'
  {
    if n < 10 then [DigitChar(n)] else Decimal(n / 10) + [DigitChar(n % 10)]
  }

  /**
   * `parseInt(s, 10)`: NaN when only white space is left, and a negative
   * result only after a `-`. ParseDigits, ParseDecimal and ParseNoDigits
   * state its value on every other shape of text.
   */
  function ParseInt(s: string): (r: Parsed)
    ensures TrimStart(s) == [] ==> r == NaN
    ensures r.Int? && r.value < 0 ==> TrimStart(s) != [] && TrimStart(s)[0] == '-'
  {
    ParseSigned(TrimStart(s))
  }

  /** The text after the white space: one optional sign, then the digits. */
  function ParseSigned(t: string): Parsed {
    if t != [] && t[0] == '-' then Negate(ParseUnsigned(t[1..]))
    else if t != [] && t[0] == '+' then ParseUnsigned(t[1..])
    else ParseUnsigned(t)
  }

  /** The longest run of leading digits, or NaN when there is none. */
  function ParseUnsigned(u: string): Parsed {
    var z := DigitPrefix(u);
    if z == [] then NaN else Int(DigitsValue(z))
  }

  function Negate(p: Parsed): Parsed {
    match p
    case NaN => NaN
    case Int(v) => Int(-v)
  }

  /** A sign `parseInt` accepts in front of the digits: none, `+` or `-`. */
  predicate IsSign(sign: string) {
    sign == "" || sign == "+" || sign == "-"
  }

  /** The value the sign gives to a magnitude. */
  function Signed(sign: string, m: nat): int {
    if sign == "-" then -(m as int) else m
  }

  /** TrimStart removes a run of white space from the front and nothing else. */
  lemma {:induction false} TrimStartDropsWhiteSpace(s: string)
    ensures var r := TrimStart(s);
      |r| <= |s| && r == s[|s| - |r|..] && AllWhiteSpace(s[..|s| - |r|])
  {
    if s != [] && IsWhiteSpace(s[0]) {
      TrimStartDropsWhiteSpace(s[1..]);
    }
  }

  lemma {:induction false} TrimWhiteSpacePrefix(ws: string, x: string)
    requires AllWhiteSpace(ws)
    requires x == [] || !IsWhiteSpace(x[0])
    ensures TrimStart(ws + x) == x
  {
    if ws != [] {
      assert (ws + x)[1..] == ws[1..] + x;
      TrimWhiteSpacePrefix(ws[1..], x);
    }
  }

  lemma {:induction false} DigitPrefixOfDigits(d: string, rest: string)
    requires AllDigits(d)
    requires rest == [] || !IsDigit(rest[0])
    ensures DigitPrefix(d + rest) == d
  {
    if d != [] {
      assert (d + rest)[1..] == d[1..] + rest;
      DigitPrefixOfDigits(d[1..], rest);
    }
  }

  /** Leading white space does not change what `parseInt` returns. */
  lemma {:induction false} ParseAfterWhiteSpace(ws: string, t: string)
    requires AllWhiteSpace(ws)
    ensures ParseInt(ws + t) == ParseInt(t)
  {
    if ws == [] {
      assert ws + t == t;
    } else {
      assert (ws + t)[1..] == ws[1..] + t;
      ParseAfterWhiteSpace(ws[1..], t);
    }
  }

  lemma {:induction false} DecimalValue(n: nat)
    ensures DigitsValue(Decimal(n)) == n
  {
    if n >= 10 {
      var p := Decimal(n / 10);
      var d := p + [DigitChar(n % 10)];
      assert d[..|d| - 1] == p;
      DecimalValue(n / 10);
    }
  }

  lemma ParseUnsignedDigits(d: string, rest: string)
    requires d != [] && AllDigits(d)
    requires rest == [] || !IsDigit(rest[0])
    ensures ParseUnsigned(d + rest) == Int(DigitsValue(d))
  {
    DigitPrefixOfDigits(d, rest);
  }

  lemma ParseSignedPlain(u: string)
    requires u == [] || (u[0] != '-' && u[0] != '+')
    ensures ParseSigned(u) == ParseUnsigned(u)
  {
  }

  lemma ParseSignedPrefix(c: char, u: string)
    requires c == '-' || c == '+'
    ensures ParseSigned([c] + u) == if c == '-' then Negate(ParseUnsigned(u)) else ParseUnsigned(u)
  {
    assert ([c] + u)[1..] == u;
  }

  lemma ParseSignedDigits(sign: string, d: string, rest: string)
    requires IsSign(sign)
    requires d != [] && AllDigits(d)
    requires rest == [] || !IsDigit(rest[0])
    ensures ParseSigned(sign + d + rest) == Int(Signed(sign, DigitsValue(d)))
  {
    var u := d + rest;
    assert sign + d + rest == sign + u;
    ParseUnsignedDigits(d, rest);
    if sign == "" {
      assert sign + u == u;
      ParseSignedPlain(u);
    } else {
      assert sign == [sign[0]];
      ParseSignedPrefix(sign[0], u);
    }
  }

  /**
   * Every text made of white space, an optional sign, a non-empty run of
   * digits and anything that does not continue the run parses to the signed
   * value of the digits.
   */
  lemma ParseDigits(ws: string, sign: string, d: string, rest: string)
    requires AllWhiteSpace(ws) && IsSign(sign)
    requires d != [] && AllDigits(d)
    requires rest == [] || !IsDigit(rest[0])
    ensures ParseInt(ws + sign + d + rest) == Int(Signed(sign, DigitsValue(d)))
  {
    var t := sign + d + rest;
    assert ws + sign + d + rest == ws + t;
    assert t[0] == if sign == "" then d[0] else sign[0];
    ParseAfterWhiteSpace(ws, t);
    assert TrimStart(t) == t;
    ParseSignedDigits(sign, d, rest);
  }

  /**
   * The decimal rendering of an integer, after any white space and with any
   * text behind it that is not a digit, parses back to that integer.
   */
  lemma ParseDecimal(ws: string, sign: string, n: nat, rest: string)
    requires AllWhiteSpace(ws) && IsSign(sign)
    requires rest == [] || !IsDigit(rest[0])
    ensures ParseInt(ws + sign + Decimal(n) + rest) == Int(Signed(sign, n))
  {
    ParseDigits(ws, sign, Decimal(n), rest);
    DecimalValue(n);
  }

  lemma ParseSignedNoDigits(sign: string, rest: string)
    requires IsSign(sign)
    requires rest == [] || !IsDigit(rest[0])
    requires sign == "" && rest != [] ==> rest[0] != '+' && rest[0] != '-'
    ensures ParseSigned(sign + rest) == NaN
  {
    if sign == "" {
      assert sign + rest == rest;
    } else {
      assert (sign + rest)[0] == sign[0];
      assert (sign + rest)[1..] == rest;
    }
  }

  /**
   * When no digit follows the white space and the optional sign, the result
   * is NaN. Without a sign, `rest` must not itself begin with white space or
   * a sign, since those would be skipped first.
   */
  lemma ParseNoDigits(ws: string, sign: string, rest: string)
    requires AllWhiteSpace(ws) && IsSign(sign)
    requires rest == [] || !IsDigit(rest[0])
    requires sign == "" && rest != [] ==> !IsWhiteSpace(rest[0]) && rest[0] != '+' && rest[0] != '-'
    ensures ParseInt(ws + sign + rest) == NaN
  {
    var t := sign + rest;
    assert ws + sign + rest == ws + t;
    assert sign != "" ==> t[0] == sign[0];
    ParseAfterWhiteSpace(ws, t);
    assert TrimStart(t) == t;
    ParseSignedNoDigits(sign, rest);
  }
}
