/**
 * The part of JavaScript's number semantics the widget relies on, restricted to
 * integers: a number is either a finite integer or one of NaN, Infinity and
 * -Infinity (all three are rejected alike by `Number.isFinite`). This module
 * models `Number.parseInt(s, 10)` and, as its inverse, the decimal rendering of
 * an integer.
 */
module JsNumber {

  /** A JavaScript number; NonFinite stands for NaN, Infinity and -Infinity. */
  datatype Number = Finite(value: int) | NonFinite

  /** The characters `parseInt` skips before the number: ECMAScript's WhiteSpace and LineTerminator. */
  predicate IsWhitespace(c: char) {
    || c == '\t' || c == '\n' || c == '\r' || c == ' '
    || c == '\U{000B}' || c == '\U{000C}' || c == '\U{00A0}' || c == '\U{1680}'
    || ('\U{2000}' <= c <= '\U{200A}')
    || c == '\U{2028}' || c == '\U{2029}' || c == '\U{202F}' || c == '\U{205F}'
    || c == '\U{3000}' || c == '\U{FEFF}'
  }

  predicate IsDigit(c: char) {
    '0' <= c <= '9'
  }

  predicate AllDigits(s: string) {
    forall i :: 0 <= i < |s| ==> IsDigit(s[i])
  }

  function DigitValue(c: char): (d: nat)
    requires IsDigit(c)
    ensures d < 10
  {
    c as int - '0' as int
  }

  function DigitChar(d: nat): (c: char)
    requires d < 10
    ensures IsDigit(c) && DigitValue(c) == d
  {
    ('0' as int + d) as char
  }

  /** s without its leading whitespace. */
  function TrimStart(s: string): (r: string)
    ensures |r| <= |s| && r == s[|s| - |r|..]
    ensures r == [] || !IsWhitespace(r[0])
    ensures forall i :: 0 <= i < |s| - |r| ==> IsWhitespace(s[i])
  {
    if s != [] && IsWhitespace(s[0]) then
      var r := TrimStart(s[1..]);
      assert forall i :: 1 <= i < |s| - |r| ==> s[i] == s[1..][i - 1];
      r
    else
      s
  }

  /** The length of the run of decimal digits that s starts with. */
  function DigitRun(s: string): (n: nat)
    ensures n <= |s|
    ensures forall i :: 0 <= i < n ==> IsDigit(s[i])
    ensures n < |s| ==> !IsDigit(s[n])
  {
    if s != [] && IsDigit(s[0]) then
      var n := 1 + DigitRun(s[1..]);
      assert forall i :: 1 <= i < n ==> s[i] == s[1..][i - 1];
      n
    else
      0
  }

  /** The value of a string of decimal digits, most significant digit first. */
  function DigitsValue(ds: string): nat
    requires AllDigits(ds)
  {
    if ds == [] then 0 else DigitsValue(ds[..|ds| - 1]) * 10 + DigitValue(ds[|ds| - 1])
  }

  /** Whether t starts with a minus sign. */
  predicate IsNegative(t: string) {
    t != [] && t[0] == '-'
  }

  /** t without its optional leading sign. */
  function Unsigned(t: string): string {
    if t != [] && (t[0] == '-' || t[0] == '+') then t[1..] else t
  }

  /**
   * `Number.parseInt(s, 10)`: skip leading whitespace, take an optional sign,
   * then the longest run of decimal digits, ignoring whatever follows; NaN when
   * that run is empty.
   */
  function ParseInt(s: string): (r: Number)
    ensures r.NonFinite? <==>
      (var u := Unsigned(TrimStart(s)); u == [] || !IsDigit(u[0]))
    ensures r.Finite? && r.value < 0 ==> IsNegative(TrimStart(s))
    ensures r.Finite? && !IsNegative(TrimStart(s)) ==> r.value >= 0
  {
    var t := TrimStart(s);
    var unsigned := Unsigned(t);
    var k := DigitRun(unsigned);
    if k == 0 then NonFinite
    else
      var magnitude: int := DigitsValue(unsigned[..k]);
      Finite(if IsNegative(t) then -magnitude else magnitude)
  }

  /** The decimal digits of n, most significant first, without leading zeros. */
  function NatDecimal(n: nat): (s: string)
    ensures s != [] && AllDigits(s)
    ensures |s| > 1 ==> s[0] != '0'
  {
    if n < 10 then [DigitChar(n)] else NatDecimal(n / 10) + [DigitChar(n % 10)]
  }

  /** `String(n)` for an integer n: a '-' for negative values, then the digits of |n|. */
  function Decimal(n: int): string {
    if n < 0 then "-" + NatDecimal(-n) else NatDecimal(n)
  }

  lemma {:induction false} DigitsValueOfNatDecimal(n: nat)
    ensures DigitsValue(NatDecimal(n)) == n
  {
    if n >= 10 {
      var s := NatDecimal(n);
      assert s[..|s| - 1] == NatDecimal(n / 10);
      DigitsValueOfNatDecimal(n / 10);
    }
  }

  /** A digit run stops exactly where the digits stop. */
  lemma {:induction false} DigitRunOfDigits(ds: string, rest: string)
    requires AllDigits(ds)
    requires rest == [] || !IsDigit(rest[0])
    ensures DigitRun(ds + rest) == |ds|
  {
    if ds == [] {
      assert ds + rest == rest;
    } else {
      assert (ds + rest)[1..] == ds[1..] + rest;
      DigitRunOfDigits(ds[1..], rest);
    }
  }

  /**
   * s is a numeral as `parseInt` reads it: leading whitespace ws, a sign that
   * is empty, "+" or "-", a non-empty run of digits, and a rest that does not
   * continue the run.
   */
  predicate Numeral(s: string, ws: string, sign: string, digits: string, rest: string) {
    && (forall i :: 0 <= i < |ws| ==> IsWhitespace(ws[i]))
    && (sign == "" || sign == "+" || sign == "-")
    && digits != [] && AllDigits(digits)
    && (rest == [] || !IsDigit(rest[0]))
    && s == ws + (sign + (digits + rest))
  }

  /** The value of a digit run under a sign. */
  function SignedValue(sign: string, digits: string): int
    requires AllDigits(digits)
  {
    if sign == "-" then -(DigitsValue(digits) as int) else DigitsValue(digits)
  }

  /** With whitespace skipped, parseInt reads the run of digits after the sign. */
  lemma ParseIntReadsRun(s: string, digits: string)
    requires DigitRun(Unsigned(TrimStart(s))) == |digits|
    requires Unsigned(TrimStart(s))[..|digits|] == digits
    requires digits != [] && AllDigits(digits)
    ensures ParseInt(s) == Finite(if IsNegative(TrimStart(s)) then -(DigitsValue(digits) as int) else DigitsValue(digits))
  {
  }

  /** TrimStart leaves a sign followed by digits alone. */
  lemma TrimStartOfSigned(sign: string, digits: string, rest: string)
    requires sign == "" || sign == "+" || sign == "-"
    requires digits != [] && AllDigits(digits)
    ensures TrimStart(sign + (digits + rest)) == sign + (digits + rest)
  {
    var t := sign + (digits + rest);
    if sign == "" {
      assert t == digits + rest;
      assert IsDigit(t[0]);
    } else {
      assert t[0] == sign[0];
    }
    assert !IsWhitespace(t[0]);
  }

  /** Unsigned strips exactly the sign in front of the digits; the text is negative when the sign is "-". */
  lemma UnsignedOfSigned(sign: string, digits: string, rest: string)
    requires sign == "" || sign == "+" || sign == "-"
    requires digits != [] && AllDigits(digits)
    ensures Unsigned(sign + (digits + rest)) == digits + rest
    ensures IsNegative(sign + (digits + rest)) <==> sign == "-"
  {
    var t := sign + (digits + rest);
    if sign == "" {
      assert t == digits + rest;
      assert IsDigit(t[0]);
    } else {
      assert t[0] == sign[0] && t[1..] == digits + rest;
    }
  }

  /** Text whose whitespace is already skipped: parseInt reads the digits after the sign. */
  lemma ParseIntOfTrimmed(s: string, sign: string, digits: string, rest: string)
    requires sign == "" || sign == "+" || sign == "-"
    requires digits != [] && AllDigits(digits) && (rest == [] || !IsDigit(rest[0]))
    requires TrimStart(s) == sign + (digits + rest)
    ensures ParseInt(s) == Finite(SignedValue(sign, digits))
  {
    UnsignedOfSigned(sign, digits, rest);
    DigitRunOfDigits(digits, rest);
    assert (digits + rest)[..|digits|] == digits;
    ParseIntReadsRun(s, digits);
  }

  /**
   * parseInt reads the signed value of the digits of a numeral, with or
   * without leading zeros, whatever follows them.
   */
  lemma ParseIntOfNumeral(s: string, ws: string, sign: string, digits: string, rest: string)
    requires Numeral(s, ws, sign, digits, rest)
    ensures ParseInt(s) == Finite(SignedValue(sign, digits))
  {
    TrimStartSkips(ws, sign + (digits + rest));
    TrimStartOfSigned(sign, digits, rest);
    ParseIntOfTrimmed(s, sign, digits, rest);
  }

  /** The sign t starts with, if any. */
  function SignOf(t: string): (sign: string)
    ensures sign == "" || sign == "+" || sign == "-"
    ensures t == sign + Unsigned(t)
  {
    if t != [] && t[0] == '-' then "-"
    else if t != [] && t[0] == '+' then "+"
    else ""
  }

  /** s is its leading whitespace followed by TrimStart(s). */
  lemma SplitWhitespace(s: string) returns (ws: string)
    ensures forall i :: 0 <= i < |ws| ==> IsWhitespace(ws[i])
    ensures s == ws + TrimStart(s)
  {
    ws := s[..|s| - |TrimStart(s)|];
  }

  /** Text that starts with a digit is its digit run followed by a rest that does not continue it. */
  lemma SplitDigits(u: string) returns (digits: string, rest: string)
    requires DigitRun(u) > 0
    ensures digits != [] && AllDigits(digits) && (rest == [] || !IsDigit(rest[0]))
    ensures u == digits + rest
  {
    digits, rest := u[..DigitRun(u)], u[DigitRun(u)..];
  }

  /** Text in which a digit follows the whitespace and the sign splits into the parts of a numeral. */
  lemma SplitNumeral(s: string) returns (ws: string, sign: string, digits: string, rest: string)
    requires DigitRun(Unsigned(TrimStart(s))) > 0
    ensures Numeral(s, ws, sign, digits, rest)
  {
    ws := SplitWhitespace(s);
    sign := SignOf(TrimStart(s));
    digits, rest := SplitDigits(Unsigned(TrimStart(s)));
  }

  /** Conversely, whenever parseInt reads a number, the text is a numeral with that value. */
  lemma ParseIntFiniteIsNumeral(s: string)
    requires ParseInt(s).Finite?
    ensures exists ws, sign, digits, rest ::
      Numeral(s, ws, sign, digits, rest) && ParseInt(s) == Finite(SignedValue(sign, digits))
  {
    var ws, sign, digits, rest := SplitNumeral(s);
    ParseIntOfNumeral(s, ws, sign, digits, rest);
  }

  /** The sign Decimal(n) starts with, and the magnitude it renders. */
  function DecimalSign(n: int): string {
    if n < 0 then "-" else ""
  }

  function Magnitude(n: int): nat {
    if n < 0 then -n else n
  }

  /** The decimal rendering of n, followed by a non-digit rest, is a numeral. */
  lemma DecimalIsNumeral(n: int, rest: string)
    requires rest == [] || !IsDigit(rest[0])
    ensures Numeral(Decimal(n) + rest, "", DecimalSign(n), NatDecimal(Magnitude(n)), rest)
  {
    var digits := NatDecimal(Magnitude(n));
    if n < 0 {
      assert Decimal(n) + rest == "" + ("-" + (digits + rest));
    } else {
      assert Decimal(n) + rest == "" + ("" + (digits + rest));
    }
  }

  /** The numeral Decimal(n) has the value n. */
  lemma SignedValueOfDecimal(n: int)
    ensures SignedValue(DecimalSign(n), NatDecimal(Magnitude(n))) == n
  {
    DigitsValueOfNatDecimal(Magnitude(n));
  }

  /**
   * parseInt reads back the decimal rendering of every integer, whatever
   * non-digit text follows it.
   */
  lemma ParseIntOfDecimal(n: int, rest: string)
    requires rest == [] || !IsDigit(rest[0])
    ensures ParseInt(Decimal(n) + rest) == Finite(n)
  {
    DecimalIsNumeral(n, rest);
    ParseIntOfNumeral(Decimal(n) + rest, "", DecimalSign(n), NatDecimal(Magnitude(n)), rest);
    SignedValueOfDecimal(n);
  }

  lemma {:induction false} TrimStartSkips(ws: string, s: string)
    requires forall i :: 0 <= i < |ws| ==> IsWhitespace(ws[i])
    ensures TrimStart(ws + s) == TrimStart(s)
  {
    if ws != [] {
      assert (ws + s)[1..] == ws[1..] + s;
      TrimStartSkips(ws[1..], s);
    } else {
      assert ws + s == s;
    }
  }

  /** Leading whitespace does not change what parseInt reads. */
  lemma ParseIntSkipsWhitespace(ws: string, s: string)
    requires forall i :: 0 <= i < |ws| ==> IsWhitespace(ws[i])
    ensures ParseInt(ws + s) == ParseInt(s)
  {
    TrimStartSkips(ws, s);
  }

  /** A string without a single decimal digit parses to NaN. */
  lemma ParseIntWithoutDigits(s: string)
    requires forall i :: 0 <= i < |s| ==> !IsDigit(s[i])
    ensures ParseInt(s) == NonFinite
  {
    var u := Unsigned(TrimStart(s));
    if u != [] {
      assert u[0] == s[|s| - |u|];
    }
  }
}
