/**
 * JavaScript's `Number(string)` conversion (ECMAScript StringToNumber) and `Number.isNaN`.
 * A finite result is kept as an exact rational; it is not rounded to an IEEE-754 double.
 */
module JsNumber {
  import opened Wrappers
  import opened JsString

  datatype Number = NaN | Finite(value: real) | Infinity(negative: bool) {

    /** `Number.isNaN`. */
    predicate IsNaN() {
      NaN?
    }

    /** Unary minus. */
    function Negate(): (n: Number)
      ensures n.IsNaN() == IsNaN()
    {
      match this
      case NaN => NaN
      case Finite(v) => Finite(-v)
      case Infinity(neg) => Infinity(!neg)
    }
  }

  /** Value of a digit character in bases up to 16 (`0-9`, `a-f`, `A-F`); 16 for anything else. */
  function DigitValue(c: char): (d: nat)
    ensures d <= 16
    ensures '0' <= c <= '9' <==> d < 10
  {
    if '0' <= c <= '9' then c as int - '0' as int
    else if 'a' <= c <= 'f' then c as int - 'a' as int + 10
    else if 'A' <= c <= 'F' then c as int - 'A' as int + 10
    else 16
  }

  predicate AllDigits(s: string, radix: nat) {
    forall i :: 0 <= i < |s| ==> DigitValue(s[i]) < radix
  }

  /** The value of a digit string read in base `radix`, most significant digit first. */
  function DigitsValue(s: string, radix: nat): (v: nat)
    requires AllDigits(s, radix)
  {
    if s == [] then 0 else DigitsValue(s[..|s| - 1], radix) * radix + DigitValue(s[|s| - 1])
  }

  function Pow10Nat(e: nat): (p: nat)
    ensures p >= 1
  {
    if e == 0 then 1 else 10 * Pow10Nat(e - 1)
  }

  /** 10 raised to an integer power. */
  function Pow10(e: int): (p: real)
    ensures p > 0.0
  {
    if e >= 0 then Pow10Nat(e) as real else 1.0 / (Pow10Nat(-e) as real)
  }

  /** The first index of a character of `cs` in `s`, or |s| when there is none. */
  function IndexOfAny(s: string, cs: set<char>): (i: nat)
    ensures i <= |s|
    ensures i < |s| ==> s[i] in cs
    ensures forall k :: 0 <= k < i ==> s[k] !in cs
  {
    if s == [] then 0
    else if s[0] in cs then 0
    else 1 + IndexOfAny(s[1..], cs)
  }

  /** A non-empty digit string in base `radix`, without sign (`0x`/`0o`/`0b` bodies). */
  function ParseRadixDigits(d: string, radix: nat): (n: Number)
    ensures !n.IsNaN() <==> |d| > 0 && AllDigits(d, radix)
  {
    if |d| > 0 && AllDigits(d, radix) then Finite(DigitsValue(d, radix) as real) else NaN
  }

  /** ExponentPart after the `e`: an optional sign and at least one decimal digit. */
  function ParseExponent(x: string): (e: Option<int>)
    ensures e.Some? ==> |x| > 0
  {
    var negative := |x| > 0 && x[0] == '-';
    var digits := if |x| > 0 && (x[0] == '+' || x[0] == '-') then x[1..] else x;
    if |digits| > 0 && AllDigits(digits, 10) then
      Some(if negative then -(DigitsValue(digits, 10) as int) else DigitsValue(digits, 10))
    else None
  }

  /** A decimal literal cut into its integer digits, fraction digits and exponent. */
  datatype DecimalLiteral = DecimalLiteral(intPart: string, fracPart: string, exponent: Option<int>)

  /** Cuts `u` at the first `e`/`E` (exponent) and, before it, at the first `.` (fraction). */
  function CutDecimal(u: string): (lit: DecimalLiteral)
  {
    var e := IndexOfAny(u, {'e', 'E'});
    var mantissa := u[..e];
    var dot := IndexOfAny(mantissa, {'.'});
    DecimalLiteral(
      mantissa[..dot],
      if dot < |mantissa| then mantissa[dot + 1..] else "",
      if e < |u| then ParseExponent(u[e + 1..]) else Some(0))
  }

  /** At least one digit before or after the point, only digits, and a well-formed exponent. */
  predicate WellFormedDecimal(lit: DecimalLiteral) {
    && |lit.intPart| + |lit.fracPart| > 0
    && AllDigits(lit.intPart, 10)
    && AllDigits(lit.fracPart, 10)
    && lit.exponent.Some?
  }

  /** (intPart + fracPart / 10^|fracPart|) * 10^exponent. */
  function DecimalValue(lit: DecimalLiteral): real
    requires WellFormedDecimal(lit)
  {
    var m := DigitsValue(lit.intPart, 10) as real + DigitsValue(lit.fracPart, 10) as real / Pow10(|lit.fracPart|);
    m * Pow10(lit.exponent.value)
  }

  /**
   * StrUnsignedDecimalLiteral: `Infinity`, or digits with an optional fraction
   * (at least one digit before or after the point) and an optional exponent.
   */
  function ParseUnsignedDecimal(u: string): Number
  {
    if u == "Infinity" then Infinity(false)
    else
      var lit := CutDecimal(u);
      if WellFormedDecimal(lit) then Finite(DecimalValue(lit)) else NaN
  }

  /** `0x`/`0X`, `0o`/`0O` or `0b`/`0B` prefix: the radix it announces, or 0 for none. */
  function RadixPrefix(t: string): (radix: nat)
    ensures radix in {0, 2, 8, 16}
  {
    if |t| < 2 || t[0] != '0' then 0
    else if t[1] == 'x' || t[1] == 'X' then 16
    else if t[1] == 'o' || t[1] == 'O' then 8
    else if t[1] == 'b' || t[1] == 'B' then 2
    else 0
  }

  /**
   * `Number(s)`: surrounding whitespace is ignored and the rest is read as a
   * StringNumericLiteral. A string of whitespace only, the empty string included, is 0
   * rather than NaN, and a plain run of decimal digits is its value.
   */
  function ToNumber(s: string): (n: Number)
    ensures (forall k :: 0 <= k < |s| ==> IsWhitespace(s[k])) ==> n == Finite(0.0)
    ensures |s| > 0 && AllDigits(s, 10) ==> n == Finite(DigitsValue(s, 10) as real)
  {
    TrimEmptyIffAllWhitespace(s);
    DecimalDigitsLiteral(s);
    LiteralValue(Trim(s))
  }

  /**
   * The value of a StringNumericLiteral without surrounding whitespace: the empty string
   * is 0, a non-decimal literal has no sign, and anything that is not a
   * StrDecimalLiteral either is NaN.
   */
  function LiteralValue(t: string): Number
  {
    if t == "" then Finite(0.0)
    else if RadixPrefix(t) != 0 then ParseRadixDigits(t[2..], RadixPrefix(t))
    else if t[0] == '+' then ParseUnsignedDecimal(t[1..])
    else if t[0] == '-' then ParseUnsignedDecimal(t[1..]).Negate()
    else ParseUnsignedDecimal(t)
  }

  /** A run of decimal digits has no exponent marker, no point, and is not `Infinity`. */
  lemma CutDigits(d: string)
    requires |d| > 0 && AllDigits(d, 10)
    ensures d != "Infinity"
    ensures CutDecimal(d) == DecimalLiteral(d, "", Some(0))
  {
    assert DigitValue(d[0]) < 10 && DigitValue('I') == 16;
    assert DigitValue('e') == 14 && DigitValue('E') == 14 && DigitValue('.') == 16;
    assert d[..|d|] == d;
  }

  /** An unsigned run of decimal digits reads as its value (no fraction, exponent 0). */
  lemma UnsignedDigitsValue(d: string)
    requires |d| > 0 && AllDigits(d, 10)
    ensures ParseUnsignedDecimal(d) == Finite(DigitsValue(d, 10) as real)
  {
    CutDigits(d);
    IntegerDecimalValue(d);
  }

  lemma IntegerDecimalValue(d: string)
    requires AllDigits(d, 10)
    ensures WellFormedDecimal(DecimalLiteral(d, "", Some(0))) ==> DecimalValue(DecimalLiteral(d, "", Some(0))) == DigitsValue(d, 10) as real
  {
    assert Pow10(0) == 1.0;
  }

  /** A string that neither starts nor ends with whitespace is its own trim. */
  lemma TrimOfUnpadded(s: string)
    requires s == [] || (!IsWhitespace(s[0]) && !IsWhitespace(s[|s| - 1]))
    ensures Trim(s) == s
  {
    assert TrimStart(s) == s;
    assert TrimEnd(s) == s;
  }

  /** An unsigned literal with no radix prefix is read as a decimal literal. */
  lemma UnsignedLiteral(t: string)
    requires t != "" && RadixPrefix(t) == 0 && t[0] != '+' && t[0] != '-'
    ensures LiteralValue(t) == ParseUnsignedDecimal(t)
  {
  }

  /** A leading minus sign negates the decimal literal after it. */
  lemma MinusLiteral(u: string)
    ensures LiteralValue("-" + u) == ParseUnsignedDecimal(u).Negate()
  {
    var t := "-" + u;
    assert t[0] == '-' && t[1..] == u;
    assert RadixPrefix(t) == 0;
  }

  /** A `0x` prefix reads the rest as hexadecimal digits. */
  lemma HexPrefixLiteral(h: string)
    ensures LiteralValue("0x" + h) == ParseRadixDigits(h, 16)
  {
    var t := "0x" + h;
    assert t[0] == '0' && t[1] == 'x' && t[2..] == h;
    assert RadixPrefix(t) == 16;
  }

  /** `Number` of a string without surrounding whitespace reads the string as a literal. */
  lemma ToNumberOfUnpadded(s: string)
    requires s != [] && !IsWhitespace(s[0]) && !IsWhitespace(s[|s| - 1])
    ensures ToNumber(s) == LiteralValue(s)
  {
    TrimOfUnpadded(s);
  }

  /** A decimal digit string has no surrounding whitespace. */
  lemma DigitsUnpadded(d: string)
    requires |d| > 0 && AllDigits(d, 10)
    ensures Trim(d) == d
  {
    assert DigitValue(d[0]) < 10 && DigitValue(d[|d| - 1]) < 10;
    TrimOfUnpadded(d);
  }

  /** A decimal digit string has no sign and no radix prefix. */
  lemma DigitsUnsigned(d: string)
    requires |d| > 0 && AllDigits(d, 10)
    ensures LiteralValue(d) == ParseUnsignedDecimal(d)
  {
    assert DigitValue(d[0]) < 10;
    assert RadixPrefix(d) == 0 by {
      if |d| >= 2 { assert DigitValue(d[1]) < 10; }
    }
    UnsignedLiteral(d);
  }

  /** A plain decimal integer, read as a literal after trimming, is its value. */
  lemma DecimalDigitsLiteral(s: string)
    ensures |s| > 0 && AllDigits(s, 10) ==> LiteralValue(Trim(s)) == Finite(DigitsValue(s, 10) as real)
  {
    if |s| > 0 && AllDigits(s, 10) {
      DigitsUnpadded(s);
      DigitsUnsigned(s);
      UnsignedDigitsValue(s);
    }
  }

  /** Whitespace around a numeric string does not change its value. */
  lemma ToNumberIgnoresSurroundingWhitespace(s: string)
    ensures ToNumber(s) == ToNumber(Trim(s))
  {
    TrimIdempotent(s);
  }

  /** A hexadecimal literal converts to its value. */
  lemma HexLiteralValue(h: string)
    requires |h| > 0 && AllDigits(h, 16)
    ensures ToNumber("0x" + h) == Finite(DigitsValue(h, 16) as real)
  {
    var u := "0x" + h;
    assert DigitValue(h[|h| - 1]) < 16;
    assert u[|u| - 1] == h[|h| - 1];
    ToNumberOfUnpadded(u);
    HexPrefixLiteral(h);
  }

  /** A non-decimal literal takes no sign: `Number("-0x" + h)` is NaN. */
  lemma SignedHexLiteralIsNaN(h: string)
    requires |h| > 0 && AllDigits(h, 16)
    ensures ToNumber("-0x" + h).IsNaN()
  {
    var u := "-0x" + h;
    assert DigitValue(h[|h| - 1]) < 16;
    assert u[|u| - 1] == h[|h| - 1];
    ToNumberOfUnpadded(u);
    assert u == "-" + ("0x" + h);
    MinusLiteral("0x" + h);
    HexIsNotDecimal("0x" + h);
  }

  /** A `0x` literal is not a decimal literal. */
  lemma HexIsNotDecimal(u: string)
    requires |u| >= 2 && u[0] == '0' && u[1] == 'x'
    ensures ParseUnsignedDecimal(u).IsNaN()
  {
    assert u != "Infinity" by { assert u[0] != "Infinity"[0]; }
    var e := IndexOfAny(u, {'e', 'E'});
    assert e >= 2;
    var dot := IndexOfAny(u[..e], {'.'});
    assert dot >= 2;
    assert CutDecimal(u).intPart[1] == 'x';
    assert DigitValue('x') == 16;
  }
}
