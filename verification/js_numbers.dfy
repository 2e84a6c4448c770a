/** JavaScript numbers as the application uses them: IEEE-754 doubles are
    modelled by exact reals extended with the two infinities and NaN, with the
    arithmetic, comparison, truthiness, `Math.ceil`, `parseInt`, `parseFloat`
    and integer-to-decimal conversion the code applies to them. */
module JsNumbers {
  import opened JsStrings

  datatype Number = Finite(value: real) | PosInf | NegInf | NaN

  /** A real with no fractional part. */
  predicate IsInteger(x: real) {
    x == x.Floor as real
  }

  /** `!!x`: zero and NaN are falsy. */
  predicate Truthy(x: Number) {
    match x
    case Finite(v) => v != 0.0
    case NaN => false
    case _ => true
  }

  /** The sign of a non-NaN number; zero counts as positive zero. */
  function Sign(x: Number): int
    requires !x.NaN?
  {
    match x
    case Finite(v) => if v < 0.0 then -1 else 1
    case PosInf => 1
    case NegInf => -1
  }

  function Infinity(sign: int): Number {
    if sign < 0 then NegInf else PosInf
  }

  function Neg(x: Number): Number {
    match x
    case Finite(v) => Finite(-v)
    case PosInf => NegInf
    case NegInf => PosInf
    case NaN => NaN
  }

  function Add(a: Number, b: Number): Number {
    if a.NaN? || b.NaN? then NaN
    else if a.Finite? && b.Finite? then Finite(a.value + b.value)
    else if a.Finite? then b
    else if b.Finite? then a
    else if a == b then a
    else NaN
  }

  function Sub(a: Number, b: Number): Number {
    Add(a, Neg(b))
  }

  function Mul(a: Number, b: Number): Number {
    if a.NaN? || b.NaN? then NaN
    else if a.Finite? && b.Finite? then Finite(a.value * b.value)
    else if a == Finite(0.0) || b == Finite(0.0) then NaN
    else Infinity(Sign(a) * Sign(b))
  }

  function Div(a: Number, b: Number): Number {
    if a.NaN? || b.NaN? then NaN
    else if !a.Finite? && !b.Finite? then NaN
    else if !a.Finite? then Infinity(Sign(a) * Sign(b))
    else if !b.Finite? then Finite(0.0)
    else if b.value == 0.0 then (if a.value == 0.0 then NaN else Infinity(Sign(a)))
    else Finite(a.value / b.value)
  }

  /** `a < b`; every comparison with NaN is false. */
  predicate Less(a: Number, b: Number) {
    match (a, b)
    case (NaN, _) => false
    case (_, NaN) => false
    case (Finite(x), Finite(y)) => x < y
    case (NegInf, _) => !b.NegInf?
    case (_, PosInf) => !a.PosInf?
    case _ => false
  }

  /** The least integer not below `x`. */
  function CeilReal(x: real): (r: int)
    ensures r as real - 1.0 < x <= r as real
  {
    -((-x).Floor)
  }

  /** `Math.ceil(x)`. */
  function Ceil(x: Number): Number {
    match x
    case Finite(v) => Finite(CeilReal(v) as real)
    case _ => x
  }

  /** `Math.round(x)`: the nearest integer, halves rounded up. */
  function Round(x: real): (r: int)
    ensures x - 0.5 < r as real <= x + 0.5
  {
    (x + 0.5).Floor
  }

  // ---------------------------------------------------------------------
  // Digits

  predicate IsDecimalDigit(c: char) {
    '0' <= c <= '9'
  }

  predicate IsRadixDigit(c: char, radix: nat) {
    if radix == 16 then IsDecimalDigit(c) || 'a' <= c <= 'f' || 'A' <= c <= 'F'
    else IsDecimalDigit(c)
  }

  /** The value of a hexadecimal or decimal digit character. */
  function DigitValue(c: char): nat {
    if IsDecimalDigit(c) then c as int - '0' as int
    else if 'a' <= c <= 'f' then c as int - 'a' as int + 10
    else if 'A' <= c <= 'F' then c as int - 'A' as int + 10
    else 0
  }

  /** The longest prefix of `s` made of digits of the radix. */
  function LeadingDigits(s: string, radix: nat): (d: string)
    ensures d <= s
    ensures forall i :: 0 <= i < |d| ==> IsRadixDigit(d[i], radix)
    ensures |d| < |s| ==> !IsRadixDigit(s[|d|], radix)
  {
    if |s| == 0 || !IsRadixDigit(s[0], radix) then []
    else [s[0]] + LeadingDigits(s[1..], radix)
  }

  /** The value of a digit string read in the given radix. */
  function RadixValue(d: string, radix: nat): nat {
    if |d| == 0 then 0
    else RadixValue(d[..|d| - 1], radix) * radix + DigitValue(d[|d| - 1])
  }

  /** The decimal character of a digit. */
  function DigitChar(d: nat): char
    requires d < 10
  {
    ('0' as int + d) as char
  }

  /** The template-literal text `${n}` of a non-negative integer. */
  function NatToString(n: nat): (s: string)
    ensures |s| > 0
    ensures forall i :: 0 <= i < |s| ==> IsDecimalDigit(s[i])
    ensures |s| > 1 ==> s[0] != '0'
  {
    if n < 10 then [DigitChar(n)] else NatToString(n / 10) + [DigitChar(n % 10)]
  }

  /** Reading back the decimal text of `n` gives `n`. */
  lemma {:induction false} NatToStringValue(n: nat)
    ensures RadixValue(NatToString(n), 10) == n
  {
    if n >= 10 {
      var s := NatToString(n);
      assert s[..|s| - 1] == NatToString(n / 10);
      NatToStringValue(n / 10);
    }
  }

  /** Distinct integers have distinct decimal texts. */
  lemma NatToStringInjective(a: nat, b: nat)
    ensures NatToString(a) == NatToString(b) ==> a == b
  {
    NatToStringValue(a);
    NatToStringValue(b);
  }

  /** A string of digits is its own longest digit prefix. */
  lemma {:induction false} AllDigitsLeading(s: string, radix: nat)
    requires forall i :: 0 <= i < |s| ==> IsRadixDigit(s[i], radix)
    ensures LeadingDigits(s, radix) == s
  {
    if |s| > 0 {
      AllDigitsLeading(s[1..], radix);
    }
  }

  // ---------------------------------------------------------------------
  // parseInt

  /** `parseInt(s)` with no radix: leading whitespace and one sign are skipped,
      then the digits are read by `ParseUnsigned`. */
  function ParseInt(s: string): (n: Number)
    ensures n.NaN? || (n.Finite? && IsInteger(n.value))
  {
    var t := TrimStart(s);
    if |t| > 0 && (t[0] == '+' || t[0] == '-') then ParseUnsigned(t[1..], t[0] == '-')
    else ParseUnsigned(t, false)
  }

  /** The digits after the sign: a `0x`/`0X` prefix selects radix 16, and the
      longest run of digits that follows is read; no digits at all gives NaN. */
  function ParseUnsigned(u: string, negative: bool): (n: Number)
    ensures n.NaN? || (n.Finite? && IsInteger(n.value))
  {
    var hex := |u| >= 2 && u[0] == '0' && (u[1] == 'x' || u[1] == 'X');
    var radix := if hex then 16 else 10;
    var z := LeadingDigits(if hex then u[2..] else u, radix);
    if |z| == 0 then NaN
    else
      var m: int := RadixValue(z, radix);
      Finite((if negative then -m else m) as real)
  }

  /** `parseInt` reads back the decimal text of any non-negative integer. */
  lemma ParseIntOfNatToString(n: nat)
    ensures ParseInt(NatToString(n)) == Finite(n as real)
  {
    var s := NatToString(n);
    assert LeadingBlanks(s) == 0;
    assert TrimStart(s) == s;
    AllDigitsLeading(s, 10);
    NatToStringValue(n);
  }

  /** The default texts of the search parameters read as 1 and 12. */
  lemma ParseIntLiterals()
    ensures ParseInt("1") == Finite(1.0) && ParseInt("12") == Finite(12.0)
  {
    assert NatToString(1) == "1";
    ParseIntOfNatToString(1);
    assert NatToString(12) == "12" by {
      assert NatToString(12) == NatToString(1) + [DigitChar(2)];
    }
    ParseIntOfNatToString(12);
  }

  /** `parseInt` of a string without any digit after the optional sign is NaN. */
  lemma ParseIntWithoutDigits(s: string)
    requires forall i :: 0 <= i < |s| ==> !IsDecimalDigit(s[i])
    ensures ParseInt(s).NaN?
  {
    var t := TrimStart(s);
    assert forall i :: 0 <= i < |t| ==> t[i] == s[LeadingBlanks(s) + i];
  }

  /** Whitespace in front of a non-whitespace character is exactly what
      `trimStart` removes. */
  lemma {:induction false} LeadingBlanksOfBlankPrefix(w: string, x: string)
    requires Blank(w)
    requires |x| > 0 ==> !IsJsWhiteSpace(x[0])
    ensures LeadingBlanks(w + x) == |w|
  {
    if |w| > 0 {
      assert (w + x)[1..] == w[1..] + x;
      LeadingBlanksOfBlankPrefix(w[1..], x);
    }
  }

  /** The digit run read is exactly the digits before the first non-digit. */
  lemma {:induction false} LeadingDigitsBeforeNonDigit(d: string, rest: string)
    requires forall i :: 0 <= i < |d| ==> IsDecimalDigit(d[i])
    requires |rest| > 0 ==> !IsDecimalDigit(rest[0])
    ensures LeadingDigits(d + rest, 10) == d
  {
    if |d| > 0 {
      assert (d + rest)[1..] == d[1..] + rest;
      LeadingDigitsBeforeNonDigit(d[1..], rest);
      assert d == [d[0]] + d[1..];
    }
  }

  /** Decimal digits followed by a non-digit never start with the `0x`
      prefix unless they are a lone `0` before `x`/`X`. */
  lemma NoHexPrefix(d: string, rest: string)
    requires |d| > 0 && forall i :: 0 <= i < |d| ==> IsDecimalDigit(d[i])
    requires d == "0" && |rest| > 0 ==> rest[0] != 'x' && rest[0] != 'X'
    ensures var u := d + rest; !(|u| >= 2 && u[0] == '0' && (u[1] == 'x' || u[1] == 'X'))
  {
    var u := d + rest;
    if |u| >= 2 && u[0] == '0' {
      if |d| >= 2 {
        assert u[1] == d[1];
      } else {
        assert d == [u[0]] && u[1] == rest[0];
      }
    }
  }

  /** Decimal digits followed by text that does not continue them read as
      their value, unless they are a lone `0` before `x`/`X`. */
  lemma ParseUnsignedDecimal(d: string, rest: string, negative: bool)
    requires |d| > 0 && forall i :: 0 <= i < |d| ==> IsDecimalDigit(d[i])
    requires |rest| > 0 ==> !IsDecimalDigit(rest[0])
    requires d == "0" && |rest| > 0 ==> rest[0] != 'x' && rest[0] != 'X'
    ensures ParseUnsigned(d + rest, negative)
      == Finite(if negative then -(RadixValue(d, 10) as real) else RadixValue(d, 10) as real)
  {
    NoHexPrefix(d, rest);
    LeadingDigitsBeforeNonDigit(d, rest);
  }

  /** `parseInt` skips leading whitespace and reads the sign that follows. */
  lemma ParseIntAfterBlanks(w: string, x: string)
    requires Blank(w) && |x| > 0 && !IsJsWhiteSpace(x[0])
    ensures ParseInt(w + x)
      == if x[0] == '+' || x[0] == '-' then ParseUnsigned(x[1..], x[0] == '-') else ParseUnsigned(x, false)
  {
    LeadingBlanksOfBlankPrefix(w, x);
    assert (w + x)[|w|..] == x;
  }

  /** After whitespace, a sign character hands the rest to `ParseUnsigned`. */
  lemma ParseIntAfterBlanksAndSign(w: string, c: char, u: string)
    requires Blank(w) && (c == '+' || c == '-')
    ensures ParseInt(w + ([c] + u)) == ParseUnsigned(u, c == '-')
  {
    var x := [c] + u;
    assert x[0] == c && x[1..] == u;
    ParseIntAfterBlanks(w, x);
  }

  /** Unsigned decimal digits after whitespace read as their value. */
  lemma ParseIntUnsignedDecimal(w: string, d: string, rest: string)
    requires Blank(w)
    requires |d| > 0 && forall i :: 0 <= i < |d| ==> IsDecimalDigit(d[i])
    requires |rest| > 0 ==> !IsDecimalDigit(rest[0])
    requires d == "0" && |rest| > 0 ==> rest[0] != 'x' && rest[0] != 'X'
    ensures ParseInt(w + (d + rest)) == Finite(RadixValue(d, 10) as real)
  {
    var u := d + rest;
    ParseUnsignedDecimal(d, rest, false);
    assert !IsJsWhiteSpace(u[0]) && u[0] != '+' && u[0] != '-' by {
      assert u[0] == d[0];
    }
    ParseIntAfterBlanks(w, u);
  }

  /** Decimal digits after whitespace and a sign character read as their
      value, negated after `-`. */
  lemma ParseIntSignedDecimal(w: string, c: char, d: string, rest: string)
    requires Blank(w) && (c == '+' || c == '-')
    requires |d| > 0 && forall i :: 0 <= i < |d| ==> IsDecimalDigit(d[i])
    requires |rest| > 0 ==> !IsDecimalDigit(rest[0])
    requires d == "0" && |rest| > 0 ==> rest[0] != 'x' && rest[0] != 'X'
    ensures ParseInt(w + ([c] + (d + rest)))
      == Finite(if c == '-' then -(RadixValue(d, 10) as real) else RadixValue(d, 10) as real)
  {
    ParseUnsignedDecimal(d, rest, c == '-');
    ParseIntAfterBlanksAndSign(w, c, d + rest);
  }

  /** `parseInt` of leading whitespace, an optional sign, a run of decimal
      digits (leading zeros allowed) and any text not continuing the number
      is the signed value of the digits. The one exception, a lone `0`
      followed by `x` or `X`, is the hexadecimal prefix. */
  lemma ParseIntDecimal(w: string, sign: string, d: string, rest: string)
    requires Blank(w)
    requires |sign| <= 1 && (|sign| == 1 ==> sign[0] == '+' || sign[0] == '-')
    requires |d| > 0 && forall i :: 0 <= i < |d| ==> IsDecimalDigit(d[i])
    requires |rest| > 0 ==> !IsDecimalDigit(rest[0])
    requires d == "0" && |rest| > 0 ==> rest[0] != 'x' && rest[0] != 'X'
    ensures var negative := |sign| == 1 && sign[0] == '-';
      ParseInt(w + (sign + (d + rest)))
      == Finite(if negative then -(RadixValue(d, 10) as real) else RadixValue(d, 10) as real)
  {
    if |sign| == 0 {
      assert sign + (d + rest) == d + rest;
      ParseIntUnsignedDecimal(w, d, rest);
    } else {
      assert sign == [sign[0]];
      ParseIntSignedDecimal(w, sign[0], d, rest);
    }
  }

  /** Trailing text after the digits is ignored. */
  lemma ParseIntIgnoresTrailingText()
    ensures ParseInt("2abc") == Finite(2.0)
  {
    ParseIntDecimal("", "", "2", "abc");
    assert "" + ("" + ("2" + "abc")) == "2abc";
    assert RadixValue("2", 10) == 2 by {
      assert "2"[..0] == "";
    }
  }

  /** Leading whitespace and a minus sign are accepted. */
  lemma ParseIntSignedWithSpace()
    ensures ParseInt(" -7") == Finite(-7.0)
  {
    ParseIntDecimal(" ", "-", "7", "");
    assert " " + ("-" + ("7" + "")) == " -7";
    assert RadixValue("7", 10) == 7 by {
      assert "7"[..0] == "";
    }
  }

  /** Leading zeros do not change the value. */
  lemma ParseIntLeadingZeros()
    ensures ParseInt("007") == Finite(7.0)
  {
    ParseIntDecimal("", "", "007", "");
    assert "" + ("" + ("007" + "")) == "007";
    assert RadixValue("007", 10) == 7 by {
      assert "007"[..2] == "00" && "00"[..1] == "0" && "0"[..0] == "";
    }
  }

  /** A `0x` prefix selects hexadecimal: `parseInt("0x1A")` is 26, not 0. */
  lemma ParseIntHexPrefix()
    ensures ParseInt("0x1A") == Finite(26.0)
  {
    var h := "0x1A";
    assert LeadingBlanks(h) == 0;
    assert TrimStart(h) == h;
    assert h[2..] == "1A";
    AllDigitsLeading("1A", 16);
    assert RadixValue("1A", 16) == 26 by {
      assert "1A"[..1] == "1" && "1"[..0] == "";
    }
  }

  // ---------------------------------------------------------------------
  // parseFloat

  /** Ten to an integer power. */
  function Pow10(e: int): (r: real)
    ensures r > 0.0
    decreases if e < 0 then -e else e
  {
    if e == 0 then 1.0
    else if e > 0 then 10.0 * Pow10(e - 1)
    else Pow10(e + 1) / 10.0
  }

  /** The exponent written at the start of `s` (`e`/`E`, an optional sign and
      at least one digit), or 0 when there is none. */
  function LeadingExponent(s: string): int {
    if |s| < 2 || (s[0] != 'e' && s[0] != 'E') then 0
    else
      var signed := s[1] == '+' || s[1] == '-';
      var d := LeadingDigits(if signed then s[2..] else s[1..], 10);
      if |d| == 0 then 0
      else if s[1] == '-' then -(RadixValue(d, 10) as int)
      else RadixValue(d, 10)
  }

  /** `parseFloat(s)`: after leading whitespace and one sign, either
      `Infinity` or the longest decimal literal prefix (digits, an optional
      fraction and an optional exponent) is read; no mantissa digit gives NaN. */
  function ParseFloat(s: string): (n: Number)
  {
    var t := TrimStart(s);
    if |t| > 0 && (t[0] == '+' || t[0] == '-') then UnsignedFloat(t[1..], t[0] == '-')
    else UnsignedFloat(t, false)
  }

  /** What follows the sign: `Infinity`, or a decimal literal negated after `-`. */
  function UnsignedFloat(u: string, negative: bool): Number {
    if "Infinity" <= u then (if negative then NegInf else PosInf)
    else if negative then Neg(DecimalLiteral(u))
    else DecimalLiteral(u)
  }

  /** The value of the longest decimal literal at the start of `u`, or NaN
      when it has no mantissa digit. */
  function DecimalLiteral(u: string): Number {
    var whole := LeadingDigits(u, 10);
    AfterWholeDigits(whole, u[|whole|..])
  }

  /** The rest of a decimal literal once its whole-number digits are read:
      an optional fraction and an optional exponent. */
  function AfterWholeDigits(whole: string, rest: string): Number {
    var dotted := |rest| > 0 && rest[0] == '.';
    var fraction := if dotted then LeadingDigits(rest[1..], 10) else [];
    if |whole| == 0 && |fraction| == 0 then NaN
    else
      var tail := if dotted then rest[1 + |fraction|..] else rest;
      Finite(Mantissa(whole, fraction) * Pow10(LeadingExponent(tail)))
  }

  /** The value of the digits `whole.fraction`. */
  function Mantissa(whole: string, fraction: string): real {
    RadixValue(whole, 10) as real + RadixValue(fraction, 10) as real / Pow10(|fraction|)
  }

  /** The value of a run of decimal digits, as a number. */
  function DecimalValue(d: string): real {
    RadixValue(d, 10) as real
  }

  /** Whole-number digits with nothing after them read as their value. */
  lemma AfterWholeDigitsAlone(whole: string)
    requires |whole| > 0
    ensures AfterWholeDigits(whole, []) == Finite(RadixValue(whole, 10) as real)
  {
    var fraction: string := [];
    assert Mantissa(whole, fraction) == RadixValue(whole, 10) as real by {
      assert RadixValue(fraction, 10) == 0 && Pow10(|fraction|) == 1.0;
    }
    assert Pow10(LeadingExponent([])) == 1.0 by {
      assert LeadingExponent([]) == 0;
    }
  }

  /** A literal made only of decimal digits reads as their value. */
  lemma DecimalLiteralOfDigits(s: string)
    requires |s| > 0 && forall i :: 0 <= i < |s| ==> IsDecimalDigit(s[i])
    ensures DecimalLiteral(s) == Finite(RadixValue(s, 10) as real)
  {
    AllDigitsLeading(s, 10);
    assert s[|s|..] == [];
    AfterWholeDigitsAlone(s);
  }

  /** `parseFloat` reads back the decimal text of any non-negative integer. */
  lemma ParseFloatOfNatToString(n: nat)
    ensures ParseFloat(NatToString(n)) == Finite(n as real)
  {
    var s := NatToString(n);
    assert LeadingBlanks(s) == 0;
    assert TrimStart(s) == s;
    assert s[0] != 'I' && s[0] != '+' && s[0] != '-';
    assert !("Infinity" <= s);
    DecimalLiteralOfDigits(s);
    NatToStringValue(n);
  }

  /** `parseFloat` skips leading whitespace and reads the sign that follows. */
  lemma ParseFloatAfterBlanks(w: string, x: string)
    requires Blank(w) && |x| > 0 && !IsJsWhiteSpace(x[0])
    ensures ParseFloat(w + x)
      == if x[0] == '+' || x[0] == '-' then UnsignedFloat(x[1..], x[0] == '-') else UnsignedFloat(x, false)
  {
    LeadingBlanksOfBlankPrefix(w, x);
    assert (w + x)[|w|..] == x;
  }

  /** After whitespace, a sign character hands the rest to `UnsignedFloat`. */
  lemma ParseFloatAfterBlanksAndSign(w: string, c: char, u: string)
    requires Blank(w) && (c == '+' || c == '-')
    ensures ParseFloat(w + ([c] + u)) == UnsignedFloat(u, c == '-')
  {
    var x := [c] + u;
    assert x[0] == c && x[1..] == u;
    ParseFloatAfterBlanks(w, x);
  }

  /** Once the whole-number digits end, the rest of the literal is read by
      `AfterWholeDigits`. */
  lemma DecimalLiteralAfterWhole(d: string, x: string)
    requires forall i :: 0 <= i < |d| ==> IsDecimalDigit(d[i])
    requires |x| > 0 && !IsDecimalDigit(x[0])
    ensures DecimalLiteral(d + x) == AfterWholeDigits(d, x)
  {
    LeadingDigitsBeforeNonDigit(d, x);
    assert (d + x)[|d|..] == x;
  }

  /** A point, digits, and text that continues neither the fraction nor an
      exponent complete the literal `whole.fraction`. */
  lemma FractionAfterWhole(d: string, f: string, rest: string)
    requires forall i :: 0 <= i < |f| ==> IsDecimalDigit(f[i])
    requires |d| > 0 || |f| > 0
    requires |rest| > 0 ==> !IsDecimalDigit(rest[0]) && rest[0] != 'e' && rest[0] != 'E'
    ensures AfterWholeDigits(d, ['.'] + (f + rest)) == Finite(Mantissa(d, f))
  {
    var x := ['.'] + (f + rest);
    assert x[0] == '.' && x[1..] == f + rest;
    LeadingDigitsBeforeNonDigit(f, rest);
    assert x[1 + |f|..] == rest;
    assert LeadingExponent(rest) == 0;
  }

  /** Digits, a point and digits, followed by text that continues neither
      the fraction nor an exponent, read as `whole.fraction`. */
  lemma DecimalLiteralWithFraction(d: string, f: string, rest: string)
    requires forall i :: 0 <= i < |d| ==> IsDecimalDigit(d[i])
    requires forall i :: 0 <= i < |f| ==> IsDecimalDigit(f[i])
    requires |d| > 0 || |f| > 0
    requires |rest| > 0 ==> !IsDecimalDigit(rest[0]) && rest[0] != 'e' && rest[0] != 'E'
    ensures DecimalLiteral(d + (['.'] + (f + rest))) == Finite(Mantissa(d, f))
  {
    DecimalLiteralAfterWhole(d, ['.'] + (f + rest));
    FractionAfterWhole(d, f, rest);
  }

  /** The unsigned part of a decimal with a point, negated after `-`. */
  lemma UnsignedFloatWithFraction(d: string, f: string, rest: string, negative: bool)
    requires forall i :: 0 <= i < |d| ==> IsDecimalDigit(d[i])
    requires forall i :: 0 <= i < |f| ==> IsDecimalDigit(f[i])
    requires |d| > 0 || |f| > 0
    requires |rest| > 0 ==> !IsDecimalDigit(rest[0]) && rest[0] != 'e' && rest[0] != 'E'
    ensures UnsignedFloat(d + (['.'] + (f + rest)), negative)
      == Finite(if negative then -Mantissa(d, f) else Mantissa(d, f))
  {
    var u := d + (['.'] + (f + rest));
    assert u[0] != 'I' by {
      if |d| > 0 { assert u[0] == d[0]; } else { assert u[0] == '.'; }
    }
    assert !("Infinity" <= u);
    DecimalLiteralWithFraction(d, f, rest);
  }

  /** Unsigned decimal text with a point after whitespace reads as its value. */
  lemma ParseFloatUnsignedFraction(w: string, d: string, f: string, rest: string)
    requires Blank(w)
    requires forall i :: 0 <= i < |d| ==> IsDecimalDigit(d[i])
    requires forall i :: 0 <= i < |f| ==> IsDecimalDigit(f[i])
    requires |d| > 0 || |f| > 0
    requires |rest| > 0 ==> !IsDecimalDigit(rest[0]) && rest[0] != 'e' && rest[0] != 'E'
    ensures ParseFloat(w + (d + (['.'] + (f + rest)))) == Finite(Mantissa(d, f))
  {
    var u := d + (['.'] + (f + rest));
    UnsignedFloatWithFraction(d, f, rest, false);
    assert !IsJsWhiteSpace(u[0]) && u[0] != '+' && u[0] != '-' by {
      if |d| > 0 { assert u[0] == d[0]; } else { assert u[0] == '.'; }
    }
    ParseFloatAfterBlanks(w, u);
  }

  /** Decimal text with a point after whitespace and a sign character reads
      as its value, negated after `-`. */
  lemma ParseFloatSignedFraction(w: string, c: char, d: string, f: string, rest: string)
    requires Blank(w) && (c == '+' || c == '-')
    requires forall i :: 0 <= i < |d| ==> IsDecimalDigit(d[i])
    requires forall i :: 0 <= i < |f| ==> IsDecimalDigit(f[i])
    requires |d| > 0 || |f| > 0
    requires |rest| > 0 ==> !IsDecimalDigit(rest[0]) && rest[0] != 'e' && rest[0] != 'E'
    ensures ParseFloat(w + ([c] + (d + (['.'] + (f + rest)))))
      == Finite(if c == '-' then -Mantissa(d, f) else Mantissa(d, f))
  {
    UnsignedFloatWithFraction(d, f, rest, c == '-');
    ParseFloatAfterBlanksAndSign(w, c, d + (['.'] + (f + rest)));
  }

  /** `parseFloat` of leading whitespace, an optional sign, digits, a point,
      digits (at least one digit in all) and any text that continues neither
      the fraction nor an exponent is the signed value `whole.fraction`. */
  lemma ParseFloatDecimal(w: string, sign: string, d: string, f: string, rest: string)
    requires Blank(w)
    requires |sign| <= 1 && (|sign| == 1 ==> sign[0] == '+' || sign[0] == '-')
    requires forall i :: 0 <= i < |d| ==> IsDecimalDigit(d[i])
    requires forall i :: 0 <= i < |f| ==> IsDecimalDigit(f[i])
    requires |d| > 0 || |f| > 0
    requires |rest| > 0 ==> !IsDecimalDigit(rest[0]) && rest[0] != 'e' && rest[0] != 'E'
    ensures var negative := |sign| == 1 && sign[0] == '-';
      ParseFloat(w + (sign + (d + (['.'] + (f + rest)))))
      == Finite(if negative then -Mantissa(d, f) else Mantissa(d, f))
  {
    if |sign| == 0 {
      assert sign + (d + (['.'] + (f + rest))) == d + (['.'] + (f + rest));
      ParseFloatUnsignedFraction(w, d, f, rest);
    } else {
      assert sign == [sign[0]];
      ParseFloatSignedFraction(w, sign[0], d, f, rest);
    }
  }

  /** Whole-number digits followed by text that continues neither the
      digits, a fraction nor an exponent read as their value. */
  lemma WholeAfterDigits(d: string, rest: string)
    requires |d| > 0
    requires |rest| > 0 ==> rest[0] != '.' && rest[0] != 'e' && rest[0] != 'E'
    ensures AfterWholeDigits(d, rest) == Finite(RadixValue(d, 10) as real)
  {
    var fraction: string := [];
    assert Mantissa(d, fraction) == RadixValue(d, 10) as real by {
      assert RadixValue(fraction, 10) == 0 && Pow10(|fraction|) == 1.0;
    }
    assert Pow10(LeadingExponent(rest)) == 1.0 by {
      assert LeadingExponent(rest) == 0;
    }
  }

  /** A decimal literal with no point and no exponent reads as its digits. */
  lemma DecimalLiteralWhole(d: string, rest: string)
    requires |d| > 0 && forall i :: 0 <= i < |d| ==> IsDecimalDigit(d[i])
    requires |rest| > 0 ==> !IsDecimalDigit(rest[0]) && rest[0] != '.' && rest[0] != 'e' && rest[0] != 'E'
    ensures DecimalLiteral(d + rest) == Finite(RadixValue(d, 10) as real)
  {
    LeadingDigitsBeforeNonDigit(d, rest);
    assert (d + rest)[|d|..] == rest;
    WholeAfterDigits(d, rest);
  }

  /** Text starting with a digit is not `Infinity`. */
  lemma DigitsNotInfinity(d: string, rest: string)
    requires |d| > 0 && IsDecimalDigit(d[0])
    ensures !("Infinity" <= d + rest)
  {
    assert (d + rest)[0] == d[0] != 'I';
  }

  /** Text that is not `Infinity` reads as its decimal literal, negated
      after `-`. */
  lemma UnsignedFloatOfLiteral(u: string, negative: bool, v: real)
    requires !("Infinity" <= u) && DecimalLiteral(u) == Finite(v)
    ensures UnsignedFloat(u, negative) == Finite(if negative then -v else v)
  {
  }

  /** The unsigned part of a whole number, negated after `-`. */
  lemma UnsignedFloatWhole(d: string, rest: string, negative: bool, v: real)
    requires |d| > 0 && forall i :: 0 <= i < |d| ==> IsDecimalDigit(d[i])
    requires |rest| > 0 ==> !IsDecimalDigit(rest[0]) && rest[0] != '.' && rest[0] != 'e' && rest[0] != 'E'
    requires v == RadixValue(d, 10) as real
    ensures UnsignedFloat(d + rest, negative) == Finite(if negative then -v else v)
  {
    DigitsNotInfinity(d, rest);
    DecimalLiteralWhole(d, rest);
    UnsignedFloatOfLiteral(d + rest, negative, v);
  }

  /** After whitespace, text starting with a digit has no sign and is read
      by `UnsignedFloat`. */
  lemma ParseFloatAfterBlanksUnsigned(w: string, u: string)
    requires Blank(w) && |u| > 0 && IsDecimalDigit(u[0])
    ensures ParseFloat(w + u) == UnsignedFloat(u, false)
  {
    assert !IsJsWhiteSpace(u[0]) && u[0] != '+' && u[0] != '-';
    ParseFloatAfterBlanks(w, u);
  }

  /** `ParseFloatWhole` with the value of the digits given as `v`. */
  lemma ParseFloatWholeIs(w: string, sign: string, d: string, rest: string, v: real)
    requires Blank(w)
    requires |sign| <= 1 && (|sign| == 1 ==> sign[0] == '+' || sign[0] == '-')
    requires |d| > 0 && forall i :: 0 <= i < |d| ==> IsDecimalDigit(d[i])
    requires |rest| > 0 ==> !IsDecimalDigit(rest[0]) && rest[0] != '.' && rest[0] != 'e' && rest[0] != 'E'
    requires v == RadixValue(d, 10) as real
    ensures ParseFloat(w + (sign + (d + rest))) == Finite(if |sign| == 1 && sign[0] == '-' then -v else v)
  {
    var u := d + rest;
    var negative := |sign| == 1 && sign[0] == '-';
    UnsignedFloatWhole(d, rest, negative, v);
    if |sign| == 0 {
      assert sign + u == u;
      assert u[0] == d[0];
      ParseFloatAfterBlanksUnsigned(w, u);
    } else {
      assert sign == [sign[0]];
      ParseFloatAfterBlanksAndSign(w, sign[0], u);
    }
  }

  /** `parseFloat` of leading whitespace, an optional sign, decimal digits
      (leading zeros allowed) and any text that continues neither the
      digits, a fraction nor an exponent is the signed value of the digits. */
  lemma ParseFloatWhole(w: string, sign: string, d: string, rest: string)
    requires Blank(w)
    requires |sign| <= 1 && (|sign| == 1 ==> sign[0] == '+' || sign[0] == '-')
    requires |d| > 0 && forall i :: 0 <= i < |d| ==> IsDecimalDigit(d[i])
    requires |rest| > 0 ==> !IsDecimalDigit(rest[0]) && rest[0] != '.' && rest[0] != 'e' && rest[0] != 'E'
    ensures ParseFloat(w + (sign + (d + rest)))
      == Finite(if |sign| == 1 && sign[0] == '-' then -DecimalValue(d) else DecimalValue(d))
  {
    ParseFloatWholeIs(w, sign, d, rest, DecimalValue(d));
  }

  /** The template-literal text `${n}` of an integer. */
  function IntToString(n: int): (s: string)
  {
    if n < 0 then "-" + NatToString(-n) else NatToString(n)
  }

  /** `parseFloat` reads back the decimal text of any integer, negative
      ones included. */
  lemma ParseFloatOfIntToString(n: int)
    ensures ParseFloat(IntToString(n)) == Finite(n as real)
  {
    var m: nat := if n < 0 then -n else n;
    var d := NatToString(m);
    NatToStringValue(m);
    var sign := if n < 0 then "-" else "";
    assert IntToString(n) == "" + (sign + (d + ""));
    ParseFloatWhole("", sign, d, "");
  }

  /** A whole western longitude keeps its sign. */
  lemma ParseFloatWholeWesternLongitude()
    ensures ParseFloat("-74") == Finite(-74.0)
  {
    assert NatToString(74) == "74" by {
      assert NatToString(74) == NatToString(7) + [DigitChar(4)];
    }
    assert IntToString(-74) == "-74";
    ParseFloatOfIntToString(-74);
  }

  /** A plus sign, leading zeros and a trailing unit are skipped around
      the digits. */
  lemma ParseFloatPaddedWhole()
    ensures ParseFloat("+007km") == Finite(7.0)
  {
    var v := RadixValue("007", 10) as real;
    assert v == 7.0 by {
      assert "007"[..2] == "00" && "00"[..1] == "0" && "0"[..0] == "";
    }
    assert "+007km" == "" + ("+" + ("007" + "km"));
    ParseFloatWhole("", "+", "007", "km");
  }

  /** A latitude with a fraction reads as its value. */
  lemma ParseFloatLatitude()
    ensures ParseFloat("40.7128") == Finite(40.7128)
  {
    assert "40.7128" == "" + ("" + ("40" + (['.'] + ("7128" + ""))));
    ParseFloatDecimal("", "", "40", "7128", "");
    MantissaOfDigits("40", "7128", 40, 7128);
  }

  /** A western longitude keeps its sign. */
  lemma ParseFloatWesternLongitude()
    ensures ParseFloat("-74.0060") == Finite(-74.006)
  {
    assert "-74.0060" == "" + ("-" + ("74" + (['.'] + ("0060" + ""))));
    ParseFloatDecimal("", "-", "74", "0060", "");
    MantissaOfDigits("74", "0060", 74, 60);
  }

  /** The value of a two-digit whole part and a four-digit fraction. */
  lemma MantissaOfDigits(d: string, f: string, dv: nat, fv: nat)
    requires |d| == 2 && |f| == 4
    requires dv == DigitValue(d[0]) * 10 + DigitValue(d[1])
    requires fv == ((DigitValue(f[0]) * 10 + DigitValue(f[1])) * 10 + DigitValue(f[2])) * 10 + DigitValue(f[3])
    ensures Mantissa(d, f) == dv as real + fv as real / 10000.0
  {
    var d1 := d[..1];
    assert RadixValue(d1, 10) == DigitValue(d[0]) by {
      assert d1[..0] == [] && d1[0] == d[0];
    }
    assert RadixValue(d, 10) == RadixValue(d1, 10) * 10 + DigitValue(d[1]);
    var f1, f2, f3 := f[..1], f[..2], f[..3];
    assert RadixValue(f1, 10) == DigitValue(f[0]) by {
      assert f1[..0] == [] && f1[0] == f[0];
    }
    assert RadixValue(f2, 10) == RadixValue(f1, 10) * 10 + DigitValue(f[1]) by {
      assert f2[..1] == f1 && f2[1] == f[1];
    }
    assert RadixValue(f3, 10) == RadixValue(f2, 10) * 10 + DigitValue(f[2]) by {
      assert f3[..2] == f2 && f3[2] == f[2];
    }
    assert RadixValue(f, 10) == RadixValue(f3, 10) * 10 + DigitValue(f[3]);
    assert Pow10(4) == 10000.0 by {
      assert Pow10(1) == 10.0;
    }
  }

  /** Text with no digit and no `I` (so no `Infinity`) reads as NaN. */
  lemma ParseFloatWithoutDigits(s: string)
    requires forall i :: 0 <= i < |s| ==> !IsDecimalDigit(s[i]) && s[i] != 'I'
    ensures ParseFloat(s).NaN?
  {
    var t := TrimStart(s);
    assert forall i :: 0 <= i < |t| ==> t[i] == s[LeadingBlanks(s) + i];
    var u := if |t| > 0 && (t[0] == '+' || t[0] == '-') then t[1..] else t;
    assert forall i :: 0 <= i < |u| ==> !IsDecimalDigit(u[i]) && u[i] != 'I';
    assert !("Infinity" <= u) by {
      if |u| > 0 { assert u[0] != 'I'; }
    }
    var rest := u[|LeadingDigits(u, 10)|..];
    assert rest == u;
    if |rest| > 0 && rest[0] == '.' {
      assert LeadingDigits(rest[1..], 10) == [];
    }
  }

  /** The default texts of the coordinate and radius parameters read as 0
      and 10. */
  lemma ParseFloatLiterals()
    ensures ParseFloat("0") == Finite(0.0) && ParseFloat("10") == Finite(10.0)
  {
    assert NatToString(0) == "0";
    ParseFloatOfNatToString(0);
    assert NatToString(10) == "10" by {
      assert NatToString(10) == NatToString(1) + [DigitChar(0)];
    }
    ParseFloatOfNatToString(10);
  }
}
