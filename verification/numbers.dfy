/** The optional value used throughout the model. */
module Options {
  datatype Option<+T> = None | Some(value: T)
}

/**
  Decimal numerals as the parser reads them from literal tokens: Rust's
  `str::parse` for `i32` and `usize` on a signed digit string, and `f32` on a
  literal of the shape the lexer produces, computed exactly (no rounding).
 */
module Numbers {
  import opened Options

  predicate IsDigit(c: char) {
    '0' <= c <= '9'
  }

  predicate AllDigits(s: string) {
    forall i :: 0 <= i < |s| ==> IsDigit(s[i])
  }

  function DigitValue(c: char): nat
    requires IsDigit(c)
  {
    (c as int) - ('0' as int)
  }

  function DigitChar(d: nat): (c: char)
    requires d < 10
    ensures IsDigit(c) && DigitValue(c) == d
  {
    ('0' as int + d) as char
  }

  /** The value of a string of decimal digits, most significant first. */
  function DigitsValue(s: string): nat
    requires AllDigits(s)
  {
    if s == [] then 0 else DigitsValue(s[..|s| - 1]) * 10 + DigitValue(s[|s| - 1])
  }

  function Pow10(n: nat): (p: nat)
    ensures p > 0
  {
    if n == 0 then 1 else 10 * Pow10(n - 1)
  }

  /** A digit string has a value below ten to the power of its length. */
  lemma {:induction false} DigitsValueBound(s: string)
    requires AllDigits(s)
    ensures DigitsValue(s) < Pow10(|s|)
  {
    if s != [] {
      DigitsValueBound(s[..|s| - 1]);
    }
  }

  /** The shortest decimal numeral of `n`. */
  function Decimal(n: nat): (s: string)
    ensures AllDigits(s) && 0 < |s|
  {
    if n < 10 then [DigitChar(n)] else Decimal(n / 10) + [DigitChar(n % 10)]
  }

  /** Reading back a rendered numeral gives the number. */
  lemma {:induction false} DecimalValue(n: nat)
    ensures DigitsValue(Decimal(n)) == n
  {
    var s := Decimal(n);
    if n >= 10 {
      assert s[..|s| - 1] == Decimal(n / 10);
      DecimalValue(n / 10);
    }
  }

  const I32_MIN: int := -0x8000_0000
  const I32_MAX: int := 0x7fff_ffff
  const USIZE_MAX: int := 0xffff_ffff_ffff_ffff

  /**
    The value of an optional `+` or `-` followed by one or more digits, as
    Rust's integer `from_str` reads it before the range check; `None` for
    any other string.
   */
  function ParseSigned(s: string): (r: Option<int>)
    ensures r.Some? <==> (0 < |s| && AllDigits(s)) || (1 < |s| && s[0] in "+-" && AllDigits(s[1..]))
  {
    if 1 < |s| && s[0] == '-' && AllDigits(s[1..]) then Some(-(DigitsValue(s[1..]) as int))
    else if 1 < |s| && s[0] == '+' && AllDigits(s[1..]) then Some(DigitsValue(s[1..]))
    else if 0 < |s| && AllDigits(s) then Some(DigitsValue(s))
    else None
  }

  /** `slice.parse::<i32>()`: a signed numeral within the 32-bit range. */
  function ParseI32(s: string): (r: Option<int>)
    ensures r.Some? ==> I32_MIN <= r.value <= I32_MAX && ParseSigned(s) == r
    ensures ParseSigned(s).Some? && I32_MIN <= ParseSigned(s).value <= I32_MAX ==> r.Some?
  {
    match ParseSigned(s)
    case Some(v) => if I32_MIN <= v <= I32_MAX then Some(v) else None
    case None => None
  }

  /** `slice.parse::<usize>()` on a 64-bit target: no minus sign, within range. */
  function ParseUsize(s: string): (r: Option<nat>)
    ensures r.Some? ==> r.value <= USIZE_MAX && ParseSigned(s) == Some(r.value as int)
    ensures 0 < |s| && s[0] == '-' ==> r.None?
    ensures !(0 < |s| && s[0] == '-') && ParseSigned(s).Some? && ParseSigned(s).value <= USIZE_MAX ==> r.Some?
  {
    if 0 < |s| && s[0] == '-' then None
    else match ParseSigned(s)
      case Some(v) => if 0 <= v <= USIZE_MAX then Some(v) else None
      case None => None
  }

  /** Rust's integer readers accept a `+` sign and leading zeros; only the signed one accepts `-0`. */
  lemma NonCanonicalNumerals()
    ensures ParseI32("+7") == Some(7) && ParseI32("007") == Some(7) && ParseI32("-0") == Some(0)
    ensures ParseUsize("+7") == Some(7) && ParseUsize("007") == Some(7) && ParseUsize("-0") == None
  {
    assert DigitsValue("7") == 7 by {
      assert "7"[..0] == [];
    }
    assert DigitsValue("00") == 0 by {
      assert "00"[..1] == "0";
      assert "0"[..0] == [];
    }
    assert "007"[..2] == "00" && "+7"[1..] == "7";
  }

  /** The signed decimal numeral of an integer. */
  function SignedDecimal(v: int): string {
    if v < 0 then "-" + Decimal(-v) else Decimal(v)
  }

  /** Every integer in the 32-bit range survives rendering and `parse::<i32>()`. */
  lemma ParseI32RoundTrip(v: int)
    requires I32_MIN <= v <= I32_MAX
    ensures ParseI32(SignedDecimal(v)) == Some(v)
  {
    if v < 0 {
      var s := SignedDecimal(v);
      assert s[1..] == Decimal(-v);
      DecimalValue(-v);
    } else {
      DecimalValue(v);
    }
  }

  /** Every 64-bit count survives rendering and `parse::<usize>()`. */
  lemma ParseUsizeRoundTrip(n: nat)
    requires n <= USIZE_MAX
    ensures ParseUsize(Decimal(n)) == Some(n)
  {
    DecimalValue(n);
  }

  /** The value of the digits after a decimal point: `DigitsValue(f) / 10^|f|`. */
  function Fraction(f: string): real
    requires AllDigits(f)
  {
    DigitsValue(f) as real / Pow10(|f|) as real
  }

  /**
    The exact value of a float literal as the lexer shapes it: an optional
    sign, digits, and optionally a point followed by at least one digit, with
    at least one digit before the point when there is no point.  Rust's
    `f32` parser accepts more forms ("1.", "1e5", "inf"), none of which the
    lexer produces as a float literal.
   */
  function ParseFloat(s: string): Option<real> {
    if 0 < |s| && s[0] == '-' then
      match Magnitude(s[1..])
      case Some(m) => Some(-m)
      case None => None
    else if 0 < |s| && s[0] == '+' then Magnitude(s[1..])
    else Magnitude(s)
  }

  /** The unsigned part of a float literal: digits, or digits, a point and at least one digit. */
  function Magnitude(body: string): Option<real> {
    if 0 < |body| && AllDigits(body) then Some(DigitsValue(body) as real)
    else
      var dot := PointIndex(body);
      if dot + 1 < |body| && AllDigits(body[..dot]) && AllDigits(body[dot + 1..])
      then Some(DigitsValue(body[..dot]) as real + Fraction(body[dot + 1..]))
      else None
  }

  /** The index of the first `.` in `s`, or `|s|` when there is none. */
  function PointIndex(s: string): (i: nat)
    ensures i <= |s|
    ensures forall k :: 0 <= k < i ==> s[k] != '.'
    ensures i < |s| ==> s[i] == '.'
  {
    if s == [] then 0 else if s[0] == '.' then 0 else 1 + PointIndex(s[1..])
  }

  /** A float literal with a fractional part reads as its integer part plus the fraction. */
  lemma ParseFloatPointed(sign: string, i: string, f: string)
    requires sign in ["", "+", "-"]
    requires AllDigits(i) && AllDigits(f) && 0 < |f|
    ensures var m := DigitsValue(i) as real + Fraction(f);
      ParseFloat(sign + (i + "." + f)) == Some(if sign == "-" then -m else m)
  {
    var body := i + "." + f;
    MagnitudePointed(i, f);
    PointedUnsigned(i, f);
    ParseFloatSign(sign, body);
  }

  /** A pointed literal without its sign starts with a digit or the point. */
  lemma PointedUnsigned(i: string, f: string)
    requires AllDigits(i)
    ensures var body := i + "." + f; 0 < |body| && body[0] != '-' && body[0] != '+'
  {
    var body := i + "." + f;
    if |i| > 0 {
      assert body[0] == i[0];
    } else {
      assert body[0] == '.';
    }
  }

  /** The sign of a float literal applies to its magnitude. */
  lemma ParseFloatSign(sign: string, body: string)
    requires sign in ["", "+", "-"]
    requires 0 < |body| && body[0] != '-' && body[0] != '+'
    ensures ParseFloat(sign + body)
         == match Magnitude(body) case Some(m) => Some(if sign == "-" then -m else m) case None => None
  {
    if sign == "" {
      assert sign + body == body;
    } else {
      assert (sign + body)[1..] == body;
    }
  }

  lemma MagnitudePointed(i: string, f: string)
    requires AllDigits(i) && AllDigits(f) && 0 < |f|
    ensures Magnitude(i + "." + f) == Some(DigitsValue(i) as real + Fraction(f))
  {
    var body := i + "." + f;
    assert !AllDigits(body) by {
      assert body[|i|] == '.';
    }
    PointIndexAt(i, f);
    assert body[..|i|] == i;
    assert body[|i| + 1..] == f;
  }

  lemma PointIndexAt(i: string, f: string)
    requires AllDigits(i)
    ensures PointIndex(i + "." + f) == |i|
  {
    var s := i + "." + f;
    assert forall j :: 0 <= j < |i| ==> s[j] == i[j];
    assert s[|i|] == '.';
  }

  /** On a whole numeral, the float reading agrees with the integer reading. */
  lemma ParseFloatWhole(s: string)
    requires ParseSigned(s).Some?
    ensures ParseFloat(s) == Some(ParseSigned(s).value as real)
  {
    if s[0] in "+-" {
      assert !IsDigit(s[0]);
    }
  }
}
