/** Decimal text and numbers: Python's `str()` of an integer, and the part of
    Python's `float()` the instrument's replies use (an optional sign, decimal
    digits with an optional fraction, an optional exponent, surrounding
    whitespace ignored). Values are exact `real`s, not binary floating point. */
module Numbers {
  import opened Wrappers
  import opened Text

  predicate IsDigit(c: char) { '0' <= c <= '9' }

  predicate AllDigits(s: string) { forall j :: 0 <= j < |s| ==> IsDigit(s[j]) }

  function DigitValue(c: char): nat
    requires IsDigit(c)
  {
    c as int - '0' as int
  }

  function DigitChar(d: nat): char
    requires d < 10
  {
    ('0' as int + d) as char
  }

  /** The value of a string of decimal digits, most significant first. */
  function DigitsValue(s: string): nat
    requires AllDigits(s)
    decreases |s|
  {
    if s == [] then 0 else DigitsValue(s[..|s| - 1]) * 10 + DigitValue(s[|s| - 1])
  }

  function Pow10(n: nat): (p: nat)
    ensures p >= 1
  {
    if n == 0 then 1 else 10 * Pow10(n - 1)
  }

  /** Python's `str(n)` for a non-negative integer: its decimal digits, with no
      leading zero unless the number is zero. */
  function NatToString(n: nat): (r: string)
    ensures |r| > 0 && AllDigits(r)
    ensures r[0] == '0' ==> n == 0
  {
    if n < 10 then [DigitChar(n)] else NatToString(n / 10) + [DigitChar(n % 10)]
  }

  /** Python's `str(i)` for any integer. */
  function IntToString(i: int): (r: string)
    ensures |r| > 0 && (IsDigit(r[0]) || r[0] == '-')
    ensures forall j :: 0 < j < |r| ==> IsDigit(r[j])
    ensures IsDigit(r[|r| - 1])
  {
    if i < 0 then "-" + NatToString(-i) else NatToString(i)
  }

  /** The decimal digits of `n` read back give `n`. */
  lemma {:induction false} NatToStringValue(n: nat)
    ensures DigitsValue(NatToString(n)) == n
  {
    var r := NatToString(n);
    if n >= 10 {
      NatToStringValue(n / 10);
      assert r[..|r| - 1] == NatToString(n / 10);
    }
  }

  /** The whitespace that Python's `float()` ignores around a number. */
  const Whitespace: set<char> := {' ', '\t', '\n', '\r', '\U{B}', '\U{C}'}

  /** A number as decimal text writes it: `coefficient * 10^exponent`. */
  datatype Decimal = Decimal(coefficient: int, exponent: int)

  /** `d`, negated after a minus sign. */
  function Signed(negative: bool, d: Decimal): Decimal
  {
    if negative then Decimal(-d.coefficient, d.exponent) else d
  }

  /** The exact value of a decimal. */
  function Value(d: Decimal): real
  {
    if d.exponent >= 0 then d.coefficient as real * Pow10(d.exponent) as real
    else d.coefficient as real / Pow10(-d.exponent) as real
  }

  /** Digits with an optional decimal point: `12`, `12.`, `12.5`, `.5`; at least one digit. */
  function ParseMantissa(m: string): Option<Decimal>
  {
    var dot := IndexOf(m, '.');
    var whole := m[..dot];
    var fraction := if dot < |m| then m[dot + 1..] else "";
    if AllDigits(whole) && AllDigits(fraction) && |whole| + |fraction| > 0
    then Some(Decimal(DigitsValue(whole + fraction), -|fraction|))
    else None
  }

  /** An exponent after `e`/`E`: an optional sign and at least one digit. */
  function ParseExponent(x: string): Option<int>
  {
    var signed := |x| > 0 && (x[0] == '+' || x[0] == '-');
    var digits := if signed then x[1..] else x;
    if |digits| > 0 && AllDigits(digits)
    then var v: int := DigitsValue(digits); Some(if signed && x[0] == '-' then -v else v)
    else None
  }

  /** Position of the first `e` or `E`, or `|s|`. */
  function ExponentMark(s: string): (k: nat)
    ensures k <= |s|
  {
    var lower := IndexOf(s, 'e');
    var upper := IndexOf(s, 'E');
    if lower <= upper then lower else upper
  }

  /** A number without its sign: a mantissa and an optional exponent. */
  function ParseUnsigned(body: string): Option<Decimal>
  {
    var e := ExponentMark(body);
    match ParseMantissa(body[..e])
    case None => None
    case Some(m) =>
      if e == |body| then Some(m)
      else
        match ParseExponent(body[e + 1..])
        case None => None
        case Some(x) => Some(Decimal(m.coefficient, m.exponent + x))
  }

  /** The decimal that Python's `float(s)` reads, restricted to decimal
      notation; `None` is the `ValueError` Python raises for text that is not
      a number. */
  function ParseDecimal(s: string): Option<Decimal>
  {
    var t := Strip(s, Whitespace);
    if |t| > 0 && (t[0] == '+' || t[0] == '-') then
      match ParseUnsigned(t[1..])
      case None => None
      case Some(m) => Some(Signed(t[0] == '-', m))
    else ParseUnsigned(t)
  }

  /** Python's `float(s)`, with an exact value. */
  function ParseNumber(s: string): Option<real>
  {
    match ParseDecimal(s)
    case None => None
    case Some(d) => Some(Value(d))
  }

  /** A plain run of digits is a mantissa without a fraction. */
  lemma DigitsMantissa(d: string)
    requires |d| > 0 && AllDigits(d)
    ensures ParseMantissa(d) == Some(Decimal(DigitsValue(d), 0))
  {
    var dot := IndexOf(d, '.');
    assert dot == |d|;
    var whole := d[..dot];
    assert whole == d;
    assert whole + "" == d;
  }

  /** A plain run of digits is an unsigned number without fraction or exponent. */
  lemma DigitsUnsigned(d: string)
    requires |d| > 0 && AllDigits(d)
    ensures ParseUnsigned(d) == Some(Decimal(DigitsValue(d), 0))
  {
    assert IndexOf(d, 'e') == |d| && IndexOf(d, 'E') == |d|;
    assert d[..|d|] == d;
    DigitsMantissa(d);
  }

  /** Decimal text of an integer has no whitespace around it to strip. */
  lemma IntegerTextClean(s: string)
    requires |s| > 0 && IsDigit(s[|s| - 1]) && (IsDigit(s[0]) || s[0] == '-')
    ensures Strip(s, Whitespace) == s
  {
    StripClean(s, Whitespace);
  }

  /** A run of digits, optionally preceded by `-`, reads as its value. */
  lemma SignedDigits(s: string, d: string, negative: bool)
    requires |d| > 0 && AllDigits(d)
    requires s == if negative then "-" + d else d
    requires Strip(s, Whitespace) == s
    ensures ParseDecimal(s) == Some(Signed(negative, Decimal(DigitsValue(d), 0)))
  {
    DigitsUnsigned(d);
    if negative {
      assert s[1..] == d;
    } else {
      assert IsDigit(s[0]);
    }
  }

  /** Every number Python's `str()` prints for an integer reads back as that
      integer. */
  lemma ParseIntToString(i: int)
    ensures ParseNumber(IntToString(i)) == Some(i as real)
  {
    var n: nat := if i < 0 then -i else i;
    ParseIntAt(i, n);
  }

  lemma ParseIntAt(i: int, n: nat)
    requires n == if i < 0 then -i else i
    ensures ParseNumber(IntToString(i)) == Some(i as real)
  {
    var s := IntToString(i);
    NatToStringValue(n);
    IntegerTextClean(s);
    SignedDigits(s, NatToString(n), i < 0);
    SignedWhole(i, n);
    NumberOf(s, Decimal(i, 0));
  }

  lemma SignedWhole(i: int, n: nat)
    requires n == if i < 0 then -i else i
    ensures Signed(i < 0, Decimal(n, 0)) == Decimal(i, 0) && Value(Decimal(i, 0)) == i as real
  {
  }

  /** Appending digits shifts the value of the first ones left by the number
      of digits appended. */
  lemma {:induction false} DigitsValueAppend(a: string, b: string)
    requires AllDigits(a) && AllDigits(b)
    ensures AllDigits(a + b)
    ensures DigitsValue(a + b) == DigitsValue(a) * Pow10(|b|) + DigitsValue(b)
    decreases |b|
  {
    if b == [] {
      assert a + b == a;
    } else {
      var init := b[..|b| - 1];
      var d := DigitValue(b[|b| - 1]);
      assert (a + b)[..|a + b| - 1] == a + init;
      DigitsValueAppend(a, init);
      assert b[..|b| - 1] == init;
      ShiftStep(DigitsValue(a), Pow10(|init|), DigitsValue(init), d);
    }
  }

  lemma ShiftStep(x: int, p: int, y: int, d: int)
    ensures (x * p + y) * 10 + d == x * (10 * p) + (y * 10 + d)
  {
  }

  /** Decimal text with a fraction, as an instrument prints a time base or a
      measurement: an optional minus sign, the integer part as `str()` prints
      it, a point, the fraction digits and, optionally, `E` and the exponent
      as `str()` prints it. */
  function FractionText(negative: bool, whole: nat, fraction: string, exponent: Option<int>): string
  {
    var body := NatToString(whole) + "." + fraction + ExponentPart(ExponentDigits(exponent));
    if negative then "-" + body else body
  }

  /** The exponent as `str()` prints it, if there is one. */
  function ExponentDigits(exponent: Option<int>): Option<string>
  {
    match exponent
    case None => None
    case Some(x) => Some(IntToString(x))
  }

  /** The text of an exponent: `E` and the exponent's own text, if any. */
  function ExponentPart(x: Option<string>): string
  {
    match x
    case None => ""
    case Some(t) => "E" + t
  }

  /** The position of the only occurrence of `c`, or `|s|` without one. */
  lemma IndexOfAt(s: string, c: char, k: nat)
    requires k <= |s| && (forall j :: 0 <= j < k ==> s[j] != c) && (k < |s| ==> s[k] == c)
    ensures IndexOf(s, c) == k
  {
  }

  /** The exponent `str()` prints reads back as itself. */
  lemma ParseExponentInt(x: int)
    ensures ParseExponent(IntToString(x)) == Some(x)
  {
    var n: nat := if x < 0 then -x else x;
    NatToStringValue(n);
    var t := IntToString(x);
    if x < 0 {
      assert t[1..] == NatToString(n);
    }
  }

  /** The digits of an integer part followed by fraction digits: the integer
      part shifted left by the fraction digits, plus the fraction digits. */
  lemma FractionDigits(whole: nat, fraction: string)
    requires AllDigits(fraction)
    ensures AllDigits(NatToString(whole) + fraction)
    ensures DigitsValue(NatToString(whole) + fraction) == whole * Pow10(|fraction|) + DigitsValue(fraction)
  {
    DigitsValueAppend(NatToString(whole), fraction);
    NatToStringValue(whole);
  }

  lemma AllDigitsAppend(a: string, b: string)
    requires AllDigits(a) && AllDigits(b)
    ensures AllDigits(a + b)
  {
    assert forall j :: 0 <= j < |a + b| ==> (a + b)[j] == if j < |a| then a[j] else b[j - |a|];
  }

  /** Digits, a point and fraction digits form a mantissa whose digits are
      those of both parts. */
  lemma ParseMantissaFraction(w: string, fraction: string)
    requires AllDigits(w) && AllDigits(fraction) && |w| > 0
    ensures AllDigits(w + fraction)
    ensures ParseMantissa(w + "." + fraction) == Some(Decimal(DigitsValue(w + fraction), -|fraction|))
  {
    var m := w + "." + fraction;
    IndexOfAt(m, '.', |w|);
    assert m[..|w|] == w && m[|w| + 1..] == fraction;
    AllDigitsAppend(w, fraction);
  }

  /** Digits, a point and fraction digits: the mantissa alone. */
  lemma ParseUnsignedPlain(w: string, fraction: string, mantissa: Decimal)
    requires AllDigits(w) && AllDigits(fraction)
    requires ParseMantissa(w + "." + fraction) == Some(mantissa)
    ensures ParseUnsigned(w + "." + fraction) == Some(mantissa)
  {
    MarkAfterMantissa(w, fraction, None);
    assert w + "." + fraction + ExponentPart(None) == w + "." + fraction;
    UnsignedAt(w + "." + fraction, mantissa);
  }

  /** Digits, a point, fraction digits, `E` and an exponent: the mantissa
      scaled by the exponent. */
  lemma ParseUnsignedScaled(w: string, fraction: string, t: string, c: int, e: int, v: int, scale: int)
    requires AllDigits(w) && AllDigits(fraction)
    requires forall j :: 0 <= j < |t| ==> IsDigit(t[j]) || t[j] == '-'
    requires ParseExponent(t) == Some(v)
    requires ParseMantissa(w + "." + fraction) == Some(Decimal(c, e)) && scale == e + v
    ensures ParseUnsigned(w + "." + fraction + "E" + t) == Some(Decimal(c, scale))
  {
    var m := w + "." + fraction;
    MarkAfterMantissa(w, fraction, Some(t));
    assert w + "." + fraction + ExponentPart(Some(t)) == m + "E" + t;
    UnsignedExponent(m, t, c, e, v, scale);
  }

  /** ParseUnsigned of a mantissa with no exponent. */
  lemma UnsignedAt(m: string, mantissa: Decimal)
    requires ExponentMark(m) == |m| && ParseMantissa(m) == Some(mantissa)
    ensures ParseUnsigned(m) == Some(mantissa)
  {
    assert m[..|m|] == m;
  }

  /** ParseUnsigned of a mantissa, `E` and an exponent. */
  lemma UnsignedExponent(m: string, t: string, c: int, e: int, v: int, scale: int)
    requires ExponentMark(m + "E" + t) == |m| && ParseMantissa(m) == Some(Decimal(c, e)) && ParseExponent(t) == Some(v)
    requires scale == e + v
    ensures ParseUnsigned(m + "E" + t) == Some(Decimal(c, scale))
  {
    SplitAtMark(m, t);
  }

  lemma SplitAtMark(m: string, t: string)
    ensures (m + "E" + t)[..|m|] == m && (m + "E" + t)[|m| + 1..] == t
  {
    var body := m + "E" + t;
    assert body[..|m|] == m;
    assert body[|m| + 1..] == t;
  }

  /** The exponent mark of such a text is the `E` after the fraction. */
  lemma MarkAfterMantissa(w: string, fraction: string, x: Option<string>)
    requires AllDigits(w) && AllDigits(fraction)
    requires x.Some? ==> forall j :: 0 <= j < |x.value| ==> IsDigit(x.value[j]) || x.value[j] == '-'
    ensures ExponentMark(w + "." + fraction + ExponentPart(x)) == |w| + 1 + |fraction|
  {
    var m := w + "." + fraction;
    var body := m + ExponentPart(x);
    forall j | 0 <= j < |body| ensures body[j] != 'e' && (j < |m| ==> body[j] != 'E') {
      if j < |w| {
        assert body[j] == w[j];
      } else if j == |w| {
        assert body[j] == '.';
      } else if j < |m| {
        assert body[j] == fraction[j - |w| - 1];
      } else if j > |m| {
        assert body[j] == x.value[j - |m| - 1];
      }
    }
    IndexOfAt(body, 'e', |body|);
    IndexOfAt(body, 'E', |m|);
  }

  /** Digits, a point and fraction digits, with or without a minus sign in
      front: no whitespace to strip, and without the sign a number whose
      digits are those of both parts, less one exponent per fraction digit. */
  lemma PlainBody(negative: bool, w: string, fraction: string, scale: int)
    requires |w| > 0 && AllDigits(w) && |fraction| > 0 && AllDigits(fraction)
    requires scale == -|fraction|
    ensures AllDigits(w + fraction) && IsDigit((w + "." + fraction)[0])
    ensures ParseUnsigned(w + "." + fraction) == Some(Decimal(DigitsValue(w + fraction), scale))
    ensures var body := w + "." + fraction;
            var s := if negative then "-" + body else body;
            Strip(s, Whitespace) == s
  {
    var mantissa := Decimal(DigitsValue(w + fraction), scale);
    ParseMantissaAt(w, fraction, mantissa);
    ParseUnsignedPlain(w, fraction, mantissa);
    PlainClean(negative, w, fraction);
  }

  lemma ParseMantissaAt(w: string, fraction: string, mantissa: Decimal)
    requires AllDigits(w) && AllDigits(fraction) && |w| > 0
    requires AllDigits(w + fraction) && mantissa == Decimal(DigitsValue(w + fraction), -|fraction|)
    ensures ParseMantissa(w + "." + fraction) == Some(mantissa)
  {
    ParseMantissaFraction(w, fraction);
  }

  lemma PlainClean(negative: bool, w: string, fraction: string)
    requires |w| > 0 && AllDigits(w) && |fraction| > 0 && AllDigits(fraction)
    ensures AllDigits(w + fraction) && IsDigit((w + "." + fraction)[0])
    ensures var body := w + "." + fraction;
            var s := if negative then "-" + body else body;
            Strip(s, Whitespace) == s
  {
    AllDigitsAppend(w, fraction);
    var body := w + "." + fraction;
    var s := if negative then "-" + body else body;
    assert s[|s| - 1] == fraction[|fraction| - 1];
    IntegerTextClean(s);
  }

  /** PlainBody followed by `E` and an exponent text of signs and digits
      that reads as `v`: the exponent is added to the mantissa's. */
  lemma ScaledBody(negative: bool, w: string, fraction: string, t: string, v: int, scale: int)
    requires |w| > 0 && AllDigits(w) && |fraction| > 0 && AllDigits(fraction)
    requires |t| > 0 && IsDigit(t[|t| - 1])
    requires forall j :: 0 <= j < |t| ==> IsDigit(t[j]) || t[j] == '-'
    requires ParseExponent(t) == Some(v) && scale == v - |fraction|
    ensures AllDigits(w + fraction) && IsDigit((w + "." + fraction + "E" + t)[0])
    ensures ParseUnsigned(w + "." + fraction + "E" + t) == Some(Decimal(DigitsValue(w + fraction), scale))
    ensures var body := w + "." + fraction + "E" + t;
            var s := if negative then "-" + body else body;
            Strip(s, Whitespace) == s
  {
    var body := w + "." + fraction + "E" + t;
    var s := if negative then "-" + body else body;
    ParseMantissaFraction(w, fraction);
    ParseUnsignedScaled(w, fraction, t, DigitsValue(w + fraction), -|fraction|, v, scale);
    assert s[|s| - 1] == t[|t| - 1];
    IntegerTextClean(s);
  }

  /** An unsigned number with no whitespace around it, with or without a
      minus sign in front, reads as that number, negated after the sign. */
  lemma SignedBody(negative: bool, body: string, d: Decimal)
    requires |body| > 0 && IsDigit(body[0])
    requires ParseUnsigned(body) == Some(d)
    requires Strip(if negative then "-" + body else body, Whitespace) == (if negative then "-" + body else body)
    ensures ParseDecimal(if negative then "-" + body else body) == Some(Signed(negative, d))
  {
    if negative {
      assert ("-" + body)[1..] == body;
    } else {
      assert IsDigit(body[0]);
    }
  }

  /** Decimal text with a fraction and no exponent reads as the digits of
      both parts, less one exponent per fraction digit, negated after a
      minus sign. */
  lemma PlainFraction(negative: bool, whole: nat, fraction: string, e: int)
    requires |fraction| > 0 && AllDigits(fraction) && e == -|fraction|
    ensures AllDigits(NatToString(whole) + fraction)
    ensures ParseDecimal(FractionText(negative, whole, fraction, None)) ==
              Some(Signed(negative, Decimal(DigitsValue(NatToString(whole) + fraction), e)))
  {
    var w := NatToString(whole);
    NatToStringValue(whole);
    var body := w + "." + fraction;
    assert FractionText(negative, whole, fraction, None) == (if negative then "-" + body else body);
    PlainBody(negative, w, fraction, e);
    SignedBody(negative, body, Decimal(DigitsValue(w + fraction), e));
  }

  /** Decimal text with a fraction and the exponent `v` reads as the digits
      of both parts, scaled by `e`, which is `v` less the number of fraction
      digits, and negated after a minus sign. */
  lemma ScaledFraction(negative: bool, whole: nat, fraction: string, v: int, e: int)
    requires |fraction| > 0 && AllDigits(fraction) && e == v - |fraction|
    ensures AllDigits(NatToString(whole) + fraction)
    ensures ParseDecimal(FractionText(negative, whole, fraction, Some(v))) ==
              Some(Signed(negative, Decimal(DigitsValue(NatToString(whole) + fraction), e)))
  {
    var w := NatToString(whole);
    var t := IntToString(v);
    ScaledText(negative, whole, fraction, v);
    ScaledBodyAt(negative, w, fraction, v, t, e);
    SignedBody(negative, w + "." + fraction + "E" + t, Decimal(DigitsValue(w + fraction), e));
  }

  lemma ScaledText(negative: bool, whole: nat, fraction: string, v: int)
    ensures var body := NatToString(whole) + "." + fraction + "E" + IntToString(v);
            FractionText(negative, whole, fraction, Some(v)) == (if negative then "-" + body else body)
  {
  }

  lemma ScaledBodyAt(negative: bool, w: string, fraction: string, v: int, t: string, e: int)
    requires |w| > 0 && AllDigits(w) && |fraction| > 0 && AllDigits(fraction)
    requires t == IntToString(v) && e == v - |fraction|
    ensures AllDigits(w + fraction) && IsDigit((w + "." + fraction + "E" + t)[0])
    ensures ParseUnsigned(w + "." + fraction + "E" + t) == Some(Decimal(DigitsValue(w + fraction), e))
    ensures var body := w + "." + fraction + "E" + t;
            var s := if negative then "-" + body else body;
            Strip(s, Whitespace) == s
  {
    ExponentText(v);
    ParseExponentInt(v);
    ScaledBody(negative, w, fraction, t, v, e);
  }

  /** The text `str()` prints for an integer: digits after an optional
      minus sign, ending in a digit. */
  lemma ExponentText(v: int)
    ensures var t := IntToString(v);
            |t| > 0 && IsDigit(t[|t| - 1]) && forall j :: 0 <= j < |t| ==> IsDigit(t[j]) || t[j] == '-'
  {
    var n: nat := if v < 0 then -v else v;
    NatToStringValue(n);
    var t := IntToString(v);
    if v < 0 {
      assert forall j :: 1 <= j < |t| ==> t[j] == NatToString(n)[j - 1];
    }
  }

  /** Python's `float()` of decimal text with a fraction and no exponent is
      the value of the decimal PlainFraction reads. */
  lemma ParseFraction(negative: bool, whole: nat, fraction: string, e: int)
    requires |fraction| > 0 && AllDigits(fraction) && e == -|fraction|
    ensures AllDigits(NatToString(whole) + fraction)
    ensures ParseNumber(FractionText(negative, whole, fraction, None)) ==
              Some(Value(Signed(negative, Decimal(DigitsValue(NatToString(whole) + fraction), e))))
  {
    PlainFraction(negative, whole, fraction, e);
    NumberOf(FractionText(negative, whole, fraction, None), Signed(negative, Decimal(DigitsValue(NatToString(whole) + fraction), e)));
  }

  /** Python's `float()` of decimal text with a fraction and the exponent
      `v` is the value of the decimal ScaledFraction reads. */
  lemma ParseScaledFraction(negative: bool, whole: nat, fraction: string, v: int, e: int)
    requires |fraction| > 0 && AllDigits(fraction) && e == v - |fraction|
    ensures AllDigits(NatToString(whole) + fraction)
    ensures ParseNumber(FractionText(negative, whole, fraction, Some(v))) ==
              Some(Value(Signed(negative, Decimal(DigitsValue(NatToString(whole) + fraction), e))))
  {
    ScaledFraction(negative, whole, fraction, v, e);
    NumberOf(FractionText(negative, whole, fraction, Some(v)), Signed(negative, Decimal(DigitsValue(NatToString(whole) + fraction), e)));
  }

  /** The number a text reads as is the value of the decimal it reads as. */
  lemma NumberOf(s: string, d: Decimal)
    requires ParseDecimal(s) == Some(d)
    ensures ParseNumber(s) == Some(Value(d))
  {
  }

  /** The value of the digits of an integer part and a fraction, less one
      exponent per fraction digit: the integer part plus the fraction digits
      over their power of ten, negated after a minus sign. */
  lemma FractionValue(negative: bool, whole: nat, fraction: string, e: int)
    requires AllDigits(fraction) && e == -|fraction|
    ensures AllDigits(NatToString(whole) + fraction)
    ensures var sign := if negative then -1.0 else 1.0;
            Value(Signed(negative, Decimal(DigitsValue(NatToString(whole) + fraction), e))) ==
              sign * (whole as real + DigitsValue(fraction) as real / Pow10(|fraction|) as real)
  {
    FractionDigits(whole, fraction);
    ShiftedValue(negative, whole, DigitsValue(fraction), |fraction|, DigitsValue(NatToString(whole) + fraction), e);
  }

  lemma ShiftedValue(negative: bool, whole: nat, digits: nat, k: nat, c: int, e: int)
    requires c == whole * Pow10(k) + digits && e == -(k as int)
    ensures var sign := if negative then -1.0 else 1.0;
            Value(Signed(negative, Decimal(c, e))) == sign * (whole as real + digits as real / Pow10(k) as real)
  {
    ScaledDown(c, k, e);
    ScaledDown(-c, k, e);
    SplitQuotient(whole, digits, Pow10(k), c);
  }

  lemma ScaledDown(c: int, k: nat, e: int)
    requires e == -(k as int)
    ensures Value(Decimal(c, e)) == c as real / Pow10(k) as real
  {
    if k == 0 {
      assert Pow10(k) == 1;
    }
  }

  lemma SplitQuotient(whole: nat, digits: nat, p: nat, c: int)
    requires p >= 1 && c == whole * p + digits
    ensures c as real / p as real == whole as real + digits as real / p as real
    ensures (-c) as real / p as real == -1.0 * (whole as real + digits as real / p as real)
  {
    assert c as real == whole as real * p as real + digits as real;
  }

  /** Text with a fraction and no exponent whose parts add up to `r` reads
      as `r`. */
  lemma PlainInstance(negative: bool, whole: nat, fraction: string, e: int, text: string, r: real)
    requires |fraction| > 0 && AllDigits(fraction) && e == -|fraction|
    requires FractionText(negative, whole, fraction, None) == text
    requires (if negative then -1.0 else 1.0) * (whole as real + DigitsValue(fraction) as real / Pow10(|fraction|) as real) == r
    ensures ParseNumber(text) == Some(r)
  {
    ParseFraction(negative, whole, fraction, e);
    FractionValue(negative, whole, fraction, e);
    var d := Signed(negative, Decimal(DigitsValue(NatToString(whole) + fraction), e));
    assert Value(d) == r;
  }

  /** Text with a fraction and an exponent whose decimal has the value `r`
      reads as `r`. */
  lemma ScaledInstance(negative: bool, whole: nat, fraction: string, v: int, e: int, text: string, c: int, r: real)
    requires |fraction| > 0 && AllDigits(fraction) && e == v - |fraction|
    requires FractionText(negative, whole, fraction, Some(v)) == text
    requires DigitsValue(NatToString(whole) + fraction) == c
    requires Value(Signed(negative, Decimal(c, e))) == r
    ensures ParseNumber(text) == Some(r)
  {
    ParseScaledFraction(negative, whole, fraction, v, e);
  }

  /** The time base `1.0` a TDIV? reply gives reads as one second. */
  lemma ParseOnePointZero()
    ensures ParseNumber("1.0") == Some(1.0)
  {
    assert FractionText(false, 1, "0", None) == "1.0" by {
      assert NatToString(1) == "1";
    }
    assert DigitsValue("0") == 0;
    PlainInstance(false, 1, "0", -1, "1.0", 1.0);
  }

  /** The reading `3.5` reads as three and a half. */
  lemma ParseThreePointFive()
    ensures ParseNumber("3.5") == Some(3.5)
  {
    assert FractionText(false, 3, "5", None) == "3.5" by {
      assert NatToString(3) == "3";
    }
    assert DigitsValue("5") == 5 && Pow10(1) == 10;
    PlainInstance(false, 3, "5", -1, "3.5", 3.5);
  }

  /** The time base `2.5E-3` reads as 2.5 milliseconds. */
  lemma ParseScaledExample()
    ensures ParseNumber("2.5E-3") == Some(0.0025)
  {
    assert FractionText(false, 2, "5", Some(-3)) == "2.5E-3" by {
      assert NatToString(2) == "2" && IntToString(-3) == "-3";
    }
    assert NatToString(2) + "5" == "25";
    assert DigitsValue("25") == 25 by {
      assert "25"[..1] == "2";
    }
    assert Value(Signed(false, Decimal(25, -4))) == 0.0025 by {
      assert Pow10(4) == 10000;
    }
    ScaledInstance(false, 2, "5", -3, -4, "2.5E-3", 25, 0.0025);
  }

  /** A text with no digit in it is never a number: in particular the empty
      field of a malformed list fails. */
  lemma NoDigitNoNumber(s: string)
    requires forall j :: 0 <= j < |s| ==> !IsDigit(s[j])
    ensures ParseDecimal(s) == None && ParseNumber(s) == None
  {
    var t := Strip(s, Whitespace);
    StripSlice(s, Whitespace);
    var i := |s| - |StripLeft(s, Whitespace)|;
    assert forall j :: 0 <= j < |t| ==> t[j] == s[i + j];
    var signed := |t| > 0 && (t[0] == '+' || t[0] == '-');
    var body := if signed then t[1..] else t;
    assert forall j :: 0 <= j < |body| ==> !IsDigit(body[j]) by {
      forall j | 0 <= j < |body| ensures !IsDigit(body[j]) {
        if signed { assert body[j] == t[j + 1]; }
      }
    }
    NoDigitNoUnsigned(body);
  }

  lemma NoDigitNoUnsigned(body: string)
    requires forall j :: 0 <= j < |body| ==> !IsDigit(body[j])
    ensures ParseUnsigned(body) == None
  {
    var m := body[..ExponentMark(body)];
    assert forall j :: 0 <= j < |m| ==> !IsDigit(m[j]);
    var dot := IndexOf(m, '.');
    if dot < |m| {
      var fraction := m[dot + 1..];
      assert |fraction| > 0 ==> !IsDigit(fraction[0]);
    }
  }
}
