/**
 * Exact decimal numbers and Python's `float(...)` for plain decimal numerals.
 *
 * A `Dec` is sign, magnitude and scale: `Dec(neg, mant, scale)` stands for
 * (-1 if neg) * mant / 10^scale. Text such as "2.50" parses to exactly
 * 2.5; binary floating point rounding is not modelled.
 */
module Numbers {
  import opened Wrappers
  import opened Text

  datatype Dec = Dec(neg: bool, mant: nat, scale: nat)

  const Zero := Dec(false, 0, 0)

  /** The one representation of a value: no trailing fractional zero, and zero is unsigned. */
  predicate Canonical(d: Dec) {
    (d.scale == 0 || d.mant % 10 != 0) && (d.mant == 0 ==> !d.neg)
  }

  function ToReal(d: Dec): real {
    var magnitude := d.mant as real / Pow10(d.scale) as real;
    if d.neg then -magnitude else magnitude
  }

  /** Drops trailing fractional zeros; the value is unchanged. */
  function Normalize(d: Dec): (r: Dec)
    ensures Canonical(r)
    ensures r.scale <= d.scale && d.mant == r.mant * Pow10(d.scale - r.scale)
    ensures r.mant != 0 ==> r.neg == d.neg
    decreases d.scale
  {
    if d.scale > 0 && d.mant % 10 == 0 then
      var r := Normalize(Dec(d.neg, d.mant / 10, d.scale - 1));
      assert Pow10(d.scale - r.scale) == 10 * Pow10(d.scale - 1 - r.scale);
      r
    else if d.mant == 0 then Zero
    else d
  }

  /**
   * The unsigned part of a numeral: digits, optionally one '.', more
   * digits, with at least one digit in all ("3", "3.", ".5", "2.50").
   */
  function ParseUnsigned(body: string): (r: Option<Dec>)
    ensures r.Some? ==> Canonical(r.value) && !r.value.neg
  {
    var parts := Split(body, {'.'});
    if |parts| == 1 && parts[0] != [] && AllDigits(parts[0]) then
      Some(Normalize(Dec(false, DigitsValue(parts[0]), 0)))
    else if |parts| == 2 && parts[0] + parts[1] != [] && AllDigits(parts[0]) && AllDigits(parts[1]) then
      DigitsValueAppend(parts[0], parts[1]);
      Some(Normalize(Dec(false, DigitsValue(parts[0] + parts[1]), |parts[1]|)))
    else None
  }

  /** A stripped numeral with at most one leading sign. */
  function ParseSigned(t: string): (r: Option<Dec>)
    ensures r.Some? ==> Canonical(r.value)
    ensures r.Some? && r.value.neg ==> t != [] && t[0] == '-'
  {
    if t != [] && (t[0] == '+' || t[0] == '-') then
      match ParseUnsigned(t[1..])
      case None => None
      case Some(d) => Some(if t[0] == '-' && d.mant != 0 then Dec(true, d.mant, d.scale) else d)
    else ParseUnsigned(t)
  }

  /**
   * Python's `float(s)` on a plain decimal numeral: surrounding whitespace
   * is ignored and one leading sign is allowed. `None` stands for the
   * `ValueError` that `float` raises on anything else.
   */
  function ParseFloat(s: string): (r: Option<Dec>)
    ensures r.Some? ==> Canonical(r.value)
    ensures r.Some? && r.value.neg ==> '-' in s
  {
    var t := Strip(s);
    assert t != [] ==> t[0] == s[|s| - |LStrip(s)|];
    ParseSigned(t)
  }

  /** Integer and fractional parts of `n / 10^k`, by repeated division by ten. */
  function DivPow10(n: nat, k: nat): (qr: (nat, nat))
    ensures n == qr.0 * Pow10(k) + qr.1 && qr.1 < Pow10(k)
  {
    if k == 0 then (n, 0)
    else
      var (q, r) := DivPow10(n / 10, k - 1);
      assert n == q * (10 * Pow10(k - 1)) + (r * 10 + n % 10);
      (q, r * 10 + n % 10)
  }

  /** The digits of the magnitude: `"<int>.0"` when integral, else `"<int>.<fraction>"`. */
  function UnsignedText(d: Dec): (r: string)
    ensures r != [] && IsDigit(r[0])
    ensures forall k | 0 <= k < |r| :: IsDigit(r[k]) || r[k] == '.'
  {
    if d.scale == 0 then
      NatText(d.mant) + ".0"
    else
      var (whole, fraction) := DivPow10(d.mant, d.scale);
      NatText(whole) + "." + FixedDigits(fraction, d.scale)
  }

  /**
   * How the thickness formatter writes a parsed number: an integral value
   * as `f"{int(v)}.0"`, any other as its plain decimal digits with no
   * trailing zero (Python's `str(float)` for such values).
   */
  function NumberText(d: Dec): (r: string)
    requires Canonical(d)
    ensures '-' in r <==> d.neg
  {
    (if d.neg then "-" else "") + UnsignedText(d)
  }

  /** `int(v)`: truncation toward zero. */
  function Trunc(d: Dec): int {
    var magnitude: int := DivPow10(d.mant, d.scale).0;
    if d.neg then -magnitude else magnitude
  }

  /** `v * 1000`, exactly. */
  function Times1000(d: Dec): (r: Dec)
    ensures ToReal(r) == 1000.0 * ToReal(d)
  {
    Dec(d.neg, d.mant * 1000, d.scale)
  }

  /** `v < 20`. */
  predicate LessThan20(d: Dec) {
    d.neg || d.mant < 20 * Pow10(d.scale)
  }

  /** Python's truthiness of a number: anything but zero. */
  predicate NonZero(d: Dec) {
    d.mant != 0
  }

  // ---------------------------------------------------------------------
  // round trip

  /** A numeral with one dot splits into its two digit strings. */
  lemma SplitAtDot(a: string, b: string)
    requires AllDigits(a) && AllDigits(b)
    ensures Split(a + "." + b, {'.'}) == [a, b]
  {
    assert Avoids(a, {'.'}) && Avoids(b, {'.'});
    assert a + "." + b == Join([a, b], ".");
    SplitJoin([a, b], '.', {'.'});
  }

  lemma NormalizeCanonical(d: Dec)
    requires Canonical(d)
    ensures Normalize(d) == d
  {
  }

  /** A numeral with a dot reads as the digits on both sides, scaled by the fractional length. */
  lemma ParseUnsignedDotted(a: string, b: string)
    requires AllDigits(a) && AllDigits(b) && a + b != []
    ensures AllDigits(a + b)
    ensures ParseUnsigned(a + "." + b) == Some(Normalize(Dec(false, DigitsValue(a + b), |b|)))
  {
    SplitAtDot(a, b);
    DigitsValueAppend(a, b);
  }

  lemma ParseUnsignedIntegral(m: nat)
    ensures ParseUnsigned(NatText(m) + ".0") == Some(Normalize(Dec(false, m, 0)))
  {
    var a := NatText(m);
    ParseUnsignedDotted(a, "0");
    assert a + ".0" == a + "." + "0";
    DigitsValueAppend(a, "0");
    NatTextValue(m);
    assert DigitsValue("0") == 0;
    assert DigitsValue(a + "0") == m * 10;
    var d := Dec(false, m * 10, 1);
    assert d.mant % 10 == 0 && d.mant / 10 == m;
  }

  lemma ParseUnsignedFractionalDigits(d: Dec, q: nat, r: nat)
    requires Canonical(d) && !d.neg && d.scale > 0
    requires d.mant == q * Pow10(d.scale) + r && r < Pow10(d.scale)
    ensures ParseUnsigned(NatText(q) + "." + FixedDigits(r, d.scale)) == Some(d)
  {
    var a := NatText(q);
    var b := FixedDigits(r, d.scale);
    ParseUnsignedDotted(a, b);
    assert DigitsValue(a + b) == d.mant by {
      DigitsValueAppend(a, b);
      NatTextValue(q);
      FixedDigitsValue(r, d.scale);
    }
    assert Dec(false, d.mant, |b|) == d;
    NormalizeCanonical(d);
  }

  lemma ParseUnsignedFractional(d: Dec)
    requires Canonical(d) && !d.neg && d.scale > 0
    ensures var (q, r) := DivPow10(d.mant, d.scale);
      ParseUnsigned(NatText(q) + "." + FixedDigits(r, d.scale)) == Some(d)
  {
    var (q, r) := DivPow10(d.mant, d.scale);
    ParseUnsignedFractionalDigits(d, q, r);
  }

  lemma ParseUnsignedText(d: Dec)
    requires Canonical(d)
    ensures ParseUnsigned(UnsignedText(d)) == Some(Dec(false, d.mant, d.scale))
  {
    if d.scale == 0 {
      ParseUnsignedIntegral(d.mant);
    } else {
      ParseUnsignedFractional(Dec(false, d.mant, d.scale));
    }
  }

  lemma NumberTextStripped(d: Dec)
    requires Canonical(d)
    ensures Strip(NumberText(d)) == NumberText(d)
  {
    var t := NumberText(d);
    assert NoSpaces(t);
    StripNoSpaces(t);
  }

  /** How `float` reads a stripped numeral that starts with a digit, and with a minus sign. */
  lemma ParseSignedText(t: string, body: string, d: Dec)
    requires ParseUnsigned(body) == Some(d) && d.mant != 0 && body != [] && IsDigit(body[0])
    ensures t == body ==> ParseSigned(t) == Some(d)
    ensures t == "-" + body ==> ParseSigned(t) == Some(Dec(true, d.mant, d.scale))
  {
    if t == "-" + body {
      assert t[1..] == body;
    }
  }

  /** `float` reads back exactly the number that `NumberText` wrote. */
  lemma ParseNumberText(d: Dec)
    requires Canonical(d)
    ensures ParseFloat(NumberText(d)) == Some(d)
  {
    var t := NumberText(d);
    var body := UnsignedText(d);
    assert t == (if d.neg then "-" + body else body);
    assert ParseFloat(t) == ParseSigned(t) by {
      NumberTextStripped(d);
    }
    assert ParseUnsigned(body) == Some(Dec(false, d.mant, d.scale)) by {
      ParseUnsignedText(d);
    }
    if d.mant == 0 {
      assert t == body;
    } else {
      ParseSignedText(t, body, Dec(false, d.mant, d.scale));
    }
  }

  /** A numeral that starts with a digit carries no sign. */
  lemma SignedUnsigned(t: string)
    requires t != [] && IsDigit(t[0])
    ensures ParseSigned(t) == ParseUnsigned(t)
  {
    assert t[0] != '+' && t[0] != '-';
  }

  /** On stripped text `float` goes straight to the sign. */
  lemma FloatOfStripped(s: string)
    requires Strip(s) == s
    ensures ParseFloat(s) == ParseSigned(s)
  {
  }

  /** A stripped numeral that starts with a digit carries no sign. */
  lemma ParseStrippedUnsigned(s: string)
    requires Strip(s) == s && s != [] && IsDigit(s[0])
    ensures ParseFloat(s) == ParseUnsigned(s)
  {
    FloatOfStripped(s);
    SignedUnsigned(s);
  }

  /** The decimal digits of a whole number hold no whitespace. */
  lemma NatTextStripped(n: nat)
    ensures Strip(NatText(n)) == NatText(n)
  {
    assert NoSpaces(NatText(n));
    StripNoSpaces(NatText(n));
  }

  /** `float` reads the decimal digits of a whole number as that number. */
  lemma NatParse(n: nat)
    ensures ParseFloat(NatText(n)) == Some(Dec(false, n, 0))
  {
    NatTextStripped(n);
    NatParseUnsigned(n);
    assert IsDigit(NatText(n)[0]);
    ParseStrippedUnsigned(NatText(n));
  }

  lemma NatParseUnsigned(n: nat)
    ensures ParseUnsigned(NatText(n)) == Some(Dec(false, n, 0))
  {
    assert Split(NatText(n), {'.'}) == [NatText(n)] by {
      DigitsAvoidDot(NatText(n));
      SplitWhole(NatText(n), {'.'});
    }
    assert DigitsValue(NatText(n)) == n by {
      NatTextValue(n);
    }
    NormalizeCanonical(Dec(false, n, 0));
  }
}
