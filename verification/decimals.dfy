/** Exact decimal amounts, standing in for `java.math.BigDecimal`: a value is
    an unscaled integer together with the number of digits after the point. */
module Decimals {
  import opened Wrappers
  import opened Text

  /** `unscaled × 10^-scale`. Only the non-negative scales that plain decimal
      text and whole-number multiplication produce are represented. */
  datatype Decimal = Decimal(unscaled: int, scale: nat)

  function Pow10(n: nat): (r: nat)
    ensures r >= 1
  {
    if n == 0 then 1 else 10 * Pow10(n - 1)
  }

  /** The number a decimal stands for. */
  ghost function Value(d: Decimal): real {
    d.unscaled as real / Pow10(d.scale) as real
  }

  /** `BigDecimal.multiply(BigDecimal.valueOf(k))` for a whole number `k`:
      the product keeps the scale of `d`, so "25.50" × 3 is "76.50". */
  function TimesWhole(d: Decimal, k: int): (r: Decimal)
    ensures Value(r) == Value(d) * k as real
    ensures r.scale == d.scale
  {
    var r := Decimal(d.unscaled * k, d.scale);
    var p := Pow10(d.scale) as real;
    assert (d.unscaled * k) as real == d.unscaled as real * k as real;
    assert Value(r) == (d.unscaled as real * k as real) / p;
    r
  }

  /** `@Positive` on a `BigDecimal`: its signum is 1. */
  predicate IsPositive(d: Decimal) {
    d.unscaled > 0
  }

  lemma PositiveMeansAboveZero(d: Decimal)
    ensures IsPositive(d) <==> Value(d) > 0.0
  {
    var p := Pow10(d.scale) as real;
    assert Value(d) * p == d.unscaled as real;
  }

  // ---------------------------------------------------------------------------
  // Text form
  // ---------------------------------------------------------------------------

  function Zeros(n: nat): (r: string)
    ensures |r| == n && AllDigits(r)
    ensures forall i :: 0 <= i < n ==> r[i] == '0'
  {
    if n == 0 then "" else "0" + Zeros(n - 1)
  }

  /** The digits of `m`, left-padded with zeros to at least `width` digits. */
  function Padded(m: nat, width: nat): (r: string)
    ensures AllDigits(r) && |r| >= width && |r| > 0
    ensures DigitsValue(r) == m
  {
    var digits := NatText(m);
    NatTextValue(m);
    if |digits| >= width then digits
    else
      LeadingZerosValue(width - |digits|, digits);
      Zeros(width - |digits|) + digits
  }

  /** Plain decimal notation of a magnitude: at least one digit before the
      point and exactly `scale` digits after it (no point when the scale is
      zero). */
  function MagnitudeText(m: nat, scale: nat): (r: string)
    ensures |r| > 0 && IsDigit(r[0])
  {
    if scale == 0 then NatText(m)
    else
      var padded := Padded(m, scale + 1);
      padded[..|padded| - scale] + "." + padded[|padded| - scale..]
  }

  /** `BigDecimal.toPlainString()`: an optional minus sign, then the magnitude. */
  function DecimalText(d: Decimal): string {
    if d.unscaled < 0 then "-" + MagnitudeText(-d.unscaled, d.scale)
    else MagnitudeText(d.unscaled, d.scale)
  }

  /** Position of the first '.' in `s`, if any. */
  function DotIndex(s: string): (r: Option<nat>)
    ensures r.Some? ==> r.value < |s| && s[r.value] == '.'
  {
    if |s| == 0 then None
    else if s[0] == '.' then Some(0)
    else
      match DotIndex(s[1..])
      case None => None
      case Some(i) => Some(i + 1)
  }

  /** Unsigned plain notation: digits with at most one '.', and at least one digit. */
  function ParseMagnitude(body: string): (r: Option<Decimal>)
    ensures r.Some? ==> r.value.unscaled >= 0
  {
    var dot := DotIndex(body);
    var whole := if dot.Some? then body[..dot.value] else body;
    var fraction := if dot.Some? then body[dot.value + 1..] else "";
    if |whole| + |fraction| == 0 || !AllDigits(whole) || !AllDigits(fraction) then None
    else Some(Decimal(DigitsValue(whole + fraction), |fraction|))
  }

  /** `new BigDecimal(s)` for plain notation: an optional sign before an
      unsigned magnitude. Anything else is a `NumberFormatException`,
      modelled as `None`. */
  function ParseDecimal(s: string): (r: Option<Decimal>)
    ensures r.Some? && r.value.unscaled < 0 ==> |s| > 0 && s[0] == '-'
  {
    var negative := |s| > 0 && s[0] == '-';
    var body := if |s| > 0 && (s[0] == '-' || s[0] == '+') then s[1..] else s;
    match ParseMagnitude(body)
    case None => None
    case Some(d) => Some(if negative then Decimal(-d.unscaled, d.scale) else d)
  }

  lemma {:induction false} LeadingZerosValue(k: nat, t: string)
    requires AllDigits(t)
    ensures AllDigits(Zeros(k) + t)
    ensures DigitsValue(Zeros(k) + t) == DigitsValue(t)
    decreases |t|
  {
    var s := Zeros(k) + t;
    if |t| == 0 {
      assert s == Zeros(k);
      ZerosValue(k);
    } else {
      assert s[..|s| - 1] == Zeros(k) + t[..|t| - 1];
      LeadingZerosValue(k, t[..|t| - 1]);
    }
  }

  lemma {:induction false} ZerosValue(k: nat)
    ensures DigitsValue(Zeros(k)) == 0
    decreases k
  {
    if k > 0 {
      var z := Zeros(k);
      assert z[..|z| - 1] == Zeros(k - 1) by {
        assert z == Zeros(k - 1) + "0" by { ZerosShift(k); }
      }
      ZerosValue(k - 1);
    }
  }

  lemma {:induction false} ZerosShift(k: nat)
    requires k > 0
    ensures Zeros(k) == Zeros(k - 1) + "0"
    decreases k
  {
    if k > 1 {
      ZerosShift(k - 1);
    }
  }

  lemma {:induction false} DotIndexOfDigits(s: string)
    requires AllDigits(s)
    ensures DotIndex(s) == None
    decreases |s|
  {
    if |s| > 0 {
      DotIndexOfDigits(s[1..]);
    }
  }

  lemma {:induction false} DotIndexAfterDigits(whole: string, fraction: string)
    requires AllDigits(whole)
    ensures DotIndex(whole + "." + fraction) == Some(|whole|)
    decreases |whole|
  {
    var s := whole + "." + fraction;
    if |whole| > 0 {
      assert s[1..] == whole[1..] + "." + fraction;
      DotIndexAfterDigits(whole[1..], fraction);
    }
  }

  lemma ParseWholeNumber(digits: string)
    requires |digits| > 0 && AllDigits(digits)
    ensures ParseMagnitude(digits) == Some(Decimal(DigitsValue(digits), 0))
  {
    DotIndexOfDigits(digits);
    assert digits + "" == digits;
  }

  lemma ParsePointed(whole: string, fraction: string)
    requires |whole| > 0 && AllDigits(whole) && AllDigits(fraction)
    ensures AllDigits(whole + fraction)
    ensures ParseMagnitude(whole + "." + fraction) == Some(Decimal(DigitsValue(whole + fraction), |fraction|))
  {
    var s := whole + "." + fraction;
    DotIndexAfterDigits(whole, fraction);
    assert s[..|whole|] == whole;
    assert s[|whole| + 1..] == fraction;
  }

  lemma MagnitudeRoundTrip(m: nat, scale: nat)
    ensures ParseMagnitude(MagnitudeText(m, scale)) == Some(Decimal(m, scale))
  {
    if scale == 0 {
      NatTextValue(m);
      ParseWholeNumber(NatText(m));
    } else {
      PointedRoundTrip(m, scale);
    }
  }

  /** Both sides of a cut through a digit string are digit strings. */
  lemma CutDigits(s: string, cut: nat)
    requires AllDigits(s) && cut <= |s|
    ensures AllDigits(s[..cut]) && AllDigits(s[cut..]) && s[..cut] + s[cut..] == s
  {
    assert forall i :: 0 <= i < cut ==> s[..cut][i] == s[i];
    assert forall i :: 0 <= i < |s| - cut ==> s[cut..][i] == s[cut + i];
  }

  lemma PointedRoundTrip(m: nat, scale: nat)
    requires scale > 0
    ensures ParseMagnitude(MagnitudeText(m, scale)) == Some(Decimal(m, scale))
  {
    var padded := Padded(m, scale + 1);
    var cut := |padded| - scale;
    CutDigits(padded, cut);
    ParsePointed(padded[..cut], padded[cut..]);
  }

  /** The sign handling of `ParseDecimal`, for text that starts with a digit. */
  lemma ParseSigned(t: string, m: nat, scale: nat)
    requires |t| > 0 && IsDigit(t[0])
    requires ParseMagnitude(t) == Some(Decimal(m, scale))
    ensures ParseDecimal(t) == Some(Decimal(m, scale))
    ensures ParseDecimal("-" + t) == Some(Decimal(-(m as int), scale))
  {
    assert ("-" + t)[1..] == t;
  }

  /** Reading back the plain text of a decimal gives the same decimal,
      scale included. */
  lemma DecimalTextRoundTrip(d: Decimal)
    ensures ParseDecimal(DecimalText(d)) == Some(d)
  {
    if d.unscaled < 0 {
      var m: nat := -d.unscaled;
      var t := MagnitudeText(m, d.scale);
      assert DecimalText(d) == "-" + t;
      MagnitudeRoundTrip(m, d.scale);
      ParseSigned(t, m, d.scale);
    } else {
      var t := MagnitudeText(d.unscaled, d.scale);
      assert DecimalText(d) == t;
      MagnitudeRoundTrip(d.unscaled, d.scale);
      ParseSigned(t, d.unscaled, d.scale);
    }
  }
}
