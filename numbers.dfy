/** Numeric cells. A Python float written to the sheet is a binary fraction, so it has a finite
    decimal expansion; the model keeps such a number as a Decimal, units / 10^scale, and reads
    cells with the subset of float() syntax that the sheet produces. */
module Numbers {
  import opened Results
  import opened Text

  datatype Decimal = Decimal(units: int, scale: nat)

  /** The exact number a Decimal denotes: its units divided by ten scale times. */
  function Value(d: Decimal): real {
    Scaled(d.units as real, d.scale)
  }

  function Scaled(x: real, k: nat): real {
    if k == 0 then x else Scaled(x, k - 1) / 10.0
  }

  const Zero := Decimal(0, 0)

  function Abs(i: int): nat {
    if i < 0 then -i else i
  }

  /** The k low-order decimal digits of m, zero-padded on the left. */
  function LowDigits(m: nat, k: nat): (s: string)
    ensures |s| == k && AllDigits(s)
  {
    if k == 0 then "" else LowDigits(m / 10, k - 1) + [DigitChar(m % 10)]
  }

  /** m with its k low-order decimal digits dropped. */
  function HighPart(m: nat, k: nat): nat {
    if k == 0 then m else HighPart(m / 10, k - 1)
  }

  /** The digits of m / 10^scale in fixed-point notation: the integer digits, and when the
      scale is positive a point followed by exactly scale fraction digits. */
  function FixedPoint(m: nat, scale: nat): (s: string)
    ensures |s| > 0 && IsDigit(s[0]) && IsDigit(s[|s| - 1])
    ensures forall k :: 0 <= k < |s| ==> IsDigit(s[k]) || s[k] == '.'
  {
    var whole := NatToDigits(HighPart(m, scale));
    if scale == 0 then
      whole
    else
      var frac := LowDigits(m, scale);
      var s := whole + "." + frac;
      assert forall k :: |whole| < k < |s| ==> s[k] == frac[k - |whole| - 1];
      s
  }

  /** The text a numeric cell shows: an optional minus sign, then the fixed-point digits. */
  function FormatDecimal(d: Decimal): (s: string)
    ensures |s| > 0 && !IsSpace(s[0]) && IsDigit(s[|s| - 1])
    ensures ',' !in s
  {
    if d.units < 0 then "-" + FixedPoint(Abs(d.units), d.scale) else FixedPoint(d.units, d.scale)
  }

  /** The unsigned part of a float literal: digits with at most one point, at least one
      digit. Its magnitude is the number the digits denote with the point removed, scaled by
      the count of fraction digits. */
  function ParseUnsigned(body: string): Option<Decimal> {
    var parts := Split(body, '.');
    if |parts| > 2 then None
    else
      var whole := parts[0];
      var frac := if |parts| == 2 then parts[1] else "";
      if AllDigits(whole + frac) && |whole| + |frac| > 0 then Some(Decimal(DigitsValue(whole + frac), |frac|))
      else None
  }

  /** Python's float(s), restricted to plain decimal notation: optional surrounding whitespace,
      an optional sign, then the unsigned part. */
  function ParseFloat(s: string): Option<Decimal> {
    var t := Strip(s);
    var signed := |t| > 0 && (t[0] == '-' || t[0] == '+');
    var mag := ParseUnsigned(if signed then t[1..] else t);
    if mag.None? then None
    else if signed && t[0] == '-' then Some(Decimal(-mag.value.units, mag.value.scale))
    else mag
  }

  /** The whole digits of HighPart(m, k) followed by the k low digits denote m. */
  lemma {:induction false} HighLowDigits(m: nat, k: nat)
    ensures AllDigits(NatToDigits(HighPart(m, k)) + LowDigits(m, k))
    ensures DigitsValue(NatToDigits(HighPart(m, k)) + LowDigits(m, k)) == m
  {
    if k == 0 {
      assert NatToDigits(HighPart(m, k)) + LowDigits(m, k) == NatToDigits(m);
    } else {
      HighLowDigits(m / 10, k - 1);
      var a := NatToDigits(HighPart(m / 10, k - 1)) + LowDigits(m / 10, k - 1);
      var c := DigitChar(m % 10);
      assert HighPart(m, k) == HighPart(m / 10, k - 1);
      assert LowDigits(m, k) == LowDigits(m / 10, k - 1) + [c];
      assert NatToDigits(HighPart(m, k)) + LowDigits(m, k) == a + [c];
      DigitsValueSnoc(a, c);
    }
  }

  /** The fixed-point text reads back as m scaled by the count of its fraction digits. */
  lemma ParseFixedPoint(m: nat, scale: nat)
    ensures ParseUnsigned(FixedPoint(m, scale)) == Some(Decimal(m, scale))
  {
    var whole := NatToDigits(HighPart(m, scale));
    var frac := LowDigits(m, scale);
    HighLowDigits(m, scale);
    assert '.' !in whole && '.' !in frac;
    if scale == 0 {
      assert FixedPoint(m, scale) == Join('.', [whole]);
      SplitJoin([whole], '.');
      assert whole + "" == whole;
    } else {
      assert FixedPoint(m, scale) == Join('.', [whole, frac]);
      SplitJoin([whole, frac], '.');
    }
  }

  /** float() reads back exactly what FormatDecimal wrote. */
  lemma ParseFormatDecimal(d: Decimal)
    ensures ParseFloat(FormatDecimal(d)) == Some(d)
  {
    var s := FormatDecimal(d);
    StripUnchanged(s);
    ParseFixedPoint(Abs(d.units), d.scale);
    if d.units < 0 {
      assert s[1..] == FixedPoint(Abs(d.units), d.scale);
    }
  }
}
