/** _dollar_str_to_cents of app/getRents.py: the amount text the billing sites show, such as
    "$1,234.56", read as a whole number of cents. */
module Cents {
  import opened Results
  import opened Text
  import opened Numbers

  /** The text with surrounding whitespace stripped and every "$" and "," removed. */
  function Bare(s: string): string {
    Remove(Remove(Strip(s), '$'), ',')
  }

  /** _dollar_str_to_cents as written: the bare text must split at "." into exactly two parts,
      each an int() literal; the result is 100 times the first plus the second, the cents
      digits taken as written. */
  function DollarStrToCents(s: string): (r: Result<int>)
    ensures r.Ok? ==> |Split(Bare(s), '.')| == 2
    ensures r.Err? ==> r.error == Malformed
  {
    var parts := Split(Bare(s), '.');
    if |parts| != 2 then Err(Malformed)
    else
      match (ParseInt(parts[0]), ParseInt(parts[1]))
      case (Some(dollars), Some(cents)) => Ok(100 * dollars + cents)
      case _ => Err(Malformed)
  }

  /** Whether a dollars part is written with a minus sign. */
  predicate Negative(p: string) {
    var t := Strip(p);
    |t| > 0 && t[0] == '-'
  }

  /** _dollar_str_to_cents as evidently intended: the cents of a negative amount count
      against it, as the minus sign in front of the dollars says. */
  function SignedDollarStrToCents(s: string): (r: Result<int>)
    ensures r.Ok? ==> |Split(Bare(s), '.')| == 2
    ensures r.Err? <==> DollarStrToCents(s).Err?
  {
    var parts := Split(Bare(s), '.');
    if |parts| != 2 then Err(Malformed)
    else
      match (ParseInt(parts[0]), ParseInt(parts[1]))
      case (Some(dollars), Some(cents)) => Ok(if Negative(parts[0]) then 100 * dollars - cents else 100 * dollars + cents)
      case _ => Err(Malformed)
  }

  // ------------------------------------------------------------------ the text the sites show

  /** The digits of n in groups of three separated by commas, as "1,234,567". */
  function Grouped(n: nat): (s: string)
    ensures |s| > 0 && IsDigit(s[0]) && IsDigit(s[|s| - 1])
    ensures forall k :: 0 <= k < |s| ==> IsDigit(s[k]) || s[k] == ','
    decreases n
  {
    if n < 1000 then
      NatToDigits(n)
    else
      var high := Grouped(n / 1000);
      var low := LowDigits(n, 3);
      var s := high + "," + low;
      assert forall k :: |high| < k < |s| ==> s[k] == low[k - |high| - 1];
      s
  }

  /** An amount of cents as the billing sites show it: an optional minus sign, a dollar sign,
      the dollars grouped by commas, a point and exactly two cents digits. */
  function FormatDollars(c: int): (s: string)
    ensures |s| > 0 && !IsSpace(s[0]) && IsDigit(s[|s| - 1])
  {
    var sign := if c < 0 then "-" else "";
    var cents := LowDigits(Abs(c), 2);
    var s := sign + "$" + Grouped(HighPart(Abs(c), 2)) + "." + cents;
    assert s[|s| - 1] == cents[1];
    assert s[0] == if c < 0 then '-' else '$';
    s
  }

  // ------------------------------------------------------------------ helpers about digits

  /** A digit string holds no other character. */
  lemma DigitsOnly(s: string, ch: char)
    requires AllDigits(s) && !IsDigit(ch)
    ensures ch !in s
  {
    forall k | 0 <= k < |s| ensures s[k] != ch {
      assert IsDigit(s[k]);
    }
  }

  /** Removing a character distributes over concatenation. */
  lemma {:induction false} RemoveAppend(a: string, b: string, c: char)
    ensures Remove(a + b, c) == Remove(a, c) + Remove(b, c)
  {
    if |a| > 0 {
      assert (a + b)[1..] == a[1..] + b;
      RemoveAppend(a[1..], b, c);
    } else {
      assert a + b == b;
    }
  }

  /** The commas of a grouped number go, and the group after the last comma stays. */
  lemma RemoveGroupComma(high: string, low: string)
    requires ',' !in low
    ensures Remove(high + "," + low, ',') == Remove(high, ',') + low
  {
    RemoveAppend(high + ",", low, ',');
    RemoveAppend(high, ",", ',');
  }

  /** One more decimal digit multiplies what comes before it by ten. */
  lemma DigitsValueShift(x: int, p: int, y: int, d: int)
    ensures 10 * (x * p + y) + d == x * (10 * p) + (10 * y + d)
  {
  }

  /** The number denoted by two digit strings written one after the other. */
  lemma {:induction false} DigitsValueAppend(a: string, b: string)
    requires AllDigits(a) && AllDigits(b)
    ensures AllDigits(a + b)
    ensures DigitsValue(a + b) == DigitsValue(a) * Pow10(|b|) + DigitsValue(b)
  {
    if |b| == 0 {
      assert a + b == a;
    } else {
      var b' := b[..|b| - 1];
      var c := b[|b| - 1];
      DigitsValueAppend(a, b');
      assert a + b == (a + b') + [c];
      assert b == b' + [c];
      DigitsValueSnoc(a + b', c);
      DigitsValueSnoc(b', c);
      DigitsValueShift(DigitsValue(a), Pow10(|b'|), DigitsValue(b'), c as int - '0' as int);
    }
  }

  lemma HighPartThree(n: nat)
    ensures HighPart(n, 3) == n / 1000
  {
    assert HighPart(n, 3) == HighPart(n / 10, 2) == HighPart(n / 10 / 10, 1) == n / 10 / 10 / 10;
  }

  /** The k low digits of m, after the digits of the rest of m, denote m. */
  lemma LowDigitsValue(m: nat, k: nat)
    ensures HighPart(m, k) * Pow10(k) + DigitsValue(LowDigits(m, k)) == m
  {
    HighLowDigits(m, k);
    DigitsValueAppend(NatToDigits(HighPart(m, k)), LowDigits(m, k));
  }

  /** Digits denoting n / 1000 followed by the three low digits of n denote n. */
  lemma GroupValue(d: string, n: nat)
    requires AllDigits(d) && DigitsValue(d) == n / 1000
    ensures AllDigits(d + LowDigits(n, 3)) && DigitsValue(d + LowDigits(n, 3)) == n
  {
    DigitsValueAppend(d, LowDigits(n, 3));
    LowDigitsValue(n, 3);
    HighPartThree(n);
    assert Pow10(3) == 1000;
  }

  /** With its commas removed, the grouped form of n is a digit string denoting n. */
  lemma {:induction false} GroupedDigits(n: nat)
    ensures var d := Remove(Grouped(n), ',');
      |d| > 0 && AllDigits(d) && DigitsValue(d) == n
    decreases n
  {
    if n < 1000 {
      DigitsOnly(NatToDigits(n), ',');
    } else {
      var low := LowDigits(n, 3);
      GroupedDigits(n / 1000);
      DigitsOnly(low, ',');
      RemoveGroupComma(Grouped(n / 1000), low);
      GroupValue(Remove(Grouped(n / 1000), ','), n);
    }
  }

  /** Removing a character from five texts written one after another. */
  lemma RemoveFive(a: string, b: string, c: string, d: string, e: string, ch: char)
    ensures Remove(a + b + c + d + e, ch) == Remove(a, ch) + Remove(b, ch) + Remove(c, ch) + Remove(d, ch) + Remove(e, ch)
  {
    RemoveAppend(a + b + c + d, e, ch);
    RemoveAppend(a + b + c, d, ch);
    RemoveAppend(a + b, c, ch);
    RemoveAppend(a, b, ch);
  }

  /** Removing a character from four texts written one after another. */
  lemma RemoveFour(a: string, b: string, c: string, d: string, ch: char)
    ensures Remove(a + b + c + d, ch) == Remove(a, ch) + Remove(b, ch) + Remove(c, ch) + Remove(d, ch)
  {
    RemoveAppend(a + b + c, d, ch);
    RemoveAppend(a + b, c, ch);
    RemoveAppend(a, b, ch);
  }

  /** The sign, the dollar sign and the point of the shown text. */
  lemma Marks(sign: string)
    requires sign == "" || sign == "-"
    ensures Remove(sign, '$') == sign && Remove(sign, ',') == sign
    ensures Remove("$", '$') == "" && Remove(".", '$') == "." && Remove(".", ',') == "."
    ensures sign + "" == sign
  {
    assert '$' !in sign && ',' !in sign;
    assert "$"[1..] == "";
  }

  /** Stripped and rid of "$" and ",", the shown text of an amount is its sign, its dollars'
      digits, a point and its cents digits. */
  lemma BareShown(sign: string, grouped: string, cents: string)
    requires sign == "" || sign == "-"
    requires forall k :: 0 <= k < |grouped| ==> IsDigit(grouped[k]) || grouped[k] == ','
    requires AllDigits(cents)
    requires Strip(sign + "$" + grouped + "." + cents) == sign + "$" + grouped + "." + cents
    ensures Bare(sign + "$" + grouped + "." + cents) == sign + Remove(grouped, ',') + "." + cents
  {
    DigitsOnly(cents, '$');
    DigitsOnly(cents, ',');
    assert '$' !in grouped by {
      forall k | 0 <= k < |grouped| ensures grouped[k] != '$' {
      }
    }
    Marks(sign);
    RemoveFive(sign, "$", grouped, ".", cents, '$');
    RemoveFour(sign, grouped, ".", cents, ',');
  }

  /** A text with one point splits there. */
  lemma SplitAtPoint(head: string, tail: string)
    requires '.' !in head && '.' !in tail
    ensures Split(head + "." + tail, '.') == [head, tail]
  {
    assert Join('.', [head, tail]) == head + "." + tail;
    SplitJoin([head, tail], '.');
  }

  /** The dollars of an amount as digits, the commas gone. */
  function DollarDigits(c: int): string {
    Remove(Grouped(HighPart(Abs(c), 2)), ',')
  }

  /** The two cents digits of an amount. */
  function CentDigits(c: int): string {
    LowDigits(Abs(c), 2)
  }

  /** The dollars of an amount are a non-empty digit string. */
  lemma DollarDigitsOnly(c: int)
    ensures |DollarDigits(c)| > 0 && AllDigits(DollarDigits(c))
  {
    GroupedDigits(HighPart(Abs(c), 2));
  }

  /** Stripped and rid of "$" and ",", the shown text of a non-negative amount splits at its
      point into the dollars and the cents. */
  lemma ShownSplitUnsigned(c: nat)
    ensures Split(Bare(FormatDollars(c)), '.') == [DollarDigits(c), CentDigits(c)]
  {
    var grouped := Grouped(HighPart(Abs(c), 2));
    var dollars := DollarDigits(c);
    var cents := CentDigits(c);
    DollarDigitsOnly(c);
    StripUnchanged(FormatDollars(c));
    BareShown("", grouped, cents);
    DigitsOnly(cents, '.');
    DigitsOnly(dollars, '.');
    assert "" + dollars == dollars;
    SplitAtPoint(dollars, cents);
  }

  /** The same for a negative amount: the dollars keep the minus sign. */
  lemma ShownSplitSigned(c: int)
    requires c < 0
    ensures Split(Bare(FormatDollars(c)), '.') == ["-" + DollarDigits(c), CentDigits(c)]
  {
    var grouped := Grouped(HighPart(Abs(c), 2));
    var dollars := DollarDigits(c);
    var cents := CentDigits(c);
    DollarDigitsOnly(c);
    StripUnchanged(FormatDollars(c));
    BareShown("-", grouped, cents);
    DigitsOnly(cents, '.');
    DigitsOnly(dollars, '.');
    assert '.' !in "-" + dollars;
    SplitAtPoint("-" + dollars, cents);
  }

  /** A digit string denotes less than ten to the power of its length. */
  lemma {:induction false} DigitsValueBound(s: string)
    requires AllDigits(s)
    ensures DigitsValue(s) < Pow10(|s|)
  {
    if |s| > 0 {
      DigitsValueBound(s[..|s| - 1]);
    }
  }

  /** The dollars and the two cents digits of an amount of m cents denote m. */
  lemma Magnitude(m: nat)
    ensures AllDigits(Remove(Grouped(HighPart(m, 2)), ','))
    ensures 100 * DigitsValue(Remove(Grouped(HighPart(m, 2)), ',')) + DigitsValue(LowDigits(m, 2)) == m
  {
    var h := HighPart(m, 2);
    GroupedDigits(h);
    LowDigitsValue(m, 2);
    assert Pow10(2) == 100;
  }

  /** What int() makes of a digit string, with and without a minus sign in front. */
  lemma Readings(d: string) returns (x: int)
    requires |d| > 0 && AllDigits(d)
    ensures x == DigitsValue(d)
    ensures ParseInt(d) == Some(x) && !Negative(d)
    ensures ParseInt("-" + d) == Some(-x) && Negative("-" + d)
  {
    ParseDigitString(d);
    ParseNegatedDigitString(d);
    DigitSigns(d);
    x := DigitsValue(d);
  }

  /** What int() makes of the dollars, signed or not, and of the cents of an amount: x and y
      with 100 x + y the amount's magnitude and y below 100. */
  lemma ShownValues(c: int) returns (x: int, y: int)
    ensures ParseInt(DollarDigits(c)) == Some(x) && !Negative(DollarDigits(c))
    ensures ParseInt("-" + DollarDigits(c)) == Some(-x) && Negative("-" + DollarDigits(c))
    ensures ParseInt(CentDigits(c)) == Some(y)
    ensures 100 * x + y == Abs(c) && 0 <= y < 100
  {
    Magnitude(Abs(c));
    DollarDigitsOnly(c);
    DigitsValueBound(CentDigits(c));
    assert Pow10(2) == 100;
    x := Readings(DollarDigits(c));
    y := Readings(CentDigits(c));
  }

  /** A digit string is not written with a minus sign, and one after a minus sign is. */
  lemma DigitSigns(d: string)
    requires |d| > 0 && AllDigits(d)
    ensures !Negative(d) && Negative("-" + d)
  {
    StripUnchanged(d);
    StripUnchanged("-" + d);
  }

  /** Both readings of a text whose parts read as unsigned dollars x and cents y. */
  lemma ReadUnsigned(s: string, dollars: string, cents: string, x: int, y: int)
    requires Split(Bare(s), '.') == [dollars, cents]
    requires ParseInt(dollars) == Some(x) && !Negative(dollars) && ParseInt(cents) == Some(y)
    ensures DollarStrToCents(s) == Ok(100 * x + y)
    ensures SignedDollarStrToCents(s) == Ok(100 * x + y)
  {
  }

  /** Both readings of a text whose dollars carry a minus sign. */
  lemma ReadSigned(s: string, dollars: string, cents: string, x: int, y: int)
    requires Split(Bare(s), '.') == ["-" + dollars, cents]
    requires ParseInt("-" + dollars) == Some(-x) && Negative("-" + dollars) && ParseInt(cents) == Some(y)
    ensures DollarStrToCents(s) == Ok(-100 * x + y)
    ensures SignedDollarStrToCents(s) == Ok(-(100 * x + y))
  {
  }

  // ------------------------------------------------------------------ properties

  /** A non-negative amount as the sites show it reads back as itself. */
  lemma DollarStrToCentsRoundTrip(c: nat)
    ensures DollarStrToCents(FormatDollars(c)).Ok? && DollarStrToCents(FormatDollars(c)).value == c
  {
    ShownSplitUnsigned(c);
    var x, y := ShownValues(c);
    ReadUnsigned(FormatDollars(c), DollarDigits(c), CentDigits(c), x, y);
  }

  /** Negated dollars plus cents, for a negative amount of x dollars and y cents. */
  lemma NegatedPlusCents(c: int, x: int, y: int)
    requires 100 * x + y == -c && 0 <= y < 100
    ensures -100 * x + y == c + 2 * (-c % 100)
  {
    assert y == -c % 100;
  }

  /** A negative amount does not: its cents are added to the negated dollars instead of
      taken away, so the reading is off by twice the cents. */
  lemma DollarStrToCentsNegative(c: int)
    requires c < 0
    ensures DollarStrToCents(FormatDollars(c)).Ok?
    ensures DollarStrToCents(FormatDollars(c)).value == c + 2 * (-c % 100)
  {
    ShownSplitSigned(c);
    var x, y := ShownValues(c);
    NegatedPlusCents(c, x, y);
    ReadSigned(FormatDollars(c), DollarDigits(c), CentDigits(c), x, y);
  }

  /** The amount of -525 cents is shown as "-$5.25". */
  lemma ShownMinusFiveTwentyFive()
    ensures FormatDollars(-525) == "-$5.25"
  {
    assert HighPart(525, 2) == 5;
    assert Grouped(5) == "5";
    assert LowDigits(525, 2) == "25";
  }

  /** -525 cents with its cents counted twice the wrong way. */
  lemma TwiceTwentyFive(c: int)
    requires c == -525
    ensures c + 2 * (-c % 100) == -475
  {
  }

  /** "-$5.25" reads as -475 cents. */
  lemma DollarStrToCentsMinusFiveTwentyFive(s: string)
    requires s == "-$5.25"
    ensures DollarStrToCents(s).Ok? && DollarStrToCents(s).value == -475
  {
    var c := -525;
    ShownMinusFiveTwentyFive();
    DollarStrToCentsNegative(c);
    TwiceTwentyFive(c);
  }

  /** The evidently intended reading gives back a negative amount. */
  lemma SignedNegativeRoundTrip(c: int)
    requires c < 0
    ensures SignedDollarStrToCents(FormatDollars(c)).Ok? && SignedDollarStrToCents(FormatDollars(c)).value == c
  {
    ShownSplitSigned(c);
    var x, y := ShownValues(c);
    ReadSigned(FormatDollars(c), DollarDigits(c), CentDigits(c), x, y);
  }

  /** The evidently intended reading gives back a non-negative amount. */
  lemma SignedNonNegativeRoundTrip(c: nat)
    ensures SignedDollarStrToCents(FormatDollars(c)).Ok? && SignedDollarStrToCents(FormatDollars(c)).value == c
  {
    ShownSplitUnsigned(c);
    var x, y := ShownValues(c);
    ReadUnsigned(FormatDollars(c), DollarDigits(c), CentDigits(c), x, y);
  }

  /** The evidently intended reading gives back every amount, negative ones included. */
  lemma SignedDollarStrToCentsRoundTrip(c: int)
    ensures SignedDollarStrToCents(FormatDollars(c)).Ok? && SignedDollarStrToCents(FormatDollars(c)).value == c
  {
    if c < 0 {
      SignedNegativeRoundTrip(c);
    } else {
      SignedNonNegativeRoundTrip(c);
    }
  }

  /** The two readings agree on every text whose dollars are not written with a minus sign. */
  lemma SignedAgrees(s: string)
    requires |Split(Bare(s), '.')| == 2 && !Negative(Split(Bare(s), '.')[0])
    ensures SignedDollarStrToCents(s) == DollarStrToCents(s)
  {
  }
}
