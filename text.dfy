/** The string operations of Python that the ledger relies on: str.strip, str.split, str.join,
    str.replace(c, ""), str.lower, int() and str() of integers. */
module Text {
  import opened Results

  /** The characters str.isspace() accepts, which str.strip(), int() and float() discard: the
      control characters tab to carriage return and the four separators 0x1C to 0x1F, the
      space, NEL, no-break space and the other Unicode space separators, and the line and
      paragraph separators. */
  predicate IsSpace(c: char) {
    || ('\U{0009}' <= c <= '\U{000D}')
    || ('\U{001C}' <= c <= '\U{0020}')
    || c == '\U{0085}' || c == '\U{00A0}' || c == '\U{1680}'
    || ('\U{2000}' <= c <= '\U{200A}')
    || c == '\U{2028}' || c == '\U{2029}' || c == '\U{202F}' || c == '\U{205F}' || c == '\U{3000}'
  }

  /** Python's s.lstrip(): the leading whitespace removed; StripLeftRemoves says the rest is kept. */
  function StripLeft(s: string): (r: string)
    ensures |r| <= |s|
    ensures |r| > 0 ==> !IsSpace(r[0])
  {
    if |s| > 0 && IsSpace(s[0]) then StripLeft(s[1..]) else s
  }

  /** lstrip() removes only leading whitespace: its result is a suffix of the input and every
      character dropped is whitespace. */
  lemma {:induction false} StripLeftRemoves(s: string)
    ensures StripLeft(s) == s[|s| - |StripLeft(s)|..]
    ensures forall i :: 0 <= i < |s| - |StripLeft(s)| ==> IsSpace(s[i])
  {
    if |s| > 0 && IsSpace(s[0]) {
      StripLeftRemoves(s[1..]);
      assert forall i :: 1 <= i < |s| ==> s[1..][i - 1] == s[i];
    }
  }

  /** Python's s.rstrip(): the trailing whitespace removed; StripRightRemoves says the rest is kept. */
  function StripRight(s: string): (r: string)
    ensures |r| <= |s|
    ensures |r| > 0 ==> !IsSpace(r[|r| - 1])
  {
    if |s| > 0 && IsSpace(s[|s| - 1]) then StripRight(s[..|s| - 1]) else s
  }

  /** rstrip() removes only trailing whitespace: its result is a prefix of the input and every
      character dropped is whitespace. */
  lemma {:induction false} StripRightRemoves(s: string)
    ensures StripRight(s) == s[..|StripRight(s)|]
    ensures forall i :: |StripRight(s)| <= i < |s| ==> IsSpace(s[i])
  {
    if |s| > 0 && IsSpace(s[|s| - 1]) {
      StripRightRemoves(s[..|s| - 1]);
      assert forall i :: 0 <= i < |s| - 1 ==> s[..|s| - 1][i] == s[i];
    }
  }

  /** Python's s.strip(): leading and trailing whitespace removed; StripPadded says the rest
      is kept. */
  function Strip(s: string): (r: string)
    ensures |r| <= |s|
    ensures |r| > 0 ==> !IsSpace(r[0]) && !IsSpace(r[|r| - 1])
  {
    StripRightRemoves(StripLeft(s));
    StripRight(StripLeft(s))
  }

  /** Text that is all whitespace strips to nothing at either end. */
  lemma StripAllSpace(s: string)
    requires forall i :: 0 <= i < |s| ==> IsSpace(s[i])
    ensures StripLeft(s) == "" && StripRight(s) == ""
  {
    var l, r := StripLeft(s), StripRight(s);
    StripLeftRemoves(s);
    StripRightRemoves(s);
    if |l| > 0 {
      assert false;
    }
    if |r| > 0 {
      assert false;
    }
  }

  /** Whitespace before text that starts with none is exactly what lstrip() removes. */
  lemma {:induction false} StripLeftPadded(a: string, u: string)
    requires forall i :: 0 <= i < |a| ==> IsSpace(a[i])
    requires |u| > 0 && !IsSpace(u[0])
    ensures StripLeft(a + u) == u
  {
    if |a| > 0 {
      assert (a + u)[0] == a[0];
      assert (a + u)[1..] == a[1..] + u;
      StripLeftPadded(a[1..], u);
    } else {
      assert a + u == u;
    }
  }

  /** Whitespace after text that ends with none is exactly what rstrip() removes. */
  lemma {:induction false} StripRightPadded(u: string, b: string)
    requires |u| > 0 && !IsSpace(u[|u| - 1])
    requires forall i :: 0 <= i < |b| ==> IsSpace(b[i])
    ensures StripRight(u + b) == u
  {
    if |b| > 0 {
      var s := u + b;
      assert s[|s| - 1] == b[|b| - 1];
      assert s[..|s| - 1] == u + b[..|b| - 1];
      StripRightPadded(u, b[..|b| - 1]);
    } else {
      assert u + b == u;
    }
  }

  /** strip() removes exactly the whitespace around a text with none at either end, and keeps
      that text whole: "8/2021\u00A0" strips to "8/2021". */
  lemma StripPadded(a: string, t: string, b: string)
    requires forall i :: 0 <= i < |a| ==> IsSpace(a[i])
    requires forall i :: 0 <= i < |b| ==> IsSpace(b[i])
    requires |t| > 0 ==> !IsSpace(t[0]) && !IsSpace(t[|t| - 1])
    ensures Strip(a + t + b) == t
  {
    if |t| > 0 {
      assert a + t + b == a + (t + b);
      StripLeftPadded(a, t + b);
      StripRightPadded(t, b);
    } else {
      assert a + t + b == a + b;
      StripAllSpace(a + b);
    }
  }

  /** A string with no whitespace at either end is its own strip. */
  lemma StripUnchanged(s: string)
    requires |s| > 0 ==> !IsSpace(s[0]) && !IsSpace(s[|s| - 1])
    ensures Strip(s) == s
  {
  }

  /** Python's s.split(sep) for a one-character separator: the pieces between separators,
      always at least one, none containing the separator. */
  function Split(s: string, sep: char): (parts: seq<string>)
    ensures |parts| >= 1
    ensures forall i :: 0 <= i < |parts| ==> sep !in parts[i]
  {
    if |s| == 0 then [""]
    else
      var rest := Split(s[1..], sep);
      if s[0] == sep then [""] + rest else [[s[0]] + rest[0]] + rest[1..]
  }

  /** Python's sep.join(parts). */
  function Join(sep: char, parts: seq<string>): string {
    if |parts| == 0 then ""
    else if |parts| == 1 then parts[0]
    else parts[0] + [sep] + Join(sep, parts[1..])
  }

  lemma {:induction false} SplitPrefix(a: string, rest: string, sep: char)
    requires sep !in a
    ensures Split(a + rest, sep) == [a + Split(rest, sep)[0]] + Split(rest, sep)[1..]
  {
    if |a| > 0 {
      assert (a + rest)[1..] == a[1..] + rest;
      SplitPrefix(a[1..], rest, sep);
      assert [a[0]] + (a[1..] + Split(rest, sep)[0]) == a + Split(rest, sep)[0];
    } else {
      var parts := Split(rest, sep);
      assert a + rest == rest && a + parts[0] == parts[0];
      assert parts == [parts[0]] + parts[1..];
    }
  }

  /** Splitting a join gives back the pieces, when no piece contains the separator. */
  lemma {:induction false} SplitJoin(parts: seq<string>, sep: char)
    requires |parts| >= 1
    requires forall i :: 0 <= i < |parts| ==> sep !in parts[i]
    ensures Split(Join(sep, parts), sep) == parts
  {
    if |parts| == 1 {
      SplitPrefix(parts[0], "", sep);
      assert parts[0] + "" == parts[0];
    } else {
      var tail := Join(sep, parts[1..]);
      SplitJoin(parts[1..], sep);
      assert parts[0] + [sep] + tail == parts[0] + ([sep] + tail);
      SplitPrefix(parts[0], [sep] + tail, sep);
      assert ([sep] + tail)[1..] == tail;
      assert parts[0] + "" == parts[0];
    }
  }

  /** Joining the pieces of a split gives back the string. */
  lemma {:induction false} JoinSplit(s: string, sep: char)
    ensures Join(sep, Split(s, sep)) == s
  {
    if |s| > 0 {
      var rest := Split(s[1..], sep);
      JoinSplit(s[1..], sep);
      if s[0] == sep {
        assert s == [sep] + s[1..];
      } else {
        assert s == [s[0]] + s[1..];
      }
    }
  }

  /** A join of non-empty pieces starts with the first piece's first character and ends with
      the last piece's last character. */
  lemma {:induction false} JoinEnds(sep: char, parts: seq<string>)
    requires |parts| > 0 && forall i :: 0 <= i < |parts| ==> |parts[i]| > 0
    ensures |Join(sep, parts)| > 0
    ensures Join(sep, parts)[0] == parts[0][0]
    ensures Join(sep, parts)[|Join(sep, parts)| - 1] == parts[|parts| - 1][|parts[|parts| - 1]| - 1]
  {
    if |parts| > 1 {
      JoinEnds(sep, parts[1..]);
    }
  }

  /** A join whose first piece does not start, and whose last piece does not end, with
      whitespace is its own strip. */
  lemma JoinStripUnchanged(sep: char, parts: seq<string>)
    requires |parts| > 0 && forall i :: 0 <= i < |parts| ==> |parts[i]| > 0
    requires !IsSpace(parts[0][0]) && !IsSpace(parts[|parts| - 1][|parts[|parts| - 1]| - 1])
    ensures Strip(Join(sep, parts)) == Join(sep, parts)
  {
    JoinEnds(sep, parts);
    StripUnchanged(Join(sep, parts));
  }

  /** Splitting the strip of a join gives back the pieces, when every piece is non-empty,
      free of the separator and neither starts nor ends with whitespace. */
  lemma SplitStripJoin(sep: char, parts: seq<string>)
    requires |parts| > 0
    requires forall i :: 0 <= i < |parts| ==>
      |parts[i]| > 0 && sep !in parts[i] && !IsSpace(parts[i][0]) && !IsSpace(parts[i][|parts[i]| - 1])
    ensures Split(Strip(Join(sep, parts)), sep) == parts
  {
    JoinStripUnchanged(sep, parts);
    SplitJoin(parts, sep);
  }

  /** Python's s.replace(c, ""): every occurrence of c removed. */
  function Remove(s: string, c: char): (r: string)
    ensures c !in r
    ensures |r| <= |s|
    ensures c !in s ==> r == s
  {
    if |s| == 0 then ""
    else (if s[0] == c then "" else [s[0]]) + Remove(s[1..], c)
  }

  function LowerChar(c: char): char {
    if 'A' <= c <= 'Z' then (c as int + 32) as char else c
  }

  /** Python's s.lower() restricted to ASCII letters. */
  function Lower(s: string): (r: string)
    ensures |r| == |s|
  {
    seq(|s|, i requires 0 <= i < |s| => LowerChar(s[i]))
  }

  predicate IsDigit(c: char) {
    '0' <= c <= '9'
  }

  predicate AllDigits(s: string) {
    forall i :: 0 <= i < |s| ==> IsDigit(s[i])
  }

  function Pow10(k: nat): (p: nat)
    ensures p >= 1
  {
    if k == 0 then 1 else 10 * Pow10(k - 1)
  }

  /** The number a string of decimal digits denotes (leading zeros allowed). */
  function DigitsValue(s: string): nat
    requires AllDigits(s)
  {
    if |s| == 0 then 0 else 10 * DigitsValue(s[..|s| - 1]) + (s[|s| - 1] as int - '0' as int)
  }

  function DigitChar(d: nat): (c: char)
    requires d < 10
    ensures IsDigit(c) && c as int - '0' as int == d
  {
    ('0' as int + d) as char
  }

  lemma DigitsValueSnoc(a: string, c: char)
    requires AllDigits(a) && IsDigit(c)
    ensures AllDigits(a + [c])
    ensures DigitsValue(a + [c]) == 10 * DigitsValue(a) + (c as int - '0' as int)
  {
    assert (a + [c])[..|a + [c]| - 1] == a;
  }

  /** The decimal digits of n, without leading zeros: str(n) for n >= 0. */
  function NatToDigits(n: nat): (s: string)
    ensures |s| > 0 && AllDigits(s) && DigitsValue(s) == n
    ensures s[0] == '0' ==> n == 0
  {
    if n < 10 then
      [DigitChar(n)]
    else
      var s := NatToDigits(n / 10) + [DigitChar(n % 10)];
      DigitsValueSnoc(NatToDigits(n / 10), DigitChar(n % 10));
      s
  }

  /** Python's str(i) for an integer. */
  function FormatInt(i: int): (s: string)
    ensures |s| > 0 && !IsSpace(s[0]) && IsDigit(s[|s| - 1])
    ensures forall k :: 0 <= k < |s| ==> IsDigit(s[k]) || (k == 0 && s[k] == '-')
  {
    if i < 0 then "-" + NatToDigits(-i) else NatToDigits(i)
  }

  /** Python's int(s) for base 10: optional surrounding whitespace, an optional sign, then one
      or more digits. */
  function ParseInt(s: string): (r: Option<int>)
    ensures r.Some? ==> |Strip(s)| > 0
  {
    var t := Strip(s);
    if |t| >= 2 && (t[0] == '-' || t[0] == '+') && AllDigits(t[1..]) then
      var v: int := DigitsValue(t[1..]);
      Some(if t[0] == '-' then -v else v)
    else if |t| >= 1 && AllDigits(t) then
      Some(DigitsValue(t))
    else
      None
  }

  /** int() reads a string of digits as the number it denotes. */
  lemma ParseDigitString(d: string)
    requires |d| > 0 && AllDigits(d)
    ensures ParseInt(d) == Some(DigitsValue(d) as int)
  {
    StripUnchanged(d);
  }

  /** int() reads a minus sign followed by digits as the negated number. */
  lemma ParseNegatedDigitString(d: string)
    requires |d| > 0 && AllDigits(d)
    ensures ParseInt("-" + d) == Some(0 - DigitsValue(d))
  {
    StripUnchanged("-" + d);
    assert ("-" + d)[1..] == d;
  }

  /** int() inverts str() on integers. */
  lemma ParseFormatInt(i: int)
    ensures ParseInt(FormatInt(i)) == Some(i)
  {
    var s := FormatInt(i);
    StripUnchanged(s);
    if i < 0 {
      assert s[1..] == NatToDigits(-i);
    }
  }
}
