/** Calendar months, the only part of Python's datetime that the ledger uses, and their
    "month/year" text form. */
module Calendar {
  import opened Results
  import opened Text

  datatype YearMonth = YearMonth(year: int, month: int)

  /** The months datetime(year, month, 1) accepts. */
  predicate Valid(t: YearMonth) {
    1 <= t.year <= 9999 && 1 <= t.month <= 12
  }

  /** f"{t.month}/{t.year}", the label of a month block and a token of an unpaid-months cell. */
  function FormatMonthYear(t: YearMonth): (s: string)
    ensures |s| > 0 && !IsSpace(s[0]) && IsDigit(s[|s| - 1])
    ensures ',' !in s
  {
    FormatInt(t.month) + "/" + FormatInt(t.year)
  }

  /** _parseMonthYearString: split at "/", the second piece is the year and the first the
      month; a missing piece, a non-integer piece or a month datetime rejects is an error. */
  function ParseMonthYearString(s: string): (r: Result<YearMonth>)
    ensures r.Ok? ==> Valid(r.value)
    ensures r.Err? ==> r == Err(Malformed)
  {
    var pieces := Split(s, '/');
    if |pieces| < 2 then Err(Malformed)
    else
      match (ParseInt(pieces[1]), ParseInt(pieces[0]))
      case (Some(y), Some(m)) =>
        if Valid(YearMonth(y, m)) then Ok(YearMonth(y, m)) else Err(Malformed)
      case _ => Err(Malformed)
  }

  /** What _parseMonthYearString reads: it succeeds exactly when there are two pieces around
      "/" that int() reads and that name a month datetime accepts, and the month it returns has
      the second piece as its year and the first as its month. */
  lemma ParseMonthYearStringPieces(s: string)
    ensures |Split(s, '/')| < 2 ==> ParseMonthYearString(s).Err?
    ensures ParseMonthYearString(s).Ok? ==>
      && |Split(s, '/')| >= 2
      && ParseInt(Split(s, '/')[1]) == Some(ParseMonthYearString(s).value.year)
      && ParseInt(Split(s, '/')[0]) == Some(ParseMonthYearString(s).value.month)
    ensures
      (&& |Split(s, '/')| >= 2
       && ParseInt(Split(s, '/')[1]).Some?
       && ParseInt(Split(s, '/')[0]).Some?
       && Valid(YearMonth(ParseInt(Split(s, '/')[1]).value, ParseInt(Split(s, '/')[0]).value)))
      ==> ParseMonthYearString(s).Ok?
  {
  }

  /** Parsing the label of a month gives the month back. */
  lemma ParseFormatMonthYear(t: YearMonth)
    requires Valid(t)
    ensures ParseMonthYearString(FormatMonthYear(t)) == Ok(t)
  {
    var m, y := FormatInt(t.month), FormatInt(t.year);
    assert '/' !in m && '/' !in y;
    assert FormatMonthYear(t) == Join('/', [m, y]);
    SplitJoin([m, y], '/');
    ParseFormatInt(t.month);
    ParseFormatInt(t.year);
  }

  /** Distinct months have distinct labels. */
  lemma FormatMonthYearInjective(a: YearMonth, b: YearMonth)
    requires Valid(a) && Valid(b) && FormatMonthYear(a) == FormatMonthYear(b)
    ensures a == b
  {
    ParseFormatMonthYear(a);
    ParseFormatMonthYear(b);
  }
}
