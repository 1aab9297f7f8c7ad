/** The part of Python's datetime.date that get_monthly_charges relies on: a date, its day
    number (date.toordinal, day 1 being 1 January of year 1) and the calendar months. Python
    orders dates and adds timedeltas through the day number; this module proves that the day
    number follows the calendar, so that a window of day numbers is a window of dates. */
module Dates {
  import opened Calendar

  datatype Date = Date(year: int, month: int, day: int)

  /** The Gregorian leap years. */
  predicate IsLeap(y: int) {
    y % 4 == 0 && (y % 100 != 0 || y % 400 == 0)
  }

  function DaysInMonth(y: int, m: int): (n: int)
    requires 1 <= m <= 12
    ensures 28 <= n <= 31
  {
    if m == 2 then (if IsLeap(y) then 29 else 28)
    else if m == 4 || m == 6 || m == 9 || m == 11 then 30
    else 31
  }

  /** The dates datetime.date accepts. */
  predicate ValidDate(d: Date) {
    1 <= d.year <= 9999 && 1 <= d.month <= 12 && 1 <= d.day <= DaysInMonth(d.year, d.month)
  }

  type PyDate = d: Date | ValidDate(d) witness Date(1, 1, 1)

  /** Days before the first of each month in a year that is not a leap year. */
  const DAYS_BEFORE_MONTH: seq<int> := [0, 31, 59, 90, 120, 151, 181, 212, 243, 273, 304, 334]

  function DaysBeforeMonth(y: int, m: int): int
    requires 1 <= m <= 12
  {
    DAYS_BEFORE_MONTH[m - 1] + (if m > 2 && IsLeap(y) then 1 else 0)
  }

  /** Days in the years before year y. */
  function DaysBeforeYear(y: int): int {
    var p := y - 1;
    p * 365 + p / 4 - p / 100 + p / 400
  }

  /** date.toordinal(). */
  function Ordinal(d: PyDate): int {
    DaysBeforeYear(d.year) + DaysBeforeMonth(d.year, d.month) + d.day
  }

  function MonthOf(d: PyDate): YearMonth {
    YearMonth(d.year, d.month)
  }

  /** date(t.year, t.month, 1). */
  function FirstDay(t: YearMonth): PyDate
    requires Valid(t)
  {
    Date(t.year, t.month, 1)
  }

  /** The day number of the first of a month. */
  function MonthStart(t: YearMonth): int
    requires Valid(t)
  {
    Ordinal(FirstDay(t))
  }

  /** Months counted from January of year 0, so that consecutive months differ by one. */
  function MonthIndex(t: YearMonth): int {
    12 * t.year + t.month - 1
  }

  function NextMonth(t: YearMonth): (n: YearMonth)
    ensures MonthIndex(n) == MonthIndex(t) + 1
  {
    if t.month == 12 then YearMonth(t.year + 1, 1) else YearMonth(t.year, t.month + 1)
  }

  function PrevMonth(t: YearMonth): (p: YearMonth)
    ensures MonthIndex(p) == MonthIndex(t) - 1
  {
    if t.month == 1 then YearMonth(t.year - 1, 12) else YearMonth(t.year, t.month - 1)
  }

  // ------------------------------------------------------------------ day numbers

  /** One more day bumps the count of multiples of k exactly when it lands on one. */
  lemma QuarterStep(q: int)
    ensures (q + 1) / 4 == q / 4 + (if (q + 1) % 4 == 0 then 1 else 0)
  {
  }

  lemma CenturyStep(q: int)
    ensures (q + 1) / 100 == q / 100 + (if (q + 1) % 100 == 0 then 1 else 0)
  {
  }

  lemma QuadCenturyStep(q: int)
    ensures (q + 1) / 400 == q / 400 + (if (q + 1) % 400 == 0 then 1 else 0)
  {
  }

  /** A year is 365 days long, 366 in a leap year. */
  lemma YearLength(y: int)
    ensures DaysBeforeYear(y + 1) == DaysBeforeYear(y) + 365 + (if IsLeap(y) then 1 else 0)
  {
    QuarterStep(y - 1);
    CenturyStep(y - 1);
    QuadCenturyStep(y - 1);
  }

  /** The first of the next month comes as many days after the first of a month as the
      month is long. */
  lemma NextMonthStart(t: YearMonth)
    requires Valid(t) && Valid(NextMonth(t))
    ensures MonthStart(NextMonth(t)) == MonthStart(t) + DaysInMonth(t.year, t.month)
  {
    if t.month == 12 {
      YearLength(t.year);
    }
  }

  /** A later month starts at least a whole month after an earlier one. */
  lemma {:induction false} MonthStartsAfter(a: YearMonth, b: YearMonth)
    requires Valid(a) && Valid(b) && MonthIndex(a) < MonthIndex(b)
    ensures MonthStart(b) >= MonthStart(a) + DaysInMonth(a.year, a.month)
    decreases MonthIndex(b) - MonthIndex(a)
  {
    var p := PrevMonth(b);
    assert NextMonth(p) == b;
    assert Valid(p);
    NextMonthStart(p);
    if MonthIndex(p) > MonthIndex(a) {
      MonthStartsAfter(a, p);
    } else {
      assert p == a;
    }
  }

  /** Distinct months have distinct indices. */
  lemma MonthIndexInjective(a: YearMonth, b: YearMonth)
    requires 1 <= a.month <= 12 && 1 <= b.month <= 12 && MonthIndex(a) == MonthIndex(b)
    ensures a == b
  {
  }

  /** The first of January of year 1 is day 1; every other month has a month before it. */
  lemma FirstMonthStart(t: YearMonth)
    requires Valid(t)
    ensures t.year == 1 && t.month == 1 ==> MonthStart(t) == 1
    ensures (t.year == 1 && t.month == 1) || Valid(PrevMonth(t))
  {
  }

  /** A date's day number counts on from the first of its month. */
  lemma OrdinalInMonth(d: PyDate)
    ensures Ordinal(d) == MonthStart(MonthOf(d)) + d.day - 1
  {
  }

  /** A date in an earlier month comes before the first of a month. */
  lemma DateBefore(d: PyDate, t: YearMonth)
    requires Valid(t) && MonthIndex(MonthOf(d)) < MonthIndex(t)
    ensures Ordinal(d) < MonthStart(t)
  {
    MonthStartsAfter(MonthOf(d), t);
  }

  /** A date in a later month comes after the last day of a month. */
  lemma DateAfter(d: PyDate, t: YearMonth)
    requires Valid(t) && MonthIndex(MonthOf(d)) > MonthIndex(t)
    ensures Ordinal(d) >= MonthStart(t) + DaysInMonth(t.year, t.month)
  {
    MonthStartsAfter(t, MonthOf(d));
  }

  /** Python compares dates by their day numbers, which agree with the calendar order: year,
      then month, then day. */
  lemma OrdinalOrder(a: PyDate, b: PyDate)
    ensures Ordinal(a) < Ordinal(b) <==>
      a.year < b.year || (a.year == b.year && (a.month < b.month || (a.month == b.month && a.day < b.day)))
  {
    if MonthIndex(MonthOf(a)) < MonthIndex(MonthOf(b)) {
      DateBefore(a, MonthOf(b));
    } else if MonthIndex(MonthOf(a)) > MonthIndex(MonthOf(b)) {
      DateAfter(a, MonthOf(b));
    }
  }

  /** A window of day numbers that starts on the first of a month and ends n days later,
      within the month, holds exactly the month's first n + 1 days. */
  lemma MonthWindow(d: PyDate, t: YearMonth, n: int)
    requires Valid(t) && 0 <= n < 28
    ensures MonthStart(t) <= Ordinal(d) <= MonthStart(t) + n <==> MonthOf(d) == t && d.day <= n + 1
  {
    if MonthIndex(MonthOf(d)) < MonthIndex(t) {
      DateBefore(d, t);
    } else if MonthIndex(MonthOf(d)) > MonthIndex(t) {
      DateAfter(d, t);
    } else {
      MonthIndexInjective(MonthOf(d), t);
      OrdinalInMonth(d);
    }
  }

  /** A window of day numbers from n days before the first of a month to n days after it
      holds exactly the month's first n + 1 days and the last n days of the month before. */
  lemma StraddleWindow(d: PyDate, t: YearMonth, n: int)
    requires Valid(t) && Valid(PrevMonth(t)) && 0 <= n < 28
    ensures MonthStart(t) - n <= Ordinal(d) <= MonthStart(t) + n <==>
      (MonthOf(d) == t && d.day <= n + 1) ||
      (MonthOf(d) == PrevMonth(t) && d.day > DaysInMonth(d.year, d.month) - n)
  {
    var p := PrevMonth(t);
    assert NextMonth(p) == t;
    NextMonthStart(p);
    if MonthIndex(MonthOf(d)) < MonthIndex(p) {
      DateBefore(d, p);
    } else if MonthIndex(MonthOf(d)) > MonthIndex(t) {
      DateAfter(d, t);
    } else if MonthIndex(MonthOf(d)) == MonthIndex(p) {
      MonthIndexInjective(MonthOf(d), p);
      OrdinalInMonth(d);
    } else {
      MonthIndexInjective(MonthOf(d), t);
      OrdinalInMonth(d);
    }
  }
}
