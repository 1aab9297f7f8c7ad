/** get_monthly_charges of app/getRents.py: from the recent charges of the apartment, the
    electricity and the internet accounts, the rent and the utilities billed for a month. The
    apartment's charges dated from the 1st to the 28th of the month count; the largest of
    them is the rent and the rest are utilities, together with the electricity charges dated
    within a week either side of the 1st and every internet charge. */
module Charges {
  import opened Results
  import opened Calendar
  import opened Dates

  /** A row of a RecentCharges frame, its date and its charge_cents column. */
  datatype Charge = Charge(date: PyDate, chargeCents: int)

  datatype MonthlyCharges = MonthlyCharges(rentCents: int, utilitiesCents: int)

  /** The rows whose date lies between two day numbers, bounds included, in frame order:
      the mask frame.loc[(lo <= frame.date) & (frame.date <= hi)]. */
  function Within(cs: seq<Charge>, lo: int, hi: int): (r: seq<Charge>)
    ensures |r| <= |cs|
    ensures forall c :: c in r <==> c in cs && lo <= Ordinal(c.date) <= hi
  {
    if |cs| == 0 then []
    else
      var last := cs[|cs| - 1];
      Within(cs[..|cs| - 1], lo, hi) + (if lo <= Ordinal(last.date) <= hi then [last] else [])
  }

  /** column.sum(): 0 for no rows. */
  function Total(cs: seq<Charge>): int {
    if |cs| == 0 then 0 else Total(cs[..|cs| - 1]) + cs[|cs| - 1].chargeCents
  }

  /** column.max() of a column with at least one row. */
  function Largest(cs: seq<Charge>): (m: int)
    requires |cs| > 0
    ensures forall c :: c in cs ==> c.chargeCents <= m
    ensures exists c :: c in cs && c.chargeCents == m
  {
    if |cs| == 1 then cs[0].chargeCents
    else
      var init := cs[..|cs| - 1];
      var m := Largest(init);
      var last := cs[|cs| - 1];
      assert forall c :: c in cs ==> c in init || c == last;
      if last.chargeCents > m then last.chargeCents else m
  }

  /** The apartment's window: from the 1st to the 28th of the month. */
  function RentWindow(apartment: seq<Charge>, month: YearMonth): seq<Charge>
    requires Valid(month)
  {
    var end: PyDate := Date(month.year, month.month, 28);
    Within(apartment, MonthStart(month), Ordinal(end))
  }

  /** Whether start - timedelta(days=7) is a date: it is not for January of year 1. */
  predicate WeekBeforeExists(month: YearMonth)
    requires Valid(month)
  {
    MonthStart(month) - 7 >= 1
  }

  /** The electricity window: a week either side of the 1st of the month. */
  function ElectricityWindow(electricity: seq<Charge>, month: YearMonth): seq<Charge>
    requires Valid(month)
  {
    Around(electricity, MonthStart(month))
  }

  /** The rows dated up to a week either side of a day number. */
  function Around(cs: seq<Charge>, centre: int): seq<Charge> {
    Within(cs, centre - 7, centre + 7)
  }

  /** The amounts from the rows of the two windows and the internet frame: the largest
      apartment charge is the rent, the other apartment charges, the electricity charges and
      the internet charges are utilities. No apartment row makes the maximum NaN, which int()
      refuses. */
  function FromWindows(apartmentCharges: seq<Charge>, electricityCharges: seq<Charge>,
                       internet: seq<Charge>): (r: Result<MonthlyCharges>)
    ensures r.Err? <==> |apartmentCharges| == 0
    ensures r.Err? ==> r.error == NoCharges
  {
    if |apartmentCharges| == 0 then Err(NoCharges)
    else
      var rent := Largest(apartmentCharges);
      var utilities := Total(apartmentCharges) - rent;
      var utilities' := utilities + Total(electricityCharges);
      Ok(MonthlyCharges(rent, utilities' + Total(internet)))
  }

  /** get_monthly_charges. The month is a date whose day plays no part, so a YearMonth stands
      for it. A week before January of year 1 raises OverflowError. */
  function GetMonthlyCharges(apartment: seq<Charge>, electricity: seq<Charge>, internet: seq<Charge>,
                             month: YearMonth): (r: Result<MonthlyCharges>)
    requires Valid(month)
    ensures r.Err? <==> !WeekBeforeExists(month) || |RentWindow(apartment, month)| == 0
    ensures r.Err? ==> r.error == if WeekBeforeExists(month) then NoCharges else DateOverflow
  {
    if !WeekBeforeExists(month) then Err(DateOverflow)
    else FromWindows(RentWindow(apartment, month), ElectricityWindow(electricity, month), internet)
  }

  /** The rent is the largest apartment charge of the window. */
  lemma RentIsLargestCharge(apartment: seq<Charge>, electricity: seq<Charge>, internet: seq<Charge>,
                            month: YearMonth)
    requires Valid(month)
    requires GetMonthlyCharges(apartment, electricity, internet, month).Ok?
    ensures forall c :: c in RentWindow(apartment, month) ==>
      c.chargeCents <= GetMonthlyCharges(apartment, electricity, internet, month).value.rentCents
    ensures exists c :: (c in RentWindow(apartment, month) &&
      c.chargeCents == GetMonthlyCharges(apartment, electricity, internet, month).value.rentCents)
  {
  }

  /** Rent and utilities together are every charge of the two windows and every internet
      charge: nothing is counted twice or left out. */
  lemma ChargesAddUp(apartment: seq<Charge>, electricity: seq<Charge>, internet: seq<Charge>,
                     month: YearMonth)
    requires Valid(month)
    requires GetMonthlyCharges(apartment, electricity, internet, month).Ok?
    ensures var m := GetMonthlyCharges(apartment, electricity, internet, month).value;
      m.rentCents + m.utilitiesCents ==
        Total(RentWindow(apartment, month)) + Total(ElectricityWindow(electricity, month)) + Total(internet)
  {
  }

  // ------------------------------------------------------------------ the windows

  /** The apartment's window holds exactly the charges dated from the 1st to the 28th of the
      month itself. */
  lemma RentWindowDates(apartment: seq<Charge>, month: YearMonth, c: Charge)
    requires Valid(month)
    ensures c in RentWindow(apartment, month) <==>
      c in apartment && MonthOf(c.date) == month && c.date.day <= 28
  {
    var end: PyDate := Date(month.year, month.month, 28);
    OrdinalInMonth(end);
    MonthWindow(c.date, month, 27);
  }

  /** The electricity window holds exactly the charges dated from the 1st to the 8th of the
      month and in the last seven days of the month before. */
  lemma ElectricityWindowDates(electricity: seq<Charge>, month: YearMonth, c: Charge)
    requires Valid(month) && WeekBeforeExists(month)
    ensures Valid(PrevMonth(month))
    ensures c in ElectricityWindow(electricity, month) <==>
      c in electricity &&
      ((MonthOf(c.date) == month && c.date.day <= 8) ||
       (MonthOf(c.date) == PrevMonth(month) && c.date.day > DaysInMonth(c.date.year, c.date.month) - 7))
  {
    FirstMonthStart(month);
    StraddleWindow(c.date, month, 7);
  }

  // ------------------------------------------------------------------ the sums

  /** Filtering the rows of two frames put end to end filters each. */
  lemma {:induction false} WithinAppend(a: seq<Charge>, b: seq<Charge>, lo: int, hi: int)
    ensures Within(a + b, lo, hi) == Within(a, lo, hi) + Within(b, lo, hi)
  {
    if |b| > 0 {
      var b' := b[..|b| - 1];
      assert (a + b)[..|a + b| - 1] == a + b';
      assert (a + b)[|a + b| - 1] == b[|b| - 1];
      WithinAppend(a, b', lo, hi);
    } else {
      assert a + b == a;
    }
  }

  /** The sum of two frames put end to end. */
  lemma {:induction false} TotalAppend(a: seq<Charge>, b: seq<Charge>)
    ensures Total(a + b) == Total(a) + Total(b)
  {
    if |b| > 0 {
      var b' := b[..|b| - 1];
      assert (a + b)[..|a + b| - 1] == a + b';
      TotalAppend(a, b');
    } else {
      assert a + b == a;
    }
  }

  /** Rows none of which falls in a window, put after the others, leave it as it was. */
  lemma WithinAppendNone(a: seq<Charge>, b: seq<Charge>, lo: int, hi: int)
    requires Within(b, lo, hi) == []
    ensures Within(a + b, lo, hi) == Within(a, lo, hi)
  {
    WithinAppend(a, b, lo, hi);
    assert Within(a, lo, hi) + [] == Within(a, lo, hi);
  }

  /** The same for the rows around a day number. */
  lemma AroundAppendNone(a: seq<Charge>, b: seq<Charge>, centre: int)
    requires Around(b, centre) == []
    ensures Around(a + b, centre) == Around(a, centre)
  {
    WithinAppendNone(a, b, centre - 7, centre + 7);
  }

  /** Apartment charges none of which falls in the window leave it as it was. */
  lemma RentWindowAppend(apartment: seq<Charge>, extra: seq<Charge>, month: YearMonth)
    requires Valid(month) && RentWindow(extra, month) == []
    ensures RentWindow(apartment + extra, month) == RentWindow(apartment, month)
  {
    var end: PyDate := Date(month.year, month.month, 28);
    WithinAppendNone(apartment, extra, MonthStart(month), Ordinal(end));
  }

  /** Electricity charges none of which falls in the window leave it as it was. */
  lemma ElectricityWindowAppend(electricity: seq<Charge>, extra: seq<Charge>, month: YearMonth)
    requires Valid(month) && ElectricityWindow(extra, month) == []
    ensures ElectricityWindow(electricity + extra, month) == ElectricityWindow(electricity, month)
  {
    AroundAppendNone(electricity, extra, MonthStart(month));
  }

  /** Charges dated outside both windows change nothing: rows from other months may be in the
      frames the sites return. */
  lemma IgnoresOtherDates(apartment: seq<Charge>, extraApartment: seq<Charge>,
                          electricity: seq<Charge>, extraElectricity: seq<Charge>,
                          internet: seq<Charge>, month: YearMonth)
    requires Valid(month)
    requires RentWindow(extraApartment, month) == [] && ElectricityWindow(extraElectricity, month) == []
    ensures GetMonthlyCharges(apartment + extraApartment, electricity + extraElectricity, internet, month) ==
      GetMonthlyCharges(apartment, electricity, internet, month)
  {
    RentWindowAppend(apartment, extraApartment, month);
    ElectricityWindowAppend(electricity, extraElectricity, month);
    SameWindowsSameCharges(apartment + extraApartment, electricity + extraElectricity, apartment, electricity, internet, month);
  }

  /** The computation sees the frames only through their windows. */
  lemma SameWindowsSameCharges(a1: seq<Charge>, e1: seq<Charge>, a2: seq<Charge>, e2: seq<Charge>,
                               internet: seq<Charge>, month: YearMonth)
    requires Valid(month)
    requires RentWindow(a1, month) == RentWindow(a2, month)
    requires ElectricityWindow(e1, month) == ElectricityWindow(e2, month)
    ensures GetMonthlyCharges(a1, e1, internet, month) == GetMonthlyCharges(a2, e2, internet, month)
  {
  }

  /** With no negative charge, a column sums to at least its maximum. */
  lemma {:induction false} TotalAtLeastLargest(cs: seq<Charge>)
    requires |cs| > 0
    requires forall c :: c in cs ==> c.chargeCents >= 0
    ensures Total(cs) >= Largest(cs)
  {
    if |cs| > 1 {
      var init := cs[..|cs| - 1];
      assert forall c :: c in init ==> c in cs;
      TotalAtLeastLargest(init);
      TotalNonNegative(init);
    }
  }

  /** With no negative charge, a column sums to at least zero. */
  lemma {:induction false} TotalNonNegative(cs: seq<Charge>)
    requires forall c :: c in cs ==> c.chargeCents >= 0
    ensures Total(cs) >= 0
  {
    if |cs| > 0 {
      var init := cs[..|cs| - 1];
      assert forall c :: c in init ==> c in cs;
      TotalNonNegative(init);
    }
  }

  /** Without refunds or credits, the utilities are never negative. */
  lemma UtilitiesNonNegative(apartment: seq<Charge>, electricity: seq<Charge>, internet: seq<Charge>,
                             month: YearMonth)
    requires Valid(month)
    requires GetMonthlyCharges(apartment, electricity, internet, month).Ok?
    requires forall c :: c in apartment ==> c.chargeCents >= 0
    requires forall c :: c in electricity ==> c.chargeCents >= 0
    requires forall c :: c in internet ==> c.chargeCents >= 0
    ensures GetMonthlyCharges(apartment, electricity, internet, month).value.utilitiesCents >= 0
  {
    var w := RentWindow(apartment, month);
    TotalAtLeastLargest(w);
    TotalNonNegative(ElectricityWindow(electricity, month));
    TotalNonNegative(internet);
  }
}
