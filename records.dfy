/** The typed records the ledger keeps in the sheet (app/sheet.py:16-57): a month block's line
    items and totals, and the roster of current tenants with their stay schedules. */
module Records {
  import opened Numbers
  import opened Calendar
  import opened Layout
  import opened Dicts

  /** One line item of a month block. */
  datatype MonthlyTenant = MonthlyTenant(name: string, weeksStayed: Decimal, isPaid: bool)

  /** One month block; tenants is the dictionary of line items keyed by name. */
  datatype MonthData = MonthData(
    year: int, month: int, totalRent: Decimal, totalUtility: Decimal, tenants: seq<MonthlyTenant>)

  /** How long a tenant is assumed to stay in a month that has just been created. */
  datatype StaySchedule = FULLTIME | HALFTIME | IRREGULAR

  /** One roster entry: the months the tenant still owes for, and their schedule. */
  datatype CurrentTenant = CurrentTenant(name: string, monthsUnpaid: seq<YearMonth>, staySchedule: StaySchedule)

  /** The dictionary keys: every record is stored under its own name. */
  function LineName(t: MonthlyTenant): string { t.name }
  function RosterName(t: CurrentTenant): string { t.name }

  function TimeOf(m: MonthData): YearMonth {
    YearMonth(m.year, m.month)
  }

  /** initialWeeksStayed: four weeks for a full-time tenant, two for a half-time one, none for
      an irregular one. */
  function InitialWeeksStayed(s: StaySchedule): Decimal {
    match s
    case FULLTIME => Decimal(4, 0)
    case HALFTIME => Decimal(2, 0)
    case IRREGULAR => Decimal(0, 0)
  }

  /** A dictionary of line items that the sheet can hold and read back: every name non-empty
      (an empty first cell ends the list), names distinct, at most MAX_USERS of them. */
  predicate WellFormedLines(ts: seq<MonthlyTenant>) {
    && (forall i :: 0 <= i < |ts| ==> ts[i].name != "")
    && UniqueKeys(ts, LineName)
    && |ts| <= MAX_USERS
  }

  /** The same for the roster, whose unpaid months must also be real months. */
  predicate WellFormedRoster(ts: seq<CurrentTenant>) {
    && (forall i :: 0 <= i < |ts| ==> ts[i].name != "")
    && (forall i, k :: 0 <= i < |ts| && 0 <= k < |ts[i].monthsUnpaid| ==> Valid(ts[i].monthsUnpaid[k]))
    && UniqueKeys(ts, RosterName)
    && |ts| <= MAX_USERS
  }

  /** The roster as it reads back once written: each tenant's unpaid months collected as a
      set, each month once. */
  function Canonical(ts: seq<CurrentTenant>): (r: seq<CurrentTenant>)
    ensures |r| == |ts|
    ensures forall i :: 0 <= i < |ts| ==> r[i].name == ts[i].name && r[i].staySchedule == ts[i].staySchedule
    ensures forall i :: 0 <= i < |ts| ==> r[i].monthsUnpaid == Dedup(ts[i].monthsUnpaid)
  {
    seq(|ts|, i requires 0 <= i < |ts| => ts[i].(monthsUnpaid := Dedup(ts[i].monthsUnpaid)))
  }

  /** Collecting the unpaid months as sets keeps the names distinct. */
  lemma CanonicalUnique(ts: seq<CurrentTenant>)
    requires UniqueKeys(ts, RosterName)
    ensures UniqueKeys(Canonical(ts), RosterName)
  {
    var cs := Canonical(ts);
    forall i, j | 0 <= i < j < |cs| ensures RosterName(cs[i]) != RosterName(cs[j]) {
      assert RosterName(ts[i]) != RosterName(ts[j]);
    }
  }

  /** Assigning a line item with a non-empty name keeps the line items well formed, as long as
      the name is already there or there is room for one more. */
  lemma LinesPutWellFormed(ts: seq<MonthlyTenant>, x: MonthlyTenant)
    requires WellFormedLines(ts) && x.name != ""
    requires x.name in Keys(ts, LineName) || |ts| < MAX_USERS
    ensures WellFormedLines(Put(ts, LineName, x))
  {
    var r := Put(ts, LineName, x);
    PutUnique(ts, LineName, x);
    PutKeys(ts, LineName, x);
    forall i | 0 <= i < |r| ensures r[i].name != "" {
      assert r[i] in r;
    }
  }

  /** Deleting a line item keeps the line items well formed. */
  lemma LinesDelWellFormed(ts: seq<MonthlyTenant>, k: string)
    requires WellFormedLines(ts)
    ensures WellFormedLines(Del(ts, LineName, k))
  {
    var r := Del(ts, LineName, k);
    DelUnique(ts, LineName, k);
    forall i | 0 <= i < |r| ensures r[i].name != "" {
      assert r[i] in r;
    }
  }

  /** Assigning a roster entry with a non-empty name and real months keeps the roster well
      formed, as long as the name is already there or there is room for one more. */
  lemma RosterPutWellFormed(ts: seq<CurrentTenant>, x: CurrentTenant)
    requires WellFormedRoster(ts) && x.name != ""
    requires forall k :: 0 <= k < |x.monthsUnpaid| ==> Valid(x.monthsUnpaid[k])
    requires x.name in Keys(ts, RosterName) || |ts| < MAX_USERS
    ensures WellFormedRoster(Put(ts, RosterName, x))
  {
    var r := Put(ts, RosterName, x);
    PutUnique(ts, RosterName, x);
    PutKeys(ts, RosterName, x);
    forall i | 0 <= i < |r|
      ensures r[i].name != "" && forall k :: 0 <= k < |r[i].monthsUnpaid| ==> Valid(r[i].monthsUnpaid[k])
    {
      assert r[i] in r;
    }
  }

  /** Deleting a roster entry keeps the roster well formed. */
  lemma RosterDelWellFormed(ts: seq<CurrentTenant>, k: string)
    requires WellFormedRoster(ts)
    ensures WellFormedRoster(Del(ts, RosterName, k))
  {
    var r := Del(ts, RosterName, k);
    DelUnique(ts, RosterName, k);
    forall i | 0 <= i < |r|
      ensures r[i].name != "" && forall m :: 0 <= m < |r[i].monthsUnpaid| ==> Valid(r[i].monthsUnpaid[m])
    {
      assert r[i] in r;
    }
  }
}
