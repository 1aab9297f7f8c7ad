/** The record codec of app/sheet.py: reading records out of the rows that get_all_values
    returns, and the batch_update writes that put records back. Every row index here is
    0-based; BlockIndex(epoch, t) is the index of month t's label row. */
module Codec {
  import opened Results
  import opened Text
  import opened Numbers
  import opened Calendar
  import opened Layout
  import opened Grid
  import opened Regions
  import opened Dicts
  import opened Records
  import opened Seqs

  // ------------------------------------------------------------------ cells

  /** str(b): how a Python bool is written into a cell. */
  function FormatBool(b: bool): string {
    if b then "True" else "False"
  }

  /** _toBool: a paid cell means true exactly when it reads "true" in any letter case. */
  predicate ToBool(cell: string) {
    Lower(cell) == "true"
  }

  /** A written paid flag reads back as itself. */
  lemma ToBoolFormatBool(b: bool)
    ensures ToBool(FormatBool(b)) == b
  {
    if b {
      assert Lower("True") == "true";
    } else {
      assert |Lower("False")| != |"true"|;
    }
  }

  /** Letter case does not matter, and nothing else reads as true, not even padded text. */
  lemma ToBoolCases()
    ensures ToBool("TRUE") && ToBool("tRuE")
    ensures !ToBool(" true") && !ToBool("yes") && !ToBool("")
  {
    assert Lower("TRUE") == "true";
    assert Lower("tRuE") == "true";
    assert Lower(" true")[0] == ' ';
    assert |Lower("yes")| == 3;
  }

  /** _toFloat: every comma is dropped, then the rest must read as a number. */
  function ToFloat(cell: string): (r: Result<Decimal>)
    ensures r.Ok? <==> ParseFloat(Remove(cell, ',')).Some?
    ensures r.Err? ==> r.error == Malformed
  {
    var parsed := ParseFloat(Remove(cell, ','));
    if parsed.Some? then Ok(parsed.value) else Err(Malformed)
  }

  /** A written number reads back exactly. */
  lemma ToFloatFormatDecimal(d: Decimal)
    ensures ToFloat(FormatDecimal(d)) == Ok(d)
  {
    ParseFormatDecimal(d);
  }

  /** Thousands separators make no difference. */
  lemma ToFloatIgnoresCommas(cell: string)
    ensures ToFloat(cell) == ToFloat(Remove(cell, ','))
  {
  }

  /** A cell showing a written number with thousands separators inserted anywhere, such as
      "1,697.20" (test.py:106-131), reads as that number. */
  lemma ToFloatGrouped(cell: string, d: Decimal)
    requires Remove(cell, ',') == FormatDecimal(d)
    ensures ToFloat(cell) == Ok(d)
  {
    ParseFormatDecimal(d);
  }

  // ------------------------------------------------------------------ month blocks: reading

  /** One line-item row: the name, weeks stayed and paid cells. Further cells are ignored;
      fewer than three cells is an error (the unpacking in _getTenantsFromMonthRows). */
  function TenantFromRow(row: Row): (r: Result<MonthlyTenant>)
    ensures r.Ok? ==> |row| >= 3 && r.value.name == row[0] && r.value.isPaid == ToBool(row[2])
    ensures r.Err? ==> r.error == Malformed
  {
    if |row| < 3 then Err(Malformed)
    else
      var weeks :- ToFloat(row[1]);
      Ok(MonthlyTenant(row[0], weeks, ToBool(row[2])))
  }

  /** _getTenantsFromMonthRows: each row's record is assigned under its name, in row order. */
  function TenantsFromMonthRows(rows: seq<Row>): (r: Result<seq<MonthlyTenant>>)
    ensures r.Err? ==> r.error == Malformed
    ensures r.Ok? ==> UniqueKeys(r.value, LineName) && |r.value| <= |rows|
  {
    DecodeAllErr(rows, TenantFromRow, LineName);
    DecodeAll(rows, TenantFromRow, LineName)
  }

  /** The loop of _getTenantsFromMonthRows. */
  method GetTenantsFromMonthRows(tenantRows: seq<Row>) returns (r: Result<seq<MonthlyTenant>>)
    ensures r == TenantsFromMonthRows(tenantRows)
  {
    var tenants: seq<MonthlyTenant> := [];
    for k := 0 to |tenantRows|
      invariant DecodeAll(tenantRows[..k], TenantFromRow, LineName) == Ok(tenants)
    {
      assert tenantRows[..k + 1][..k] == tenantRows[..k];
      var t := TenantFromRow(tenantRows[k]);
      if t.Err? {
        DecodeAllOk(tenantRows, TenantFromRow, LineName);
        return Err(Malformed);
      }
      tenants := Put(tenants, LineName, t.value);
    }
    assert tenantRows[..|tenantRows|] == tenantRows;
    return Ok(tenants);
  }

  /** _monthDataExists: the month's label row lies inside the grid and holds data. */
  predicate MonthDataExists(allRows: Rows, epoch: YearMonth, t: YearMonth)
    requires Addressable(epoch, t)
  {
    BlockIndex(epoch, t) < |allRows| && HasData(allRows[BlockIndex(epoch, t)])
  }

  /** A total: the second cell of row r read as a number. */
  function TotalAt(allRows: Rows, r: nat): (v: Result<Decimal>)
    ensures v.Ok? ==> r < |allRows| && |allRows[r]| > 1 && ToFloat(allRows[r][1]) == v
    ensures v.Err? ==> v.error == Malformed
  {
    var cell :- At(allRows, r, 1);
    ToFloat(cell)
  }

  /** The record of month t whose label row is at index top: the totals from the second cells
      of the next two rows and the line items from the run of rows after the header. */
  function BlockRecord(allRows: Rows, top: nat, t: YearMonth): (r: Result<MonthData>)
    ensures r.Ok? ==> TimeOf(r.value) == t && UniqueKeys(r.value.tenants, LineName)
    ensures r.Ok? ==> |r.value.tenants| <= |DataRows(allRows, top + 4)|
    ensures r.Err? ==> r.error == Malformed
  {
    var totalRent :- TotalAt(allRows, top + 1);
    var totalUtility :- TotalAt(allRows, top + 2);
    var tenants :- TenantsFromMonthRows(DataRows(allRows, top + 4));
    Ok(MonthData(t.year, t.month, totalRent, totalUtility, tenants))
  }

  /** _getMonthBlockData: no block when the label row is empty, otherwise the block's record. */
  function MonthBlockData(allRows: Rows, epoch: YearMonth, t: YearMonth): (r: Result<Option<MonthData>>)
    requires Addressable(epoch, t)
    ensures r == Ok(None) <==> !MonthDataExists(allRows, epoch, t)
    ensures r.Err? ==> r.error == Malformed
    ensures r.Ok? && r.value.Some? ==>
      && TimeOf(r.value.value) == t
      && UniqueKeys(r.value.value.tenants, LineName)
      && |r.value.value.tenants| <= |DataRows(allRows, BlockIndex(epoch, t) + 4)|
  {
    if !MonthDataExists(allRows, epoch, t) then Ok(None)
    else
      var m :- BlockRecord(allRows, BlockIndex(epoch, t), t);
      Ok(Some(m))
  }

  /** A month read as a record has the line items decoded from the run after its header. */
  lemma MonthBlockTenants(allRows: Rows, epoch: YearMonth, t: YearMonth)
    requires Addressable(epoch, t)
    ensures MonthBlockData(allRows, epoch, t).Ok? && MonthBlockData(allRows, epoch, t).value.Some? ==>
      TenantsFromMonthRows(DataRows(allRows, BlockIndex(epoch, t) + 4)) == Ok(MonthBlockData(allRows, epoch, t).value.value.tenants)
  {
  }

  // ------------------------------------------------------------------ roster: reading

  /** StaySchedule(cell), with the ValueError of an unknown value caught as FULLTIME. */
  function ScheduleFromCell(cell: string): (s: StaySchedule)
    ensures s == HALFTIME <==> cell == "HALFTIME"
    ensures s == IRREGULAR <==> cell == "IRREGULAR"
  {
    if cell == "HALFTIME" then HALFTIME
    else if cell == "IRREGULAR" then IRREGULAR
    else FULLTIME
  }

  /** The enum's value, as written into the schedule cell. */
  function ScheduleValue(s: StaySchedule): string {
    match s
    case FULLTIME => "FULLTIME"
    case HALFTIME => "HALFTIME"
    case IRREGULAR => "IRREGULAR"
  }

  /** A written schedule reads back as itself, and anything that is not one of the three
      values reads as FULLTIME. */
  lemma ScheduleRoundTrip(s: StaySchedule, cell: string)
    ensures ScheduleFromCell(ScheduleValue(s)) == s
    ensures cell !in {"FULLTIME", "HALFTIME", "IRREGULAR"} ==> ScheduleFromCell(cell) == FULLTIME
  {
  }

  /** The months of the comma-separated pieces of an unpaid-months cell, in order; empty
      pieces are skipped, any other piece must be a month. */
  function MonthsFromTokens(tokens: seq<string>): (r: Result<seq<YearMonth>>)
    ensures r.Ok? ==> forall k :: 0 <= k < |r.value| ==> Valid(r.value[k])
    ensures r.Ok? ==> |r.value| <= |tokens|
    ensures (forall k :: 0 <= k < |tokens| ==> tokens[k] == "") ==> r == Ok([])
    ensures r.Err? ==> r.error == Malformed
  {
    if |tokens| == 0 then Ok([])
    else
      var init := tokens[..|tokens| - 1];
      assert forall k :: 0 <= k < |init| ==> init[k] == tokens[k];
      var months :- MonthsFromTokens(init);
      var last := tokens[|tokens| - 1];
      if last == "" then Ok(months)
      else
        var m :- ParseMonthYearString(last);
        Ok(months + [m])
  }

  /** The pieces of an unpaid-months cell: str(cell).strip().split(","). */
  function MonthTokens(cell: string): seq<string> {
    Split(Strip(cell), ',')
  }

  /** _getCurrentTenant: the name, the unpaid months of the second cell and the schedule of
      the third; a missing cell is an IndexError, a bad month a ValueError. */
  function CurrentTenantFromRow(row: Row): (r: Result<CurrentTenant>)
    ensures r.Ok? ==> |row| >= 3 && r.value.name == row[0] && r.value.staySchedule == ScheduleFromCell(row[2])
    ensures r.Ok? ==> MonthsFromTokens(MonthTokens(row[1])) == Ok(r.value.monthsUnpaid)
    ensures r.Err? ==> r.error == Malformed
  {
    if |row| < 2 then Err(Malformed)
    else
      var months :- MonthsFromTokens(MonthTokens(row[1]));
      if |row| < 3 then Err(Malformed)
      else Ok(CurrentTenant(row[0], months, ScheduleFromCell(row[2])))
  }

  /** _getCurrentTenant, with its loop over the pieces of the months cell. */
  method GetCurrentTenant(row: Row) returns (r: Result<CurrentTenant>)
    ensures r == CurrentTenantFromRow(row)
  {
    if |row| < 2 {
      return Err(Malformed);
    }
    var name := row[0];
    var monthsUnpaid: seq<YearMonth> := [];
    var timeStrings := MonthTokens(row[1]);
    for k := 0 to |timeStrings|
      invariant MonthsFromTokens(timeStrings[..k]) == Ok(monthsUnpaid)
    {
      assert timeStrings[..k + 1][..k] == timeStrings[..k];
      if timeStrings[k] != "" {
        var m := ParseMonthYearString(timeStrings[k]);
        if m.Err? {
          MonthsFromTokensPrefixError(timeStrings, k + 1);
          return Err(Malformed);
        }
        monthsUnpaid := monthsUnpaid + [m.value];
      }
    }
    assert timeStrings[..|timeStrings|] == timeStrings;
    if |row| < 3 {
      return Err(Malformed);
    }
    return Ok(CurrentTenant(name, monthsUnpaid, ScheduleFromCell(row[2])));
  }

  /** Once a prefix of the pieces fails, the whole cell fails. */
  lemma {:induction false} MonthsFromTokensPrefixError(tokens: seq<string>, k: nat)
    requires k <= |tokens| && MonthsFromTokens(tokens[..k]).Err?
    ensures MonthsFromTokens(tokens).Err?
    decreases |tokens| - k
  {
    if k < |tokens| {
      assert tokens[..k + 1][..k] == tokens[..k];
      MonthsFromTokensPrefixError(tokens, k + 1);
    } else {
      assert tokens[..k] == tokens;
    }
  }

  /** The loop of _getCurrentTenantData: each roster row's record is assigned under its name. */
  function RosterFromRows(rows: seq<Row>): (r: Result<seq<CurrentTenant>>)
    ensures r.Err? ==> r.error == Malformed
    ensures r.Ok? ==> UniqueKeys(r.value, RosterName) && |r.value| <= |rows|
  {
    DecodeAllErr(rows, CurrentTenantFromRow, RosterName);
    DecodeAll(rows, CurrentTenantFromRow, RosterName)
  }

  /** _getCurrentTenantData: the roster is the run of rows holding data from row index 1. */
  function CurrentTenantData(allRows: Rows): (r: Result<seq<CurrentTenant>>)
    ensures r.Ok? ==> UniqueKeys(r.value, RosterName) && |r.value| <= |DataRows(allRows, 1)|
    ensures r.Err? ==> r.error == Malformed
  {
    RosterFromRows(DataRows(allRows, 1))
  }

  /** _getCurrentTenantData, scanning with the loops above. */
  method GetCurrentTenantData(allRows: Rows) returns (r: Result<seq<CurrentTenant>>)
    ensures r == CurrentTenantData(allRows)
  {
    var tenantRows := GetSuccessiveDataRows(allRows, 1);
    var initialTenants: seq<CurrentTenant> := [];
    for k := 0 to |tenantRows|
      invariant DecodeAll(tenantRows[..k], CurrentTenantFromRow, RosterName) == Ok(initialTenants)
    {
      assert tenantRows[..k + 1][..k] == tenantRows[..k];
      var tenant := GetCurrentTenant(tenantRows[k]);
      if tenant.Err? {
        DecodeAllOk(tenantRows, CurrentTenantFromRow, RosterName);
        return Err(Malformed);
      }
      initialTenants := Put(initialTenants, RosterName, tenant.value);
    }
    assert tenantRows[..|tenantRows|] == tenantRows;
    return Ok(initialTenants);
  }

  // ------------------------------------------------------------------ writing

  /** The labels of a list of months. */
  function MonthLabels(ms: seq<YearMonth>): (ls: seq<string>)
    ensures |ls| == |ms| && forall k :: 0 <= k < |ms| ==> ls[k] == FormatMonthYear(ms[k])
  {
    if |ms| == 0 then [] else [FormatMonthYear(ms[0])] + MonthLabels(ms[1..])
  }

  /** The unpaid-months cell: ",".join of the set of labels, each month once. */
  function MonthsCell(ms: seq<YearMonth>): string {
    Join(',', MonthLabels(Dedup(ms)))
  }

  /** One roster row: name, unpaid months, schedule. */
  function RosterRow(t: CurrentTenant): (row: Row)
    ensures |row| == 3
  {
    [t.name, MonthsCell(t.monthsUnpaid), ScheduleValue(t.staySchedule)]
  }

  function RosterRows(ts: seq<CurrentTenant>): (rows: seq<Row>)
    ensures |rows| == |ts| && Shaped(rows, 3)
    ensures forall i :: 0 <= i < |ts| ==> rows[i] == RosterRow(ts[i])
  {
    seq(|ts|, i requires 0 <= i < |ts| => RosterRow(ts[i]))
  }

  /** _updateCurrentTenantsData: the roster from row index 1 on in three columns, and blank
      rows after it up to MAX_USERS rows. It writes nothing outside row indices 1 .. 20
      and columns A .. C. */
  function EncodeRoster(ts: seq<CurrentTenant>): (us: seq<Update>)
    ensures |ts| <= MAX_USERS ==> WithinRows(us, 1, 1 + MAX_USERS) && FitsWidth(us, 3)
  {
    var us := ListWrites(1, RosterRows(ts), 3, MAX_USERS);
    if |ts| <= MAX_USERS then
      ListWritesFrame([], 1, RosterRows(ts), 3, MAX_USERS);
      us
    else
      us
  }

  /** One line-item row: name, weeks stayed, str(isPaid). */
  function TenantRow(t: MonthlyTenant): (row: Row)
    ensures |row| == 3
  {
    [t.name, FormatDecimal(t.weeksStayed), FormatBool(t.isPaid)]
  }

  function TenantRows(ts: seq<MonthlyTenant>): (rows: seq<Row>)
    ensures |rows| == |ts| && Shaped(rows, 3)
    ensures forall i :: 0 <= i < |ts| ==> rows[i] == TenantRow(ts[i])
  {
    seq(|ts|, i requires 0 <= i < |ts| => TenantRow(ts[i]))
  }

  /** The label, the two totals and the header of a block, given the texts of the label and
      of the totals. */
  function HeaderWrites(top: nat, title: string, rent: string, utility: string): seq<Update> {
    [ Update(top, 0, [[title]]),
      Update(top + 1, 0, [["Total Rent", rent], ["Total Utility", utility]]),
      Update(top + 3, 0, [["Name", "Weeks Stayed", "Paid?"]]) ]
  }

  /** The header writes of a month block. */
  function BlockHeaderWrites(top: nat, m: MonthData): seq<Update> {
    HeaderWrites(top, FormatMonthYear(TimeOf(m)), FormatDecimal(m.totalRent), FormatDecimal(m.totalUtility))
  }

  /** The header writes stay within the block's first four rows and columns A .. C. */
  lemma HeaderWritesFrame(top: nat, title: string, rent: string, utility: string)
    ensures WithinRows(HeaderWrites(top, title, rent, utility), top, top + 4)
    ensures FitsWidth(HeaderWrites(top, title, rent, utility), 3)
  {
  }

  /** _updateMonthBlockData: label, totals, header, then the line items and blank rows up to
      MAX_USERS of them. With at most MAX_USERS line items it writes nothing outside the
      month's own block of 24 rows, and nothing beyond column C. */
  function EncodeMonthBlock(epoch: YearMonth, m: MonthData): (us: seq<Update>)
    requires Addressable(epoch, TimeOf(m))
    ensures |m.tenants| <= MAX_USERS ==>
      WithinRows(us, BlockIndex(epoch, TimeOf(m)), BlockIndex(epoch, TimeOf(m)) + MONTH_BLOCK_SIZE - 1)
    ensures FitsWidth(us, 3)
  {
    var top := BlockIndex(epoch, TimeOf(m));
    BlockWritesFrame(top, FormatMonthYear(TimeOf(m)), FormatDecimal(m.totalRent), FormatDecimal(m.totalUtility), m.tenants);
    BlockHeaderWrites(top, m) + ListWrites(top + 4, TenantRows(m.tenants), 3, MAX_USERS)
  }

  /** A block's writes at row top stay within its 24 rows when there are at most MAX_USERS
      line items, and within columns A .. C always. */
  lemma BlockWritesFrame(top: nat, title: string, rent: string, utility: string, ts: seq<MonthlyTenant>)
    ensures var us := HeaderWrites(top, title, rent, utility) + ListWrites(top + 4, TenantRows(ts), 3, MAX_USERS);
      && (|ts| <= MAX_USERS ==> WithinRows(us, top, top + MONTH_BLOCK_SIZE - 1))
      && FitsWidth(us, 3)
  {
    var header := HeaderWrites(top, title, rent, utility);
    var list := ListWrites(top + 4, TenantRows(ts), 3, MAX_USERS);
    HeaderWritesFrame(top, title, rent, utility);
    ListWritesFrameAny(top + 4, TenantRows(ts), 3, MAX_USERS);
    WithinRowsWiden(header, top, top + 4, top, top + MONTH_BLOCK_SIZE - 1);
    WithinRowsWiden(list, top + 4, top + 4 + MAX_USERS, top, top + MONTH_BLOCK_SIZE - 1);
    FramesAppend(header, list, top, top + MONTH_BLOCK_SIZE - 1, 3);
  }

  /** The list writes fit within the columns whatever the length of the list. */
  lemma ListWritesFrameAny(top: nat, items: seq<Row>, w: nat, cap: nat)
    requires Shaped(items, w) && 1 <= w
    ensures FitsWidth(ListWrites(top, items, w, cap), w)
    ensures |items| <= cap && 1 <= cap ==> WithinRows(ListWrites(top, items, w, cap), top, top + cap)
  {
  }

  // ------------------------------------------------------------------ round trips

  lemma ApplyThree(g: Rows, u0: Update, u1: Update, u2: Update)
    ensures ApplyAll(g, [u0, u1, u2]) == Apply(Apply(Apply(g, u0), u1), u2)
  {
    assert [u0, u1, u2][1..] == [u1, u2];
    assert [u1, u2][1..] == [u2];
    assert [u2][1..] == [];
    assert ApplyAll(g, [u0, u1, u2]) == ApplyAll(Apply(g, u0), [u1, u2]);
    assert ApplyAll(Apply(g, u0), [u1, u2]) == ApplyAll(Apply(Apply(g, u0), u1), [u2]);
    assert ApplyAll(Apply(Apply(g, u0), u1), [u2]) == ApplyAll(Apply(Apply(Apply(g, u0), u1), u2), []);
  }

  /** What the header writes leave behind, stated of the grid h itself: the label, the two
      totals, the column headings, every row outside the four header rows as in g, and the
      grid reaching the header row. */
  ghost predicate HeaderWritten(g: Rows, h: Rows, top: nat, title: string, rent: string, utility: string) {
    && top + 4 <= |h|
    && Cell(h, top, 0) == title
    && Cell(h, top + 1, 1) == rent
    && Cell(h, top + 2, 1) == utility
    && (forall r: nat, c: nat :: r < top || top + 4 <= r ==> Cell(h, r, c) == Cell(g, r, c))
  }

  /** The header writes leave exactly that behind. */
  lemma HeaderWritesWritten(g: Rows, top: nat, title: string, rent: string, utility: string)
    ensures HeaderWritten(g, ApplyAll(g, HeaderWrites(top, title, rent, utility)), top, title, rent, utility)
  {
    var us := HeaderWrites(top, title, rent, utility);
    var h0 := Apply(g, us[0]);
    var h1 := Apply(h0, us[1]);
    var h2 := Apply(h1, us[2]);
    ApplyThree(g, us[0], us[1], us[2]);
    ThreeWritesCell(g, us[0], us[1], us[2], top, 0);
    ThreeWritesCell(g, us[0], us[1], us[2], top + 1, 1);
    ThreeWritesCell(g, us[0], us[1], us[2], top + 2, 1);
    forall r: nat, c: nat | r < top || top + 4 <= r ensures Cell(h2, r, c) == Cell(g, r, c) {
      ThreeWritesCell(g, us[0], us[1], us[2], r, c);
    }
  }

  /** A cell after three writes: the last write that covers it decides it. */
  lemma ThreeWritesCell(g: Rows, u0: Update, u1: Update, u2: Update, r: nat, c: nat)
    ensures Cell(Apply(Apply(Apply(g, u0), u1), u2), r, c) ==
      if Covers(u2, r, c) then u2.values[r - u2.top][c - u2.left]
      else if Covers(u1, r, c) then u1.values[r - u1.top][c - u1.left]
      else if Covers(u0, r, c) then u0.values[r - u0.top][c - u0.left]
      else Cell(g, r, c)
  {
    CellApply(g, u0, r, c);
    CellApply(Apply(g, u0), u1, r, c);
    CellApply(Apply(Apply(g, u0), u1), u2, r, c);
  }


  /** A written line-item row of at least three cells reads back as its record. */
  lemma TenantRowReads(row: Row, t: MonthlyTenant)
    requires |row| >= 3 && row[0] == t.name && row[1] == FormatDecimal(t.weeksStayed) && row[2] == FormatBool(t.isPaid)
    ensures TenantFromRow(row) == Ok(t)
  {
    ToFloatFormatDecimal(t.weeksStayed);
    ToBoolFormatBool(t.isPaid);
  }

  /** The rows of a month block as get_all_values shows them: the label, the two totals, and
      a run of line-item rows, one per record, each starting with the record's three cells. */
  predicate ShowsMonthBlock(a: Rows, top: nat, m: MonthData) {
    && top + 2 < |a|
    && |a[top]| > 0 && a[top][0] == FormatMonthYear(TimeOf(m))
    && |a[top + 1]| > 1 && a[top + 1][1] == FormatDecimal(m.totalRent)
    && |a[top + 2]| > 1 && a[top + 2][1] == FormatDecimal(m.totalUtility)
    && Shows(DataRows(a, top + 4), m.tenants, TenantRow)
  }

  /** A run of rows each starting with a line item's three cells reads as those line items,
      when their names are distinct. */
  lemma ShownTenantsRead(run: seq<Row>, ts: seq<MonthlyTenant>)
    requires Shows(run, ts, TenantRow) && UniqueKeys(ts, LineName)
    ensures TenantsFromMonthRows(run) == Ok(ts)
  {
    ShowsEach(run, ts, TenantRow);
    forall i | 0 <= i < |ts| ensures TenantFromRow(run[i]) == Ok(ts[i]) {
      var row := run[i];
      assert row[..3][0] == row[0] && row[..3][1] == row[1] && row[..3][2] == row[2];
      TenantRowReads(row, ts[i]);
    }
    DecodeAllDistinct(run, TenantFromRow, LineName, ts);
  }

  /** The cells of a month block read as a record: the label row holds data, the totals
      cells parse as its totals and the line-item rows decode to its line items. */
  predicate ReadsMonthBlock(a: Rows, top: nat, m: MonthData) {
    && top < |a| && HasData(a[top])
    && TotalAt(a, top + 1) == Ok(m.totalRent) && TotalAt(a, top + 2) == Ok(m.totalUtility)
    && TenantsFromMonthRows(DataRows(a, top + 4)) == Ok(m.tenants)
  }

  /** Reading a month whose block reads as a record gives that record. */
  lemma ReadMonthBlock(a: Rows, epoch: YearMonth, m: MonthData)
    requires Addressable(epoch, TimeOf(m)) && ReadsMonthBlock(a, BlockIndex(epoch, TimeOf(m)), m)
    ensures MonthBlockData(a, epoch, TimeOf(m)) == Ok(Some(m))
  {
    assert BlockRecord(a, BlockIndex(epoch, TimeOf(m)), TimeOf(m)) == Ok(m);
  }

  /** The totals cells of a block that shows a record parse as the record's totals. */
  lemma ShownTotalsRead(a: Rows, top: nat, m: MonthData)
    requires ShowsMonthBlock(a, top, m)
    ensures TotalAt(a, top + 1) == Ok(m.totalRent) && TotalAt(a, top + 2) == Ok(m.totalUtility)
  {
    ToFloatFormatDecimal(m.totalRent);
    ToFloatFormatDecimal(m.totalUtility);
  }

  /** A month block that shows a record with distinct line-item names reads as the record. */
  lemma ShownMonthBlockReads(a: Rows, top: nat, m: MonthData)
    requires UniqueKeys(m.tenants, LineName) && ShowsMonthBlock(a, top, m)
    ensures ReadsMonthBlock(a, top, m)
  {
    ShownTenantsRead(DataRows(a, top + 4), m.tenants);
    ShownTotalsRead(a, top, m);
  }

  /** What a month block holds, stated of the grid alone so that it survives writes
      elsewhere: the label and the two totals in their cells, and the line-item region
      holding the line items. */
  ghost predicate BlockHeld(h: Rows, top: nat, m: MonthData) {
    && Cell(h, top, 0) == FormatMonthYear(TimeOf(m))
    && Cell(h, top + 1, 1) == FormatDecimal(m.totalRent)
    && Cell(h, top + 2, 1) == FormatDecimal(m.totalUtility)
    && ListHeld(h, top + 4, TenantRows(m.tenants), 3, MAX_USERS)
  }

  /** The header cells survive the line-item writes that follow them, and the line-item
      region holds the items, when the row after the block was blank. */
  lemma HeaderAndListHeld(g: Rows, h1: Rows, h: Rows, top: nat, title: string, rent: string, utility: string, items: seq<Row>)
    requires HeaderWritten(g, h1, top, title, rent, utility)
    requires Shaped(items, 3) && |items| <= MAX_USERS && ListWritten(h1, h, top + 4, items, 3, MAX_USERS)
    requires Cell(g, top + 4 + MAX_USERS, 0) == ""
    ensures Cell(h, top, 0) == title && Cell(h, top + 1, 1) == rent && Cell(h, top + 2, 1) == utility
    ensures ListHeld(h, top + 4, items, 3, MAX_USERS)
  {
    assert Cell(h, top, 0) == Cell(h1, top, 0);
    assert Cell(h, top + 1, 1) == Cell(h1, top + 1, 1);
    assert Cell(h, top + 2, 1) == Cell(h1, top + 2, 1);
    assert Cell(h1, top + 4 + MAX_USERS, 0) == "";
    WrittenHeld(h1, h, top + 4, items, 3, MAX_USERS);
  }

  /** A block's writes at row top leave the block holding the record, when it has at most
      MAX_USERS line items and the row after the block was blank. */
  lemma BlockWritesHeld(g: Rows, top: nat, m: MonthData)
    requires |m.tenants| <= MAX_USERS
    requires Cell(g, top + 4 + MAX_USERS, 0) == ""
    ensures BlockHeld(ApplyAll(g, BlockHeaderWrites(top, m) + ListWrites(top + 4, TenantRows(m.tenants), 3, MAX_USERS)), top, m)
  {
    var header := BlockHeaderWrites(top, m);
    var list := ListWrites(top + 4, TenantRows(m.tenants), 3, MAX_USERS);
    ApplyAllAppend(g, header, list);
    HeaderWritesWritten(g, top, FormatMonthYear(TimeOf(m)), FormatDecimal(m.totalRent), FormatDecimal(m.totalUtility));
    ListWritesWritten(ApplyAll(g, header), top + 4, TenantRows(m.tenants), 3, MAX_USERS);
    HeaderAndListHeld(g, ApplyAll(g, header), ApplyAll(ApplyAll(g, header), list), top,
      FormatMonthYear(TimeOf(m)), FormatDecimal(m.totalRent), FormatDecimal(m.totalUtility), TenantRows(m.tenants));
  }

  /** _updateMonthBlockData's writes leave the month's block holding the record, when it has
      at most MAX_USERS line items and the row after the block was blank. */
  lemma EncodeMonthBlockHeld(g: Rows, epoch: YearMonth, m: MonthData)
    requires Addressable(epoch, TimeOf(m)) && |m.tenants| <= MAX_USERS
    requires Cell(g, BlockIndex(epoch, TimeOf(m)) + MONTH_BLOCK_SIZE - 1, 0) == ""
    ensures BlockHeld(ApplyAll(g, EncodeMonthBlock(epoch, m)), BlockIndex(epoch, TimeOf(m)), m)
  {
    BlockWritesHeld(g, BlockIndex(epoch, TimeOf(m)), m);
  }

  /** A batch confined to rows outside a block and the row after it leaves the block holding
      the same record. */
  lemma BlockHeldApplyOutside(h: Rows, us: seq<Update>, lo: nat, hi: nat, top: nat, m: MonthData)
    requires BlockHeld(h, top, m) && WithinRows(us, lo, hi) && (top + 4 + MAX_USERS < lo || hi <= top)
    ensures BlockHeld(ApplyAll(h, us), top, m)
  {
    ApplyAllOutside(h, us, lo, hi, top);
    ApplyAllOutside(h, us, lo, hi, top + 1);
    ApplyAllOutside(h, us, lo, hi, top + 2);
    HeldApplyOutside(h, us, lo, hi, top + 4, TenantRows(m.tenants), 3, MAX_USERS);
  }

  /** A block holding a record with well-formed line items shows it in the padded grid. */
  lemma BlockHeldShows(h: Rows, top: nat, m: MonthData)
    requires WellFormedLines(m.tenants) && BlockHeld(h, top, m)
    ensures ShowsMonthBlock(AllValues(h), top, m)
  {
    HeldShows(h, top + 4, m.tenants, TenantRow, TenantRows(m.tenants), 3, MAX_USERS);
    AllValuesCell(h, top, 0);
    AllValuesCell(h, top + 1, 1);
    AllValuesCell(h, top + 2, 1);
  }

  /** Reading a month whose block holds a record with well-formed line items gives that
      record. */
  lemma BlockHeldReads(h: Rows, epoch: YearMonth, m: MonthData)
    requires Addressable(epoch, TimeOf(m)) && WellFormedLines(m.tenants)
    requires BlockHeld(h, BlockIndex(epoch, TimeOf(m)), m)
    ensures MonthBlockData(AllValues(h), epoch, TimeOf(m)) == Ok(Some(m))
  {
    var top := BlockIndex(epoch, TimeOf(m));
    BlockHeldShows(h, top, m);
    ShownMonthBlockReads(AllValues(h), top, m);
    ReadMonthBlock(AllValues(h), epoch, m);
  }

  /** Round trip of a month block: after its writes, reading the month gives back exactly the
      record written, provided the line items are well formed and the row after the block
      (never written by anything) holds no data. */
  lemma MonthBlockRoundTrip(g: Rows, epoch: YearMonth, m: MonthData)
    requires Addressable(epoch, TimeOf(m)) && WellFormedLines(m.tenants)
    requires Cell(g, BlockIndex(epoch, TimeOf(m)) + MONTH_BLOCK_SIZE - 1, 0) == ""
    ensures MonthBlockData(AllValues(ApplyAll(g, EncodeMonthBlock(epoch, m))), epoch, TimeOf(m)) == Ok(Some(m))
  {
    EncodeMonthBlockHeld(g, epoch, m);
    BlockHeldReads(ApplyAll(g, EncodeMonthBlock(epoch, m)), epoch, m);
  }

  /** Pieces that are each non-empty and each parse as a month give exactly those months. */
  lemma {:induction false} TokensParse(tokens: seq<string>, ms: seq<YearMonth>)
    requires |tokens| == |ms|
    requires forall i :: 0 <= i < |tokens| ==> tokens[i] != "" && ParseMonthYearString(tokens[i]) == Ok(ms[i])
    ensures MonthsFromTokens(tokens) == Ok(ms)
  {
    if |tokens| > 0 {
      var n := |tokens| - 1;
      TokensParse(tokens[..n], ms[..n]);
      LastSnoc(ms);
    }
  }

  /** The labels of valid months parse back to the months. */
  lemma LabelsParse(ms: seq<YearMonth>)
    requires forall k :: 0 <= k < |ms| ==> Valid(ms[k])
    ensures MonthsFromTokens(MonthLabels(ms)) == Ok(ms)
  {
    var labels := MonthLabels(ms);
    forall i | 0 <= i < |ms| ensures labels[i] != "" && ParseMonthYearString(labels[i]) == Ok(ms[i]) {
      ParseFormatMonthYear(ms[i]);
    }
    TokensParse(labels, ms);
  }

  /** The pieces of a cell joining at least one label are the labels. */
  lemma LabelsSplit(ms: seq<YearMonth>)
    requires |ms| > 0
    ensures MonthTokens(Join(',', MonthLabels(ms))) == MonthLabels(ms)
  {
    var labels := MonthLabels(ms);
    forall i | 0 <= i < |labels|
      ensures |labels[i]| > 0 && ',' !in labels[i] && !IsSpace(labels[i][0]) && !IsSpace(labels[i][|labels[i]| - 1])
    {
      var s := FormatMonthYear(ms[i]);
      assert IsDigit(s[|s| - 1]);
    }
    SplitStripJoin(',', labels);
  }

  /** Round trip of an unpaid-months cell: the months come back as a set, each once, in the
      order the cell lists them. */
  lemma MonthsCellRoundTrip(ms: seq<YearMonth>)
    requires forall k :: 0 <= k < |ms| ==> Valid(ms[k])
    ensures MonthsFromTokens(MonthTokens(MonthsCell(ms))) == Ok(Dedup(ms))
  {
    var d := Dedup(ms);
    if |d| == 0 {
      assert MonthsCell(ms) == "";
      assert MonthTokens("") == [""];
    } else {
      LabelsSplit(d);
      forall i | 0 <= i < |d| ensures Valid(d[i]) {
        assert d[i] in ms;
      }
      LabelsParse(d);
    }
  }

  /** A written roster row of at least three cells reads back as its record, with the unpaid
      months collected as a set. */
  lemma RosterRowReads(row: Row, t: CurrentTenant)
    requires |row| >= 3 && row[0] == t.name && row[1] == MonthsCell(t.monthsUnpaid)
    requires row[2] == ScheduleValue(t.staySchedule)
    requires forall k :: 0 <= k < |t.monthsUnpaid| ==> Valid(t.monthsUnpaid[k])
    ensures CurrentTenantFromRow(row) == Ok(t.(monthsUnpaid := Dedup(t.monthsUnpaid)))
  {
    var months := Dedup(t.monthsUnpaid);
    MonthsCellRoundTrip(t.monthsUnpaid);
    ScheduleRoundTrip(t.staySchedule, row[2]);
    RowWithMonthsReads(row, months);
    assert t.(monthsUnpaid := months) == CurrentTenant(row[0], months, ScheduleFromCell(row[2]));
  }

  /** A row of three cells or more whose months cell reads reads as a roster entry. */
  lemma RowWithMonthsReads(row: Row, months: seq<YearMonth>)
    requires |row| >= 3 && MonthsFromTokens(MonthTokens(row[1])) == Ok(months)
    ensures CurrentTenantFromRow(row) == Ok(CurrentTenant(row[0], months, ScheduleFromCell(row[2])))
  {
  }

  /** A run of rows each starting with a roster entry's three cells reads as those entries,
      each one's unpaid months as a set. */
  lemma ShownRosterRead(run: seq<Row>, ts: seq<CurrentTenant>)
    requires Shows(run, ts, RosterRow) && WellFormedRoster(ts)
    ensures RosterFromRows(run) == Ok(Canonical(ts))
  {
    ShowsEach(run, ts, RosterRow);
    var cs := Canonical(ts);
    forall i | 0 <= i < |ts| ensures CurrentTenantFromRow(run[i]) == Ok(cs[i]) {
      var row := run[i];
      assert row[..3][0] == row[0] && row[..3][1] == row[1] && row[..3][2] == row[2];
      RosterRowReads(row, ts[i]);
    }
    CanonicalUnique(ts);
    DecodeAllDistinct(run, CurrentTenantFromRow, RosterName, cs);
  }

  /** What the roster region holds, stated of the grid alone so that it survives writes
      elsewhere. */
  ghost predicate RosterHeld(h: Rows, ts: seq<CurrentTenant>) {
    ListHeld(h, 1, RosterRows(ts), 3, MAX_USERS)
  }

  /** _updateCurrentTenantsData's writes leave the roster region holding the roster, when it
      has at most MAX_USERS tenants and the row after the region was blank. */
  lemma EncodeRosterHeld(g: Rows, ts: seq<CurrentTenant>)
    requires |ts| <= MAX_USERS
    requires Cell(g, 1 + MAX_USERS, 0) == ""
    ensures RosterHeld(ApplyAll(g, EncodeRoster(ts)), ts)
  {
    ListWritesHeld(g, 1, RosterRows(ts), 3, MAX_USERS);
  }

  /** Reading a roster region that holds well-formed tenants gives them back, each one's
      unpaid months as a set. */
  lemma RosterHeldReads(h: Rows, ts: seq<CurrentTenant>)
    requires WellFormedRoster(ts) && RosterHeld(h, ts)
    ensures CurrentTenantData(AllValues(h)) == Ok(Canonical(ts))
  {
    HeldShows(h, 1, ts, RosterRow, RosterRows(ts), 3, MAX_USERS);
    ShownRosterRead(DataRows(AllValues(h), 1), ts);
  }

  /** Round trip of the roster: after its writes, reading the roster gives back the tenants
      written, each one's unpaid months as a set, provided the roster is well formed and the
      row after the roster block (never written by anything) holds no data. */
  lemma RosterRoundTrip(g: Rows, ts: seq<CurrentTenant>)
    requires WellFormedRoster(ts)
    requires Cell(g, 1 + MAX_USERS, 0) == ""
    ensures CurrentTenantData(AllValues(ApplyAll(g, EncodeRoster(ts)))) == Ok(Canonical(ts))
  {
    EncodeRosterHeld(g, ts);
    RosterHeldReads(ApplyAll(g, EncodeRoster(ts)), ts);
  }
}
