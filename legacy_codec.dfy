/** The record codec of the older engine, sheet.py. It shares the address scheme (with the
    epoch fixed at 8/2021), the month block layout and its writes with app/sheet.py, but it
    reads cells more strictly: a number is float() of the cell as it stands, and a line-item
    row must have exactly three cells. Its roster has no stay schedule and is written in two
    columns. */
module LegacyCodec {
  import opened Results
  import opened Text
  import opened Numbers
  import opened Calendar
  import opened Layout
  import opened Grid
  import opened Regions
  import opened Dicts
  import opened Records
  import opened Codec
  import opened Spacers

  /** A roster entry of the older engine: the name and the months still owed for. */
  datatype LegacyTenant = LegacyTenant(name: string, monthsUnpaid: seq<YearMonth>)

  function LegacyName(t: LegacyTenant): string { t.name }

  // ------------------------------------------------------------------ cells

  /** float(cell): the cell must read as a number as it stands. */
  function PlainFloat(cell: string): (r: Result<Decimal>)
    ensures r.Err? ==> r.error == Malformed
  {
    var parsed := ParseFloat(cell);
    if parsed.Some? then Ok(parsed.value) else Err(Malformed)
  }

  /** A written number reads back exactly. */
  lemma PlainFloatFormatDecimal(d: Decimal)
    ensures PlainFloat(FormatDecimal(d)) == Ok(d)
  {
    ParseFormatDecimal(d);
  }

  /** The unsigned part of a number holds only digits and the point. */
  lemma ParseUnsignedChars(body: string)
    requires ParseUnsigned(body).Some?
    ensures ',' !in body
  {
    var parts := Split(body, '.');
    JoinSplit(body, '.');
    var whole := parts[0];
    var frac := if |parts| == 2 then parts[1] else "";
    assert ',' !in whole + frac;
    if |parts| == 1 {
      assert body == whole;
    } else {
      assert Join('.', parts[1..]) == frac;
      assert body == whole + ['.'] + frac;
    }
  }

  /** Stripping whitespace keeps every other character. */
  lemma {:induction false} StripLeftKeeps(s: string, c: char)
    requires c in s && !IsSpace(c)
    ensures c in StripLeft(s)
  {
    if |s| > 0 && IsSpace(s[0]) {
      assert c in s[1..];
      StripLeftKeeps(s[1..], c);
    }
  }

  lemma {:induction false} StripRightKeeps(s: string, c: char)
    requires c in s && !IsSpace(c)
    ensures c in StripRight(s)
  {
    if |s| > 0 && IsSpace(s[|s| - 1]) {
      assert c in s[..|s| - 1];
      StripRightKeeps(s[..|s| - 1], c);
    }
  }

  /** A cell that reads as a number has no comma once stripped. */
  lemma ParseFloatChars(s: string)
    requires ParseFloat(s).Some?
    ensures ',' !in Strip(s)
  {
    var t := Strip(s);
    var signed := |t| > 0 && (t[0] == '-' || t[0] == '+');
    var body := if signed then t[1..] else t;
    ParseUnsignedChars(body);
    if signed {
      assert t == [t[0]] + body;
    }
  }

  /** Thousands separators are not accepted: a cell holding a comma never reads as a number,
      not even "1,697.20", which app/sheet.py reads as 1697.2. */
  lemma PlainFloatRejectsCommas(cell: string)
    requires ',' in cell
    ensures PlainFloat(cell) == Err(Malformed)
  {
    StripLeftKeeps(cell, ',');
    StripRightKeeps(StripLeft(cell), ',');
    if ParseFloat(cell).Some? {
      ParseFloatChars(cell);
    }
  }

  /** The two engines part ways on such a cell: the newer one reads the number that the cell
      shows without its commas, the older one fails. */
  lemma GroupedCellsDiffer(cell: string, d: Decimal)
    requires ',' in cell && Remove(cell, ',') == FormatDecimal(d)
    ensures ToFloat(cell) == Ok(d) && PlainFloat(cell) == Err(Malformed)
  {
    ToFloatGrouped(cell, d);
    PlainFloatRejectsCommas(cell);
  }

  // ------------------------------------------------------------------ month blocks: reading

  /** One line-item row, unpacked as name, weeks stayed and paid: exactly three cells, the
      weeks read with float(). */
  function LegacyLineFromRow(row: Row): (r: Result<MonthlyTenant>)
    ensures r.Ok? ==> |row| == 3 && r.value.name == row[0] && r.value.isPaid == ToBool(row[2])
    ensures r.Ok? ==> PlainFloat(row[1]) == Ok(r.value.weeksStayed)
    ensures r.Err? ==> r.error == Malformed
  {
    if |row| != 3 then Err(Malformed)
    else
      var weeks :- PlainFloat(row[1]);
      Ok(MonthlyTenant(row[0], weeks, ToBool(row[2])))
  }

  /** The line items of a run of rows, each assigned under its name in row order. */
  function LegacyLinesFromRows(rows: seq<Row>): (r: Result<seq<MonthlyTenant>>)
    ensures r.Err? ==> r.error == Malformed
    ensures r.Ok? ==> UniqueKeys(r.value, LineName) && |r.value| <= |rows|
  {
    DecodeAllErr(rows, LegacyLineFromRow, LineName);
    DecodeAll(rows, LegacyLineFromRow, LineName)
  }

  /** The loop of _getMonthBlockData over the line-item rows. */
  method LegacyGetLines(tenantRows: seq<Row>) returns (r: Result<seq<MonthlyTenant>>)
    ensures r == LegacyLinesFromRows(tenantRows)
  {
    var tenants: seq<MonthlyTenant> := [];
    for k := 0 to |tenantRows|
      invariant DecodeAll(tenantRows[..k], LegacyLineFromRow, LineName) == Ok(tenants)
    {
      assert tenantRows[..k + 1][..k] == tenantRows[..k];
      var line := LegacyLineFromRow(tenantRows[k]);
      if line.Err? {
        DecodeAllOk(tenantRows, LegacyLineFromRow, LineName);
        return Err(Malformed);
      }
      tenants := Put(tenants, LineName, line.value);
    }
    assert tenantRows[..|tenantRows|] == tenantRows;
    return Ok(tenants);
  }

  /** A total: the second cell of row r read with float(). */
  function LegacyTotalAt(allRows: Rows, r: nat): (v: Result<Decimal>)
    ensures v.Ok? ==> r < |allRows| && |allRows[r]| > 1 && PlainFloat(allRows[r][1]) == v
    ensures v.Err? ==> v.error == Malformed
  {
    var cell :- At(allRows, r, 1);
    PlainFloat(cell)
  }

  /** The record of month t whose label row is at index top, every number read with float()
      and every line-item row unpacked into exactly three values. */
  function LegacyBlockRecord(allRows: Rows, top: nat, t: YearMonth): (r: Result<MonthData>)
    ensures r.Ok? ==> TimeOf(r.value) == t && LegacyLinesFromRows(DataRows(allRows, top + 4)) == Ok(r.value.tenants)
    ensures r.Err? ==> r.error == Malformed
  {
    var totalRent :- LegacyTotalAt(allRows, top + 1);
    var totalUtility :- LegacyTotalAt(allRows, top + 2);
    var tenants :- LegacyLinesFromRows(DataRows(allRows, top + 4));
    Ok(MonthData(t.year, t.month, totalRent, totalUtility, tenants))
  }

  /** _getMonthBlockData: no block (None) when the label row is empty, otherwise the block's
      record. */
  function LegacyMonthBlockData(allRows: Rows, t: YearMonth): (r: Result<Option<MonthData>>)
    requires Addressable(LEGACY_EPOCH, t)
    ensures r == Ok(None) <==> !MonthDataExists(allRows, LEGACY_EPOCH, t)
    ensures r.Err? ==> r.error == Malformed
    ensures r.Ok? && r.value.Some? ==>
      && TimeOf(r.value.value) == t
      && LegacyLinesFromRows(DataRows(allRows, BlockIndex(LEGACY_EPOCH, t) + 4)) == Ok(r.value.value.tenants)
  {
    if !MonthDataExists(allRows, LEGACY_EPOCH, t) then Ok(None)
    else
      var m :- LegacyBlockRecord(allRows, BlockIndex(LEGACY_EPOCH, t), t);
      Ok(Some(m))
  }

  // ------------------------------------------------------------------ roster: reading

  /** One roster row: the name, and the months of the comma-separated second cell; a row
      without a second cell is an IndexError, a piece that is not a month a ValueError. */
  function LegacyTenantFromRow(row: Row): (r: Result<LegacyTenant>)
    ensures r.Ok? ==> |row| >= 2 && r.value.name == row[0]
    ensures r.Ok? ==> MonthsFromTokens(MonthTokens(row[1])) == Ok(r.value.monthsUnpaid)
    ensures r.Err? ==> r.error == Malformed
  {
    if |row| < 2 then Err(Malformed)
    else
      var months :- MonthsFromTokens(MonthTokens(row[1]));
      Ok(LegacyTenant(row[0], months))
  }

  /** The body of the loop of _getCurrentTenantData, with its loop over the pieces of the
      months cell. */
  method LegacyGetTenant(row: Row) returns (r: Result<LegacyTenant>)
    ensures r == LegacyTenantFromRow(row)
  {
    if |row| < 2 {
      return Err(Malformed);
    }
    var name := row[0];
    var monthsUnpaid: seq<YearMonth> := [];
    var timeStrings := MonthTokens(row[1]);
    for k := 0 to |timeStrings|
      invariant MonthsFromTokens(timeStrings[..k]) == Ok(monthsUnpaid)
    {
      assert timeStrings[..k + 1][..k] == timeStrings[..k];
      if timeStrings[k] != "" {
        var m := ParseMonthYearString(timeStrings[k]);
        if m.Err? {
          MonthsFromTokensPrefixError(timeStrings, k + 1);
          return Err(Malformed);
        }
        monthsUnpaid := monthsUnpaid + [m.value];
      }
    }
    assert timeStrings[..|timeStrings|] == timeStrings;
    return Ok(LegacyTenant(name, monthsUnpaid));
  }

  /** _getCurrentTenantData: the run of rows holding data from row index 1, each entry
      assigned under its name. */
  function LegacyRoster(allRows: Rows): (r: Result<seq<LegacyTenant>>)
    ensures r.Err? ==> r.error == Malformed
    ensures r.Ok? ==> UniqueKeys(r.value, LegacyName) && |r.value| <= |DataRows(allRows, 1)|
  {
    DecodeAllErr(DataRows(allRows, 1), LegacyTenantFromRow, LegacyName);
    DecodeAll(DataRows(allRows, 1), LegacyTenantFromRow, LegacyName)
  }

  /** _getCurrentTenantData, scanning with the loops above. */
  method LegacyGetRoster(allRows: Rows) returns (r: Result<seq<LegacyTenant>>)
    ensures r == LegacyRoster(allRows)
  {
    var tenantRows := GetSuccessiveDataRows(allRows, 1);
    var initialTenants: seq<LegacyTenant> := [];
    for k := 0 to |tenantRows|
      invariant DecodeAll(tenantRows[..k], LegacyTenantFromRow, LegacyName) == Ok(initialTenants)
    {
      assert tenantRows[..k + 1][..k] == tenantRows[..k];
      var tenant := LegacyGetTenant(tenantRows[k]);
      if tenant.Err? {
        DecodeAllOk(tenantRows, LegacyTenantFromRow, LegacyName);
        return Err(Malformed);
      }
      initialTenants := Put(initialTenants, LegacyName, tenant.value);
    }
    assert tenantRows[..|tenantRows|] == tenantRows;
    return Ok(initialTenants);
  }

  // ------------------------------------------------------------------ roster: writing

  /** One roster row: the name and the unpaid months, in columns A and B. */
  function LegacyRosterRow(t: LegacyTenant): (row: Row)
    ensures |row| == 2
  {
    [t.name, MonthsCell(t.monthsUnpaid)]
  }

  function LegacyRosterRows(ts: seq<LegacyTenant>): (rows: seq<Row>)
    ensures |rows| == |ts| && Shaped(rows, 2)
    ensures forall i :: 0 <= i < |ts| ==> rows[i] == LegacyRosterRow(ts[i])
  {
    seq(|ts|, i requires 0 <= i < |ts| => LegacyRosterRow(ts[i]))
  }

  /** _updateCurrentTenantsData: the roster from row index 1 on in two columns, and blank
      rows after it up to MAX_USERS rows. */
  function EncodeLegacyRoster(ts: seq<LegacyTenant>): (us: seq<Update>)
    ensures |ts| <= MAX_USERS ==> WithinRows(us, 1, 1 + MAX_USERS)
    ensures FitsWidth(us, 2) && FitsWidth(us, 3)
  {
    ListWritesFrameAny(1, LegacyRosterRows(ts), 2, MAX_USERS);
    ListWrites(1, LegacyRosterRows(ts), 2, MAX_USERS)
  }

  // ------------------------------------------------------------------ well-formed rosters

  /** A roster the sheet can hold and read back: names non-empty and distinct, months real,
      at most MAX_USERS entries. */
  predicate WellFormedLegacyRoster(ts: seq<LegacyTenant>) {
    && (forall i :: 0 <= i < |ts| ==> ts[i].name != "")
    && (forall i, k :: 0 <= i < |ts| && 0 <= k < |ts[i].monthsUnpaid| ==> Valid(ts[i].monthsUnpaid[k]))
    && UniqueKeys(ts, LegacyName)
    && |ts| <= MAX_USERS
  }

  /** The roster as it reads back once written: each entry's unpaid months as a set. */
  function LegacyCanonical(ts: seq<LegacyTenant>): (r: seq<LegacyTenant>)
    ensures |r| == |ts|
    ensures forall i :: 0 <= i < |ts| ==> r[i] == LegacyTenant(ts[i].name, Dedup(ts[i].monthsUnpaid))
  {
    seq(|ts|, i requires 0 <= i < |ts| => LegacyTenant(ts[i].name, Dedup(ts[i].monthsUnpaid)))
  }

  /** Assigning an entry with a non-empty name and real months keeps the roster well formed,
      as long as the name is already there or there is room for one more. */
  lemma LegacyPutWellFormed(ts: seq<LegacyTenant>, x: LegacyTenant)
    requires WellFormedLegacyRoster(ts) && x.name != ""
    requires forall k :: 0 <= k < |x.monthsUnpaid| ==> Valid(x.monthsUnpaid[k])
    requires x.name in Keys(ts, LegacyName) || |ts| < MAX_USERS
    ensures WellFormedLegacyRoster(Put(ts, LegacyName, x))
  {
    var r := Put(ts, LegacyName, x);
    PutUnique(ts, LegacyName, x);
    PutKeys(ts, LegacyName, x);
    forall i | 0 <= i < |r|
      ensures r[i].name != "" && forall k :: 0 <= k < |r[i].monthsUnpaid| ==> Valid(r[i].monthsUnpaid[k])
    {
      assert r[i] in r;
    }
  }

  /** Deleting an entry keeps the roster well formed. */
  lemma LegacyDelWellFormed(ts: seq<LegacyTenant>, k: string)
    requires WellFormedLegacyRoster(ts)
    ensures WellFormedLegacyRoster(Del(ts, LegacyName, k))
  {
    var r := Del(ts, LegacyName, k);
    DelUnique(ts, LegacyName, k);
    forall i | 0 <= i < |r|
      ensures r[i].name != "" && forall m :: 0 <= m < |r[i].monthsUnpaid| ==> Valid(r[i].monthsUnpaid[m])
    {
      assert r[i] in r;
    }
  }

  // ------------------------------------------------------------------ round trips

  /** A written roster row of at least two cells reads back as its entry, the unpaid months
      as a set. */
  lemma LegacyRosterRowReads(row: Row, t: LegacyTenant)
    requires |row| >= 2 && row[0] == t.name && row[1] == MonthsCell(t.monthsUnpaid)
    requires forall k :: 0 <= k < |t.monthsUnpaid| ==> Valid(t.monthsUnpaid[k])
    ensures LegacyTenantFromRow(row) == Ok(LegacyTenant(t.name, Dedup(t.monthsUnpaid)))
  {
    MonthsCellRoundTrip(t.monthsUnpaid);
  }

  /** A run of rows each starting with an entry's two cells reads as those entries. */
  lemma ShownLegacyRosterRead(run: seq<Row>, ts: seq<LegacyTenant>)
    requires Shows(run, ts, LegacyRosterRow) && WellFormedLegacyRoster(ts)
    ensures DecodeAll(run, LegacyTenantFromRow, LegacyName) == Ok(LegacyCanonical(ts))
  {
    ShowsEach(run, ts, LegacyRosterRow);
    var cs := LegacyCanonical(ts);
    forall i | 0 <= i < |ts| ensures LegacyTenantFromRow(run[i]) == Ok(cs[i]) {
      var row := run[i];
      assert row[..2][0] == row[0] && row[..2][1] == row[1];
      LegacyRosterRowReads(row, ts[i]);
    }
    forall i, j | 0 <= i < j < |cs| ensures LegacyName(cs[i]) != LegacyName(cs[j]) {
      assert LegacyName(ts[i]) != LegacyName(ts[j]);
    }
    DecodeAllDistinct(run, LegacyTenantFromRow, LegacyName, cs);
  }

  /** What the roster region holds, stated of the grid alone. */
  ghost predicate LegacyRosterHeld(h: Rows, ts: seq<LegacyTenant>) {
    ListHeld(h, 1, LegacyRosterRows(ts), 2, MAX_USERS)
  }

  /** Reading a roster region that holds a well-formed roster gives it back, each entry's
      unpaid months as a set. */
  lemma LegacyRosterHeldReads(h: Rows, ts: seq<LegacyTenant>)
    requires WellFormedLegacyRoster(ts) && LegacyRosterHeld(h, ts)
    ensures LegacyRoster(AllValues(h)) == Ok(LegacyCanonical(ts))
  {
    HeldShows(h, 1, ts, LegacyRosterRow, LegacyRosterRows(ts), 2, MAX_USERS);
    ShownLegacyRosterRead(DataRows(AllValues(h), 1), ts);
  }

  /** The roster writes leave the roster region holding the roster and every spacer blank. */
  lemma LegacyRosterWriteHeld(g: Rows, ts: seq<LegacyTenant>)
    requires SpacersBlank(g) && |ts| <= MAX_USERS
    ensures LegacyRosterHeld(ApplyAll(g, EncodeLegacyRoster(ts)), ts)
    ensures SpacersBlank(ApplyAll(g, EncodeLegacyRoster(ts)))
  {
    ListWritesHeld(g, 1, LegacyRosterRows(ts), 2, MAX_USERS);
    SpacersOutside(g, EncodeLegacyRoster(ts), 1, 1 + MAX_USERS);
  }

  /** Round trip of the roster: after its writes, reading the roster gives back the entries
      written, each one's unpaid months as a set, provided the roster is well formed and the
      spacers are blank. */
  lemma LegacyRosterRoundTrip(g: Rows, ts: seq<LegacyTenant>)
    requires SpacersBlank(g) && WellFormedLegacyRoster(ts)
    ensures LegacyRoster(AllValues(ApplyAll(g, EncodeLegacyRoster(ts)))) == Ok(LegacyCanonical(ts))
  {
    LegacyRosterWriteHeld(g, ts);
    LegacyRosterHeldReads(ApplyAll(g, EncodeLegacyRoster(ts)), ts);
  }

  /** Every row at most three cells wide. get_all_values pads every row to the widest one, so
      this is what lets a line-item row unpack into exactly three values. */
  ghost predicate Narrow(g: Rows) {
    forall r :: 0 <= r < |g| ==> |g[r]| <= 3
  }

  /** Writes no wider than three columns keep the grid narrow. */
  lemma NarrowApplyAll(g: Rows, us: seq<Update>)
    requires Narrow(g) && FitsWidth(us, 3)
    ensures Narrow(ApplyAll(g, us))
  {
    WidthApplyAll(g, us, 3);
  }

  /** In a narrow grid with a block written, every padded row is exactly three cells wide. */
  lemma NarrowHeldWidth(h: Rows, top: nat, m: MonthData)
    requires Narrow(h) && BlockHeld(h, top, m)
    ensures MaxWidth(h) == 3
  {
    assert |h[top + 4]| >= 3;
    var r :| 0 <= r < |h| && |h[r]| == MaxWidth(h);
  }

  /** A run of rows each exactly a line item's three cells reads as those line items. */
  lemma ShownLegacyLinesRead(run: seq<Row>, ts: seq<MonthlyTenant>)
    requires Shows(run, ts, TenantRow) && UniqueKeys(ts, LineName)
    requires forall i :: 0 <= i < |run| ==> |run[i]| == 3
    ensures LegacyLinesFromRows(run) == Ok(ts)
  {
    ShowsEach(run, ts, TenantRow);
    forall i | 0 <= i < |ts| ensures LegacyLineFromRow(run[i]) == Ok(ts[i]) {
      var row := run[i];
      assert row == row[..3];
      PlainFloatFormatDecimal(ts[i].weeksStayed);
      ToBoolFormatBool(ts[i].isPaid);
    }
    DecodeAllDistinct(run, LegacyLineFromRow, LineName, ts);
  }

  /** The totals cells of a block that shows a record read with float() as its totals. */
  lemma LegacyShownTotalsRead(a: Rows, top: nat, m: MonthData)
    requires ShowsMonthBlock(a, top, m)
    ensures LegacyTotalAt(a, top + 1) == Ok(m.totalRent) && LegacyTotalAt(a, top + 2) == Ok(m.totalUtility)
  {
    PlainFloatFormatDecimal(m.totalRent);
    PlainFloatFormatDecimal(m.totalUtility);
  }

  /** Every row exactly three cells wide. */
  ghost predicate ThreeWide(a: Rows) {
    forall r :: 0 <= r < |a| ==> |a[r]| == 3
  }

  /** The cells of a block read as the record m. */
  predicate LegacyReadsMonthBlock(a: Rows, top: nat, m: MonthData) {
    && top < |a| && HasData(a[top])
    && LegacyTotalAt(a, top + 1) == Ok(m.totalRent) && LegacyTotalAt(a, top + 2) == Ok(m.totalUtility)
    && LegacyLinesFromRows(DataRows(a, top + 4)) == Ok(m.tenants)
  }

  /** Reading a month whose block reads as a record gives that record. */
  lemma LegacyReadMonthBlock(a: Rows, m: MonthData)
    requires Addressable(LEGACY_EPOCH, TimeOf(m)) && LegacyReadsMonthBlock(a, BlockIndex(LEGACY_EPOCH, TimeOf(m)), m)
    ensures LegacyMonthBlockData(a, TimeOf(m)) == Ok(Some(m))
  {
    assert LegacyBlockRecord(a, BlockIndex(LEGACY_EPOCH, TimeOf(m)), TimeOf(m)) == Ok(m);
  }

  /** In a grid of three-cell rows, a block that shows a record reads as that record. */
  lemma LegacyShownMonthRead(a: Rows, top: nat, m: MonthData)
    requires UniqueKeys(m.tenants, LineName) && ThreeWide(a) && ShowsMonthBlock(a, top, m)
    ensures LegacyReadsMonthBlock(a, top, m)
  {
    var run := DataRows(a, top + 4);
    assert forall i :: 0 <= i < |run| ==> |run[i]| == 3;
    ShownLegacyLinesRead(run, m.tenants);
    LegacyShownTotalsRead(a, top, m);
  }

  /** Reading a month whose block holds a record with well-formed line items, in a narrow
      grid, gives that record. */
  lemma LegacyBlockHeldReads(h: Rows, m: MonthData)
    requires Addressable(LEGACY_EPOCH, TimeOf(m)) && WellFormedLines(m.tenants) && Narrow(h)
    requires BlockHeld(h, BlockIndex(LEGACY_EPOCH, TimeOf(m)), m)
    ensures LegacyMonthBlockData(AllValues(h), TimeOf(m)) == Ok(Some(m))
  {
    BlockHeldShows(h, BlockIndex(LEGACY_EPOCH, TimeOf(m)), m);
    NarrowHeldWidth(h, BlockIndex(LEGACY_EPOCH, TimeOf(m)), m);
    LegacyShownMonthRead(AllValues(h), BlockIndex(LEGACY_EPOCH, TimeOf(m)), m);
    LegacyReadMonthBlock(AllValues(h), m);
  }

  /** Round trip of a month block in the older engine: after the block's writes, reading the
      month gives back exactly the record written, provided its line items are well formed,
      the spacer after the block is blank and the grid is narrow. */
  lemma LegacyMonthRoundTrip(g: Rows, m: MonthData)
    requires Addressable(LEGACY_EPOCH, TimeOf(m)) && WellFormedLines(m.tenants) && Narrow(g)
    requires Cell(g, BlockIndex(LEGACY_EPOCH, TimeOf(m)) + MONTH_BLOCK_SIZE - 1, 0) == ""
    ensures LegacyMonthBlockData(AllValues(ApplyAll(g, EncodeMonthBlock(LEGACY_EPOCH, m))), TimeOf(m)) == Ok(Some(m))
  {
    LegacyBlockWriteHeld(g, m);
    LegacyBlockHeldReads(ApplyAll(g, EncodeMonthBlock(LEGACY_EPOCH, m)), m);
  }

  /** A block's writes on a narrow grid leave it narrow and the block holding the record. */
  lemma LegacyBlockWriteHeld(g: Rows, m: MonthData)
    requires Addressable(LEGACY_EPOCH, TimeOf(m)) && |m.tenants| <= MAX_USERS && Narrow(g)
    requires Cell(g, BlockIndex(LEGACY_EPOCH, TimeOf(m)) + MONTH_BLOCK_SIZE - 1, 0) == ""
    ensures var h := ApplyAll(g, EncodeMonthBlock(LEGACY_EPOCH, m));
      Narrow(h) && BlockHeld(h, BlockIndex(LEGACY_EPOCH, TimeOf(m)), m)
  {
    EncodeMonthBlockHeld(g, LEGACY_EPOCH, m);
    NarrowApplyAll(g, EncodeMonthBlock(LEGACY_EPOCH, m));
  }

  /** A stored cell past column C anywhere in the grid, even one holding "", pads every row to
      four cells or more, and then no month with line items can be read: the first line-item
      row fails to unpack. */
  lemma WideGridUnreadable(g: Rows, t: YearMonth)
    requires Addressable(LEGACY_EPOCH, t) && MonthDataExists(AllValues(g), LEGACY_EPOCH, t)
    requires MaxWidth(g) > 3 && |DataRows(AllValues(g), BlockIndex(LEGACY_EPOCH, t) + 4)| > 0
    ensures LegacyMonthBlockData(AllValues(g), t) == Err(Malformed)
  {
    var a := AllValues(g);
    var run := DataRows(a, BlockIndex(LEGACY_EPOCH, t) + 4);
    assert |run[0]| == MaxWidth(g) by {
      assert run[0] == a[BlockIndex(LEGACY_EPOCH, t) + 4];
    }
    DecodeAllOk(run, LegacyLineFromRow, LineName);
    assert LegacyLinesFromRows(run).Err?;
  }

  // ------------------------------------------------------------------ reads of a valid grid

  /** With its spacer blank, the roster read from a sheet is well formed. */
  lemma LegacyRosterReadWellFormed(g: Rows, ts: seq<LegacyTenant>)
    requires Cell(g, 1 + MAX_USERS, 0) == ""
    requires LegacyRoster(AllValues(g)) == Ok(ts)
    ensures WellFormedLegacyRoster(ts)
  {
    var run := DataRows(AllValues(g), 1);
    RunBounded(g, 1, MAX_USERS);
    var p := (t: LegacyTenant) => t.name != "" && forall k :: 0 <= k < |t.monthsUnpaid| ==> Valid(t.monthsUnpaid[k]);
    forall i | 0 <= i < |run| && LegacyTenantFromRow(run[i]).Ok? ensures p(LegacyTenantFromRow(run[i]).value) {
      assert HasData(run[i]);
    }
    DecodeAllHolds(run, LegacyTenantFromRow, LegacyName, p);
    assert forall i :: 0 <= i < |ts| ==> p(ts[i]);
  }

  /** With the spacers blank, the line items read from a month block are well formed. */
  lemma LegacyMonthReadWellFormed(g: Rows, t: YearMonth, m: MonthData)
    requires SpacersBlank(g) && Addressable(LEGACY_EPOCH, t)
    requires LegacyMonthBlockData(AllValues(g), t) == Ok(Some(m))
    ensures WellFormedLines(m.tenants)
  {
    BlockRunBounded(g, LEGACY_EPOCH, t);
    LegacyMonthBoundedWellFormed(AllValues(g), t, m);
  }

  /** The same for any rows whose run of line items is at most MAX_USERS long. */
  lemma LegacyMonthBoundedWellFormed(a: Rows, t: YearMonth, m: MonthData)
    requires Addressable(LEGACY_EPOCH, t)
    requires |DataRows(a, BlockIndex(LEGACY_EPOCH, t) + 4)| <= MAX_USERS
    requires LegacyMonthBlockData(a, t) == Ok(Some(m))
    ensures WellFormedLines(m.tenants)
  {
    LegacyLinesNamed(DataRows(a, BlockIndex(LEGACY_EPOCH, t) + 4), m.tenants);
  }

  /** Line items decoded from a run of data rows all have non-empty names. */
  lemma LegacyLinesNamed(run: seq<Row>, ts: seq<MonthlyTenant>)
    requires forall i :: 0 <= i < |run| ==> HasData(run[i])
    requires LegacyLinesFromRows(run) == Ok(ts)
    ensures forall i :: 0 <= i < |ts| ==> ts[i].name != ""
  {
    var p := (x: MonthlyTenant) => x.name != "";
    forall i | 0 <= i < |run| && LegacyLineFromRow(run[i]).Ok? ensures p(LegacyLineFromRow(run[i]).value) {
      assert HasData(run[i]);
    }
    DecodeAllHolds(run, LegacyLineFromRow, LineName, p);
    assert forall i :: 0 <= i < |ts| ==> p(ts[i]);
  }

  /** The roster's writes and a month's writes in one batch, on a narrow grid with blank
      spacers: the roster and the month then read as written (the unpaid months as sets),
      and the grid stays narrow with its spacers blank. */
  lemma LegacyRosterAndMonthWriteReads(h: Rows, ts: seq<LegacyTenant>, m: MonthData)
    requires SpacersBlank(h) && Narrow(h) && WellFormedLegacyRoster(ts)
    requires Addressable(LEGACY_EPOCH, TimeOf(m)) && WellFormedLines(m.tenants)
    ensures var h' := ApplyAll(h, EncodeLegacyRoster(ts) + EncodeMonthBlock(LEGACY_EPOCH, m));
      && LegacyRoster(AllValues(h')) == Ok(LegacyCanonical(ts))
      && LegacyMonthBlockData(AllValues(h'), TimeOf(m)) == Ok(Some(m))
      && SpacersBlank(h') && Narrow(h')
  {
    var roster := EncodeLegacyRoster(ts);
    var block := EncodeMonthBlock(LEGACY_EPOCH, m);
    var top := BlockIndex(LEGACY_EPOCH, TimeOf(m));
    var h1 := ApplyAll(h, roster);
    var h' := ApplyAll(h1, block);
    ApplyAllAppend(h, roster, block);
    LegacyRosterWriteHeld(h, ts);
    BlockWriteHeld(h1, LEGACY_EPOCH, m);
    HeldApplyOutside(h1, block, top, top + MONTH_BLOCK_SIZE - 1, 1, LegacyRosterRows(ts), 2, MAX_USERS);
    NarrowApplyAll(h, roster);
    NarrowApplyAll(h1, block);
    LegacyRosterHeldReads(h', ts);
    LegacyBlockHeldReads(h', m);
  }

  /** A month's writes on a narrow grid with blank spacers: the month then reads as the
      record written, and the grid stays narrow with its spacers blank. */
  lemma LegacyMonthWriteReads(h: Rows, m: MonthData)
    requires SpacersBlank(h) && Narrow(h)
    requires Addressable(LEGACY_EPOCH, TimeOf(m)) && WellFormedLines(m.tenants)
    ensures var h' := ApplyAll(h, EncodeMonthBlock(LEGACY_EPOCH, m));
      LegacyMonthBlockData(AllValues(h'), TimeOf(m)) == Ok(Some(m)) && SpacersBlank(h') && Narrow(h')
  {
    var h' := ApplyAll(h, EncodeMonthBlock(LEGACY_EPOCH, m));
    BlockWriteHeld(h, LEGACY_EPOCH, m);
    NarrowApplyAll(h, EncodeMonthBlock(LEGACY_EPOCH, m));
    LegacyBlockHeldReads(h', m);
  }
}
