/** The GoogleSheet class of the older sheet.py: the same ledger, with a two-column roster,
    its first month block fixed at 8/2021, and the differences in addTenant and the set
    methods that LegacyLedger describes. Each method's contract says that the worksheet ends
    as the batches of the matching LegacyLedger function leave it, that exactly those batches
    were sent, and that it returns (or raises) what that function does. */
module LegacySheet {
  import opened Results
  import opened Calendar
  import opened Numbers
  import opened Layout
  import opened Grid
  import opened Dicts
  import opened Records
  import opened Codec
  import opened Spacers
  import opened LegacyCodec
  import opened Ledger
  import opened LegacyLedger
  import Proration
  import LegacyProration
  import AppSheet

  /** removeTenant keeps the grid readable: it writes only when it has read the roster and the
      month's block, and then within the roster rows and that block. */
  lemma LegacyRemoveTenantKeepsSpacers(g: Rows, name: string, t: YearMonth)
    requires SpacersBlank(g) && Narrow(g) && Addressable(LEGACY_EPOCH, t)
    ensures var h := ApplyBatches(g, LegacyRemoveTenant(g, name, t).batches);
      SpacersBlank(h) && Narrow(h)
  {
    var read := LegacyRoster(AllValues(g));
    var month := LegacyMonthBlockData(AllValues(g), t);
    if read.Ok? && name in Keys(read.value, LegacyName) && month.Ok? && month.value.Some? {
      LegacyRemoveTenantReads(g, name, t, read.value, month.value.value);
    }
  }

  /** markRentAsPaid keeps the grid readable. */
  lemma LegacyMarkRentAsPaidKeepsSpacers(g: Rows, name: string, t: YearMonth)
    requires SpacersBlank(g) && Narrow(g) && Addressable(LEGACY_EPOCH, t)
    ensures var h := ApplyBatches(g, LegacyMarkRentAsPaid(g, name, t).batches);
      SpacersBlank(h) && Narrow(h)
  {
    var read := LegacyRoster(AllValues(g));
    var month := LegacyMonthBlockData(AllValues(g), t);
    if read.Ok? && name in Keys(read.value, LegacyName) && month.Ok? && month.value.Some? {
      LegacyMarkRentAsPaidReads(g, name, t, read.value, month.value.value);
    }
  }

  /** setWeeksStayed keeps the grid readable. */
  lemma LegacySetWeeksStayedKeepsSpacers(g: Rows, weeks: Decimal, name: string, t: YearMonth)
    requires SpacersBlank(g) && Narrow(g) && Addressable(LEGACY_EPOCH, t)
    ensures var h := ApplyBatches(g, LegacySetWeeksStayed(g, weeks, name, t).batches);
      SpacersBlank(h) && Narrow(h)
  {
    var read := LegacyRoster(AllValues(g));
    if read.Ok? && name in Keys(read.value, LegacyName) {
      LegacySetWeeksStayedReads(g, weeks, name, t);
    }
  }

  class LegacyGoogleSheet {
    const wksheet: Worksheet

    /** The connection is left out: the sheet is handed its worksheet. */
    constructor (wksheet: Worksheet)
      ensures this.wksheet == wksheet
    {
      this.wksheet := wksheet;
    }

    /** The spacer rows are blank and no row is wider than a line item, which keeps every
        block readable by this engine. */
    ghost predicate Valid()
      reads this, wksheet
    {
      SpacersBlank(wksheet.rows) && Narrow(wksheet.rows)
    }

    /** The step the set methods share: the month as read, or, when its block is missing, the
        creation writes sent and the month read again; None then is the AttributeError the
        Python raises. */
    method ReadOrCreateMonth(time: YearMonth) returns (monthData: Result<MonthData>)
      requires Addressable(LEGACY_EPOCH, time)
      modifies wksheet
      ensures var o := LegacyMonthOrCreate(old(wksheet.rows), time);
        AppSheet.Sent(wksheet, old(wksheet.rows), old(wksheet.batches), o) && monthData == o.result
      ensures old(Valid()) ==> Valid()
    {
      ghost var g0, b0 := wksheet.rows, wksheet.batches;
      var allRows := wksheet.AllRows();
      var read := LegacyMonthBlockData(allRows, time);
      if read.Err? {
        return Err(read.error);
      }
      if read.value.Some? {
        return Ok(read.value.value);
      }
      var updates := LegacyCreateMonthBlockData(allRows, time);
      if updates.Err? {
        return Err(updates.error);
      }
      wksheet.BatchUpdate(updates.value);
      AppSheet.SentOne(wksheet, g0, b0, updates.value, LegacyMonthOrCreate(g0, time));
      if SpacersBlank(g0) && Narrow(g0) {
        LegacyMonthOrCreateReads(g0, time);
      }
      allRows := wksheet.AllRows();
      var again := LegacyMonthBlockData(allRows, time);
      if again.Err? {
        return Err(again.error);
      }
      if again.value.None? {
        return Err(NoMonthBlock);
      }
      return Ok(again.value.value);
    }

    /** addTenant. */
    method AddTenant(tenantName: string, time: YearMonth) returns (r: Result<()>)
      requires Addressable(LEGACY_EPOCH, time)
      modifies wksheet
      ensures var o := LegacyAddTenant(old(wksheet.rows), tenantName, time);
        AppSheet.Sent(wksheet, old(wksheet.rows), old(wksheet.batches), o) && r == o.result
    {
      ghost var g0, b0 := wksheet.rows, wksheet.batches;
      var allRows := wksheet.AllRows();
      var read := LegacyGetRoster(allRows);
      if read.Err? {
        return Err(read.error);
      }
      if tenantName in Keys(read.value, LegacyName) || |read.value| >= MAX_USERS {
        return Ok(());
      }
      ghost var sent: seq<seq<Update>> := [];
      if !MonthDataExists(allRows, LEGACY_EPOCH, time) {
        var created := LegacyCreateMonthBlockData(allRows, time);
        wksheet.BatchUpdate(created.value);
        sent := [created.value];
        OneBatch(g0, created.value);
        allRows := wksheet.AllRows();
        read := LegacyGetRoster(allRows);
        if read.Err? {
          return Err(read.error);
        }
      }
      ghost var g1 := wksheet.rows;
      assert g1 == ApplyBatches(g0, sent) && wksheet.batches == b0 + sent;
      assert LegacyAddTenant(g0, tenantName, time) == LegacyAddWrites(g1, sent, read.value, tenantName, time);
      var monthData := LegacyMonthBlockData(allRows, time);
      if monthData.Err? {
        return Err(monthData.error);
      }
      if monthData.value.None? {
        return Err(NoMonthBlock);
      }
      var m := monthData.value.value;
      var currentTenants := Put(read.value, LegacyName, LegacyNewcomer(tenantName, time));
      m := m.(tenants := Put(m.tenants, LineName, ZeroLine(tenantName)));
      var sheetUpdates := EncodeLegacyRoster(currentTenants) + EncodeMonthBlock(LEGACY_EPOCH, m);
      wksheet.BatchUpdate(sheetUpdates);
      AppSheet.SentSnoc(wksheet, g0, b0, sent, sheetUpdates, LegacyAddTenant(g0, tenantName, time));
      return Ok(());
    }

    /** removeTenant. */
    method RemoveTenant(tenantName: string, time: YearMonth) returns (r: Result<()>)
      requires Addressable(LEGACY_EPOCH, time)
      modifies wksheet
      ensures var o := LegacyRemoveTenant(old(wksheet.rows), tenantName, time);
        AppSheet.Sent(wksheet, old(wksheet.rows), old(wksheet.batches), o) && r == o.result
      ensures old(Valid()) ==> Valid()
    {
      var allRows := wksheet.AllRows();
      var read := LegacyGetRoster(allRows);
      if read.Err? {
        return Err(read.error);
      }
      var currentTenants := read.value;
      if tenantName !in Keys(currentTenants, LegacyName) {
        return Ok(());
      }
      currentTenants := Del(currentTenants, LegacyName, tenantName);
      var monthData := LegacyMonthBlockData(allRows, time);
      if monthData.Err? {
        return Err(monthData.error);
      }
      if monthData.value.None? {
        return Err(NoMonthBlock);
      }
      var m := monthData.value.value;
      if tenantName in Keys(m.tenants, LineName) {
        m := m.(tenants := Del(m.tenants, LineName, tenantName));
      } else {
        DelGet(m.tenants, LineName, tenantName, tenantName);
      }
      var sheetUpdates := EncodeLegacyRoster(currentTenants) + EncodeMonthBlock(LEGACY_EPOCH, m);
      ghost var g0, b0 := wksheet.rows, wksheet.batches;
      assert LegacyRemoveTenant(g0, tenantName, time).batches == [sheetUpdates];
      wksheet.BatchUpdate(sheetUpdates);
      AppSheet.SentOne(wksheet, g0, b0, sheetUpdates, LegacyRemoveTenant(g0, tenantName, time));
      if SpacersBlank(g0) && Narrow(g0) {
        LegacyRemoveTenantKeepsSpacers(g0, tenantName, time);
      }
      return Ok(());
    }

    /** markRentAsPaid. */
    method MarkRentAsPaid(tenantName: string, time: YearMonth) returns (r: Result<()>)
      requires Addressable(LEGACY_EPOCH, time)
      modifies wksheet
      ensures var o := LegacyMarkRentAsPaid(old(wksheet.rows), tenantName, time);
        AppSheet.Sent(wksheet, old(wksheet.rows), old(wksheet.batches), o) && r == o.result
      ensures old(Valid()) ==> Valid()
    {
      var allRows := wksheet.AllRows();
      var read := LegacyGetRoster(allRows);
      if read.Err? {
        return Err(read.error);
      }
      var currentTenants := read.value;
      if tenantName !in Keys(currentTenants, LegacyName) {
        return Ok(());
      }
      var tenant := Get(currentTenants, LegacyName, tenantName).value;
      currentTenants := Put(currentTenants, LegacyName, tenant.(monthsUnpaid := KeepOtherMonths(tenant.monthsUnpaid, time)));
      var monthData := LegacyMonthBlockData(allRows, time);
      if monthData.Err? {
        return Err(monthData.error);
      }
      if monthData.value.None? {
        return Err(NoMonthBlock);
      }
      var m := monthData.value.value;
      if tenantName in Keys(m.tenants, LineName) {
        var line := Get(m.tenants, LineName, tenantName).value;
        m := m.(tenants := Put(m.tenants, LineName, line.(isPaid := true)));
      }
      assert m == PaidMonth(monthData.value.value, tenantName);
      var sheetUpdates := EncodeLegacyRoster(currentTenants) + EncodeMonthBlock(LEGACY_EPOCH, m);
      ghost var g0, b0 := wksheet.rows, wksheet.batches;
      assert LegacyMarkRentAsPaid(g0, tenantName, time).batches == [sheetUpdates];
      wksheet.BatchUpdate(sheetUpdates);
      AppSheet.SentOne(wksheet, g0, b0, sheetUpdates, LegacyMarkRentAsPaid(g0, tenantName, time));
      if SpacersBlank(g0) && Narrow(g0) {
        LegacyMarkRentAsPaidKeepsSpacers(g0, tenantName, time);
      }
      return Ok(());
    }

    /** setTotalRent. */
    method SetTotalRent(totalRent: Decimal, time: YearMonth) returns (r: Result<()>)
      requires Addressable(LEGACY_EPOCH, time)
      modifies wksheet
      ensures var o := LegacySetTotalRent(old(wksheet.rows), totalRent, time);
        AppSheet.Sent(wksheet, old(wksheet.rows), old(wksheet.batches), o) && r == o.result
      ensures old(Valid()) ==> Valid()
    {
      ghost var g0, b0 := wksheet.rows, wksheet.batches;
      ghost var created := LegacyMonthOrCreate(g0, time).batches;
      var monthData := ReadOrCreateMonth(time);
      if monthData.Err? {
        return Err(monthData.error);
      }
      var m := monthData.value.(totalRent := totalRent);
      var sheetUpdates := EncodeMonthBlock(LEGACY_EPOCH, m);
      wksheet.BatchUpdate(sheetUpdates);
      AppSheet.SentSnoc(wksheet, g0, b0, created, sheetUpdates, LegacySetTotalRent(g0, totalRent, time));
      if SpacersBlank(g0) && Narrow(g0) {
        LegacySetTotalRentReads(g0, totalRent, time);
      }
      return Ok(());
    }

    /** setTotalUtility. */
    method SetTotalUtility(totalUtility: Decimal, time: YearMonth) returns (r: Result<()>)
      requires Addressable(LEGACY_EPOCH, time)
      modifies wksheet
      ensures var o := LegacySetTotalUtility(old(wksheet.rows), totalUtility, time);
        AppSheet.Sent(wksheet, old(wksheet.rows), old(wksheet.batches), o) && r == o.result
      ensures old(Valid()) ==> Valid()
    {
      ghost var g0, b0 := wksheet.rows, wksheet.batches;
      ghost var created := LegacyMonthOrCreate(g0, time).batches;
      var monthData := ReadOrCreateMonth(time);
      if monthData.Err? {
        return Err(monthData.error);
      }
      var m := monthData.value.(totalUtility := totalUtility);
      var sheetUpdates := EncodeMonthBlock(LEGACY_EPOCH, m);
      wksheet.BatchUpdate(sheetUpdates);
      AppSheet.SentSnoc(wksheet, g0, b0, created, sheetUpdates, LegacySetTotalUtility(g0, totalUtility, time));
      if SpacersBlank(g0) && Narrow(g0) {
        LegacySetTotalUtilityReads(g0, totalUtility, time);
      }
      return Ok(());
    }

    /** setWeeksStayed. */
    method SetWeeksStayed(weeks: Decimal, tenantName: string, time: YearMonth) returns (r: Result<()>)
      requires Addressable(LEGACY_EPOCH, time)
      modifies wksheet
      ensures var o := LegacySetWeeksStayed(old(wksheet.rows), weeks, tenantName, time);
        AppSheet.Sent(wksheet, old(wksheet.rows), old(wksheet.batches), o) && r == o.result
      ensures old(Valid()) ==> Valid()
    {
      var read := LegacyGetRoster(wksheet.AllRows());
      if read.Err? {
        return Err(read.error);
      }
      if tenantName !in Keys(read.value, LegacyName) {
        return Ok(());
      }
      ghost var g0, b0 := wksheet.rows, wksheet.batches;
      ghost var created := LegacyMonthOrCreate(g0, time).batches;
      var monthData := ReadOrCreateMonth(time);
      if monthData.Err? {
        return Err(monthData.error);
      }
      var m := monthData.value;
      if tenantName !in Keys(m.tenants, LineName) {
        return Err(UnknownTenant);
      }
      var line := Get(m.tenants, LineName, tenantName).value;
      m := m.(tenants := Put(m.tenants, LineName, line.(weeksStayed := weeks)));
      assert m == WeeksMonth(monthData.value, tenantName, weeks);
      var sheetUpdates := EncodeMonthBlock(LEGACY_EPOCH, m);
      wksheet.BatchUpdate(sheetUpdates);
      AppSheet.SentSnoc(wksheet, g0, b0, created, sheetUpdates, LegacySetWeeksStayed(g0, weeks, tenantName, time));
      if SpacersBlank(g0) && Narrow(g0) {
        LegacySetWeeksStayedKeepsSpacers(g0, weeks, tenantName, time);
      }
      return Ok(());
    }

    /** getAmountsOwed: reads the worksheet only. */
    method GetAmountsOwed() returns (r: Result<seq<Proration.Owed>>)
      ensures r == LegacyProration.LegacyAmountsOwed(wksheet.AllRows())
    {
      r := LegacyProration.LegacyGetAmountsOwed(wksheet.AllRows());
    }
  }
}
