/** The GoogleSheet class of app/sheet.py: the ledger's operations run against the worksheet
    it holds. Each method reads the worksheet, edits its records in local variables, and
    sends its writes with batch_update, as the Python does; its contract says that the
    worksheet ends as the batches of the matching Ledger function leave it, that exactly
    those batches were sent, and that it returns (or raises) what that function does. The
    properties of the operations are proved about those functions. */
module AppSheet {
  import opened Results
  import opened Calendar
  import opened Numbers
  import opened Layout
  import opened Grid
  import opened Dicts
  import opened Records
  import opened Codec
  import opened Spacers
  import Ledger
  import Proration

  /** The worksheet has gone through exactly the batches of an operation that started from
      rows g0 with log b0. */
  ghost predicate Sent<T>(w: Worksheet, g0: Rows, b0: seq<seq<Update>>, o: Ledger.Outcome<T>)
    reads w
  {
    w.rows == ApplyBatches(g0, o.batches) && w.batches == b0 + o.batches
  }

  /** A batch sent after an operation's earlier batches completes the operation. */
  lemma SentSnoc<T>(w: Worksheet, g0: Rows, b0: seq<seq<Update>>, earlier: seq<seq<Update>>, us: seq<Update>, o: Ledger.Outcome<T>)
    requires w.rows == ApplyAll(ApplyBatches(g0, earlier), us) && w.batches == (b0 + earlier) + [us]
    requires o.batches == earlier + [us]
    ensures Sent(w, g0, b0, o)
  {
    ApplyBatchesSnoc(g0, earlier, us);
    assert (b0 + earlier) + [us] == b0 + (earlier + [us]);
  }

  /** The same for an operation that sends a single batch. */
  lemma SentOne<T>(w: Worksheet, g0: Rows, b0: seq<seq<Update>>, us: seq<Update>, o: Ledger.Outcome<T>)
    requires w.rows == ApplyAll(g0, us) && w.batches == b0 + [us]
    requires o.batches == [us]
    ensures Sent(w, g0, b0, o)
  {
    OneBatch(g0, us);
  }

  /** The creation step keeps the spacers blank. */
  lemma MonthCreatedValid(g: Rows, epoch: YearMonth, time: YearMonth)
    requires SpacersBlank(g) && Addressable(epoch, time)
    ensures SpacersBlank(ApplyBatches(g, Ledger.CreateNewMonth(g, epoch, time).batches))
  {
    if !MonthDataExists(AllValues(g), epoch, time) && CurrentTenantData(AllValues(g)).Ok? {
      Ledger.CreateNewMonthReads(g, epoch, time);
    } else if MonthDataExists(AllValues(g), epoch, time) {
      OneBatch(g, []);
    }
  }

  /** removeTenant keeps the spacers blank: it writes only when it has read the roster and
      the month, and then within the roster rows and the month's own block. */
  lemma RemoveTenantKeepsSpacers(g: Rows, epoch: YearMonth, name: string, t: YearMonth)
    requires SpacersBlank(g) && Addressable(epoch, t)
    ensures SpacersBlank(ApplyBatches(g, Ledger.RemoveTenant(g, epoch, name, t).batches))
  {
    var read := CurrentTenantData(AllValues(g));
    if read.Ok? && name in Keys(read.value, RosterName) && MonthBlockData(AllValues(g), epoch, t).Ok? {
      Ledger.RemoveTenantReads(g, epoch, name, t, read.value);
    }
  }

  /** markRentAsPaid keeps the spacers blank. */
  lemma MarkRentAsPaidKeepsSpacers(g: Rows, epoch: YearMonth, name: string, t: YearMonth)
    requires SpacersBlank(g) && Addressable(epoch, t)
    ensures SpacersBlank(ApplyBatches(g, Ledger.MarkRentAsPaid(g, epoch, name, t).batches))
  {
    var read := CurrentTenantData(AllValues(g));
    var month := MonthBlockData(AllValues(g), epoch, t);
    if read.Ok? && name in Keys(read.value, RosterName) && month.Ok? && month.value.Some? {
      Ledger.MarkRentAsPaidReads(g, epoch, name, t, read.value, month.value.value);
    }
  }

  /** setWeeksStayed keeps the spacers blank. */
  lemma SetWeeksStayedKeepsSpacers(g: Rows, epoch: YearMonth, weeks: Decimal, name: string, t: YearMonth)
    requires SpacersBlank(g) && Addressable(epoch, t)
    ensures SpacersBlank(ApplyBatches(g, Ledger.SetWeeksStayed(g, epoch, weeks, name, t).batches))
  {
    var read := CurrentTenantData(AllValues(g));
    if read.Ok? && name in Keys(read.value, RosterName) {
      Ledger.SetWeeksStayedReads(g, epoch, weeks, name, t);
    }
  }

  class GoogleSheet {
    /** RENTBOT_START_TIME: the month whose block follows the roster. */
    const epoch: YearMonth
    const wksheet: Worksheet

    /** The connection is left out: the sheet is handed its worksheet. */
    constructor (epoch: YearMonth, wksheet: Worksheet)
      ensures this.epoch == epoch && this.wksheet == wksheet
    {
      this.epoch := epoch;
      this.wksheet := wksheet;
    }

    /** The grid's spacer rows are blank, which keeps every block readable. */
    ghost predicate Valid()
      reads this, wksheet
    {
      SpacersBlank(wksheet.rows)
    }

    /** createNewMonth: sends the creation writes (possibly none) as one batch, then reads the
        month back from the grid they leave. */
    method CreateNewMonth(time: YearMonth) returns (allRows: Rows, monthData: Result<Option<MonthData>>)
      requires Addressable(epoch, time)
      modifies wksheet
      ensures var o := Ledger.CreateNewMonth(old(wksheet.rows), epoch, time);
        Sent(wksheet, old(wksheet.rows), old(wksheet.batches), o) && monthData == o.result
      ensures monthData.Ok? ==> allRows == wksheet.AllRows()
      ensures old(Valid()) ==> Valid()
    {
      allRows := wksheet.AllRows();
      var updates := Ledger.CreateMonthBlockData(allRows, epoch, time);
      if updates.Err? {
        return allRows, Err(updates.error);
      }
      wksheet.BatchUpdate(updates.value);
      OneBatch(old(wksheet.rows), updates.value);
      allRows := wksheet.AllRows();
      monthData := MonthBlockData(allRows, epoch, time);
      if old(Valid()) {
        MonthCreatedValid(old(wksheet.rows), epoch, time);
      }
    }

    /** The step shared by addTenant and the set methods: the month as read, or, when its block
        is missing, as createNewMonth leaves it; None after creation is the AttributeError the
        Python then raises. */
    method ReadOrCreateMonth(time: YearMonth) returns (monthData: Result<MonthData>)
      requires Addressable(epoch, time)
      modifies wksheet
      ensures var o := Ledger.MonthOrCreate(old(wksheet.rows), epoch, time);
        Sent(wksheet, old(wksheet.rows), old(wksheet.batches), o) && monthData == o.result
      ensures old(Valid()) ==> Valid()
    {
      var read := MonthBlockData(wksheet.AllRows(), epoch, time);
      if read.Err? {
        return Err(read.error);
      }
      if read.value.Some? {
        return Ok(read.value.value);
      }
      var _, created := CreateNewMonth(time);
      if created.Err? {
        return Err(created.error);
      }
      if created.value.None? {
        return Err(NoMonthBlock);
      }
      return Ok(created.value.value);
    }

    /** addTenant. */
    method AddTenant(tenantName: string, time: YearMonth) returns (r: Result<()>)
      requires Addressable(epoch, time)
      modifies wksheet
      ensures var o := Ledger.AddTenant(old(wksheet.rows), epoch, tenantName, time);
        Sent(wksheet, old(wksheet.rows), old(wksheet.batches), o) && r == o.result
    {
      var allRows := wksheet.AllRows();
      var read := GetCurrentTenantData(allRows);
      if read.Err? {
        return Err(read.error);
      }
      var currentTenants := read.value;
      if tenantName in Keys(currentTenants, RosterName) {
        return Ok(());
      }
      if |currentTenants| >= MAX_USERS {
        return Ok(());
      }
      ghost var g0, b0 := wksheet.rows, wksheet.batches;
      ghost var created := Ledger.MonthOrCreate(g0, epoch, time).batches;
      var monthData := ReadOrCreateMonth(time);
      if monthData.Err? {
        return Err(monthData.error);
      }
      var m := monthData.value;
      var newTenant := CurrentTenant(tenantName, [time], FULLTIME);
      currentTenants := Put(currentTenants, RosterName, newTenant);
      m := m.(tenants := Put(m.tenants, LineName, MonthlyTenant(tenantName, InitialWeeksStayed(newTenant.staySchedule), false)));
      var sheetUpdates := EncodeRoster(currentTenants) + EncodeMonthBlock(epoch, m);
      wksheet.BatchUpdate(sheetUpdates);
      Ledger.AddTenantWrites(g0, epoch, tenantName, time, read.value);
      SentSnoc(wksheet, g0, b0, created, sheetUpdates, Ledger.AddTenant(g0, epoch, tenantName, time));
      return Ok(());
    }

    /** removeTenant. */
    method RemoveTenant(tenantName: string, time: YearMonth) returns (r: Result<()>)
      requires Addressable(epoch, time)
      modifies wksheet
      ensures var o := Ledger.RemoveTenant(old(wksheet.rows), epoch, tenantName, time);
        Sent(wksheet, old(wksheet.rows), old(wksheet.batches), o) && r == o.result
      ensures old(Valid()) ==> Valid()
    {
      var allRows := wksheet.AllRows();
      var read := GetCurrentTenantData(allRows);
      if read.Err? {
        return Err(read.error);
      }
      var currentTenants := read.value;
      if tenantName !in Keys(currentTenants, RosterName) {
        return Ok(());
      }
      currentTenants := Del(currentTenants, RosterName, tenantName);
      var monthData := MonthBlockData(allRows, epoch, time);
      if monthData.Err? {
        return Err(monthData.error);
      }
      var sheetUpdates := EncodeRoster(currentTenants);
      if monthData.value.Some? {
        var m := monthData.value.value;
        if tenantName in Keys(m.tenants, LineName) {
          m := m.(tenants := Del(m.tenants, LineName, tenantName));
        } else {
          DelGet(m.tenants, LineName, tenantName, tenantName);
        }
        sheetUpdates := sheetUpdates + EncodeMonthBlock(epoch, m);
      }
      ghost var g0, b0 := wksheet.rows, wksheet.batches;
      assert Ledger.RemoveTenant(g0, epoch, tenantName, time).batches == [sheetUpdates];
      wksheet.BatchUpdate(sheetUpdates);
      SentOne(wksheet, g0, b0, sheetUpdates, Ledger.RemoveTenant(g0, epoch, tenantName, time));
      if SpacersBlank(g0) {
        RemoveTenantKeepsSpacers(g0, epoch, tenantName, time);
      }
      return Ok(());
    }

    /** markRentAsPaid. */
    method MarkRentAsPaid(tenantName: string, time: YearMonth) returns (r: Result<()>)
      requires Addressable(epoch, time)
      modifies wksheet
      ensures var o := Ledger.MarkRentAsPaid(old(wksheet.rows), epoch, tenantName, time);
        Sent(wksheet, old(wksheet.rows), old(wksheet.batches), o) && r == o.result
      ensures old(Valid()) ==> Valid()
    {
      var allRows := wksheet.AllRows();
      var read := GetCurrentTenantData(allRows);
      if read.Err? {
        return Err(read.error);
      }
      var currentTenants := read.value;
      if tenantName !in Keys(currentTenants, RosterName) {
        return Ok(());
      }
      var tenant := Get(currentTenants, RosterName, tenantName).value;
      currentTenants := Put(currentTenants, RosterName, tenant.(monthsUnpaid := Ledger.KeepOtherMonths(tenant.monthsUnpaid, time)));
      var monthData := MonthBlockData(allRows, epoch, time);
      if monthData.Err? {
        return Err(monthData.error);
      }
      if monthData.value.None? {
        return Err(MonthNotFound);
      }
      var m := monthData.value.value;
      if tenantName in Keys(m.tenants, LineName) {
        var line := Get(m.tenants, LineName, tenantName).value;
        m := m.(tenants := Put(m.tenants, LineName, line.(isPaid := true)));
      }
      assert m == Ledger.PaidMonth(monthData.value.value, tenantName);
      var sheetUpdates := EncodeRoster(currentTenants) + EncodeMonthBlock(epoch, m);
      ghost var g0, b0 := wksheet.rows, wksheet.batches;
      Ledger.MarkRentAsPaidWrites(g0, epoch, tenantName, time, read.value, monthData.value.value);
      wksheet.BatchUpdate(sheetUpdates);
      SentOne(wksheet, g0, b0, sheetUpdates, Ledger.MarkRentAsPaid(g0, epoch, tenantName, time));
      if SpacersBlank(g0) {
        MarkRentAsPaidKeepsSpacers(g0, epoch, tenantName, time);
      }
      return Ok(());
    }

    /** setTotalRent. */
    method SetTotalRent(totalRent: Decimal, time: YearMonth) returns (r: Result<()>)
      requires Addressable(epoch, time)
      modifies wksheet
      ensures var o := Ledger.SetTotalRent(old(wksheet.rows), epoch, totalRent, time);
        Sent(wksheet, old(wksheet.rows), old(wksheet.batches), o) && r == o.result
      ensures old(Valid()) ==> Valid()
    {
      ghost var g0, b0 := wksheet.rows, wksheet.batches;
      ghost var created := Ledger.MonthOrCreate(g0, epoch, time).batches;
      var monthData := ReadOrCreateMonth(time);
      if monthData.Err? {
        return Err(monthData.error);
      }
      var m := monthData.value.(totalRent := totalRent);
      var sheetUpdates := EncodeMonthBlock(epoch, m);
      wksheet.BatchUpdate(sheetUpdates);
      SentSnoc(wksheet, g0, b0, created, sheetUpdates, Ledger.SetTotalRent(g0, epoch, totalRent, time));
      if SpacersBlank(g0) {
        Ledger.SetTotalRentReads(g0, epoch, totalRent, time);
      }
      return Ok(());
    }

    /** setTotalUtility. */
    method SetTotalUtility(totalUtility: Decimal, time: YearMonth) returns (r: Result<()>)
      requires Addressable(epoch, time)
      modifies wksheet
      ensures var o := Ledger.SetTotalUtility(old(wksheet.rows), epoch, totalUtility, time);
        Sent(wksheet, old(wksheet.rows), old(wksheet.batches), o) && r == o.result
      ensures old(Valid()) ==> Valid()
    {
      ghost var g0, b0 := wksheet.rows, wksheet.batches;
      ghost var created := Ledger.MonthOrCreate(g0, epoch, time).batches;
      var monthData := ReadOrCreateMonth(time);
      if monthData.Err? {
        return Err(monthData.error);
      }
      var m := monthData.value.(totalUtility := totalUtility);
      var sheetUpdates := EncodeMonthBlock(epoch, m);
      wksheet.BatchUpdate(sheetUpdates);
      SentSnoc(wksheet, g0, b0, created, sheetUpdates, Ledger.SetTotalUtility(g0, epoch, totalUtility, time));
      if SpacersBlank(g0) {
        Ledger.SetTotalUtilityReads(g0, epoch, totalUtility, time);
      }
      return Ok(());
    }

    /** setWeeksStayed. */
    method SetWeeksStayed(weeks: Decimal, tenantName: string, time: YearMonth) returns (r: Result<()>)
      requires Addressable(epoch, time)
      modifies wksheet
      ensures var o := Ledger.SetWeeksStayed(old(wksheet.rows), epoch, weeks, tenantName, time);
        Sent(wksheet, old(wksheet.rows), old(wksheet.batches), o) && r == o.result
      ensures old(Valid()) ==> Valid()
    {
      var read := GetCurrentTenantData(wksheet.AllRows());
      if read.Err? {
        return Err(read.error);
      }
      if tenantName !in Keys(read.value, RosterName) {
        return Ok(());
      }
      ghost var g0, b0 := wksheet.rows, wksheet.batches;
      ghost var created := Ledger.MonthOrCreate(g0, epoch, time).batches;
      var monthData := ReadOrCreateMonth(time);
      if monthData.Err? {
        return Err(monthData.error);
      }
      var m := monthData.value;
      if tenantName !in Keys(m.tenants, LineName) {
        return Err(UnknownTenant);
      }
      var line := Get(m.tenants, LineName, tenantName).value;
      m := m.(tenants := Put(m.tenants, LineName, line.(weeksStayed := weeks)));
      assert m == Ledger.WeeksMonth(monthData.value, tenantName, weeks);
      var sheetUpdates := EncodeMonthBlock(epoch, m);
      wksheet.BatchUpdate(sheetUpdates);
      SentSnoc(wksheet, g0, b0, created, sheetUpdates, Ledger.SetWeeksStayed(g0, epoch, weeks, tenantName, time));
      if SpacersBlank(g0) {
        SetWeeksStayedKeepsSpacers(g0, epoch, weeks, tenantName, time);
      }
      return Ok(());
    }

    /** getAmountsOwed: reads the worksheet only. */
    method GetAmountsOwed() returns (r: Result<seq<Proration.Owed>>)
      ensures r == Proration.AmountsOwed(wksheet.AllRows(), epoch)
    {
      r := Proration.GetAmountsOwed(wksheet.AllRows(), epoch);
    }
  }
}
