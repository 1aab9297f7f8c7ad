/** The rows that no write of the ledger ever reaches: the row right after the roster's
    MAX_USERS rows (index 21) and the last row of every month block (indices 48, 73, 98, ...,
    one block apart). Blank in column A, each ends the run of data rows above it, which is
    what lets the roster and every month block be read back as they were written
    (app/sheet.py:96-97, 224-302). */
module Spacers {
  import opened Results
  import opened Calendar
  import opened Layout
  import opened Grid
  import opened Dicts
  import opened Records
  import opened Codec
  import opened Regions

  /** The spacer rows are blank in column A. The block spacers are written with the literal
      block size, 25, so that the arithmetic stays linear. */
  ghost predicate SpacersBlank(g: Rows) {
    && Cell(g, 1 + MAX_USERS, 0) == ""
    && forall r: nat :: r >= 48 && r % 25 == 23 ==> Cell(g, r, 0) == ""
  }

  /** The last row of an addressable month's block is a spacer. */
  lemma BlockSpacer(g: Rows, epoch: YearMonth, t: YearMonth)
    requires SpacersBlank(g) && Addressable(epoch, t)
    ensures Cell(g, BlockIndex(epoch, t) + MONTH_BLOCK_SIZE - 1, 0) == ""
    ensures Cell(g, BlockIndex(epoch, t) + 4 + MAX_USERS, 0) == ""
  {
    var k := MonthsFromEpoch(epoch, t);
    var r := BlockIndex(epoch, t) + MONTH_BLOCK_SIZE - 1;
    assert r == 25 * k + 48;
    assert r % 25 == 23;
  }

  /** A block's label row sits just after a spacer's residue: its index leaves 24 on division
      by the block size. */
  lemma BlockIndexResidue(epoch: YearMonth, t: YearMonth)
    requires Addressable(epoch, t)
    ensures BlockIndex(epoch, t) % 25 == 24
  {
    var k := MonthsFromEpoch(epoch, t);
    assert BlockIndex(epoch, t) == 25 * k + 24;
  }

  /** A batch confined either to rows before the roster's spacer, or to the rows of one month
      block up to but not including its spacer, keeps every spacer blank. */
  lemma SpacersOutside(g: Rows, us: seq<Update>, lo: nat, hi: nat)
    requires SpacersBlank(g) && WithinRows(us, lo, hi)
    requires hi <= 1 + MAX_USERS || (lo >= 24 && lo % 25 == 24 && hi <= lo + 24)
    ensures SpacersBlank(ApplyAll(g, us))
  {
    ApplyAllOutside(g, us, lo, hi, 1 + MAX_USERS);
    forall r: nat | r >= 48 && r % 25 == 23 ensures Cell(ApplyAll(g, us), r, 0) == "" {
      assert r == 25 * (r / 25) + 23;
      assert hi <= 1 + MAX_USERS ==> hi <= r;
      assert lo % 25 == 24 ==> lo == 25 * (lo / 25) + 24;
      ApplyAllOutside(g, us, lo, hi, r);
    }
  }

  /** _updateCurrentTenantsData's writes keep every spacer blank. */
  lemma EncodeRosterKeepsSpacers(g: Rows, ts: seq<CurrentTenant>)
    requires SpacersBlank(g) && |ts| <= MAX_USERS
    ensures SpacersBlank(ApplyAll(g, EncodeRoster(ts)))
  {
    SpacersOutside(g, EncodeRoster(ts), 1, 1 + MAX_USERS);
  }

  /** _updateMonthBlockData's writes keep every spacer blank. */
  lemma EncodeMonthBlockKeepsSpacers(g: Rows, epoch: YearMonth, m: MonthData)
    requires SpacersBlank(g) && Addressable(epoch, TimeOf(m)) && |m.tenants| <= MAX_USERS
    ensures SpacersBlank(ApplyAll(g, EncodeMonthBlock(epoch, m)))
  {
    var top := BlockIndex(epoch, TimeOf(m));
    BlockIndexResidue(epoch, TimeOf(m));
    SpacersOutside(g, EncodeMonthBlock(epoch, m), top, top + MONTH_BLOCK_SIZE - 1);
  }

  /** With its spacer blank, the roster read from a sheet is well formed: non-empty distinct
      names, real months, at most MAX_USERS tenants. */
  lemma RosterReadWellFormed(g: Rows, ts: seq<CurrentTenant>)
    requires Cell(g, 1 + MAX_USERS, 0) == ""
    requires CurrentTenantData(AllValues(g)) == Ok(ts)
    ensures WellFormedRoster(ts)
  {
    var run := DataRows(AllValues(g), 1);
    RunBounded(g, 1, MAX_USERS);
    var p := (t: CurrentTenant) => t.name != "" && forall k :: 0 <= k < |t.monthsUnpaid| ==> Valid(t.monthsUnpaid[k]);
    forall i | 0 <= i < |run| && CurrentTenantFromRow(run[i]).Ok? ensures p(CurrentTenantFromRow(run[i]).value) {
      assert HasData(run[i]);
    }
    DecodeAllHolds(run, CurrentTenantFromRow, RosterName, p);
    assert forall i :: 0 <= i < |ts| ==> p(ts[i]);
  }

  /** With its spacer blank, a month block's run of line items is at most MAX_USERS long. */
  lemma BlockRunBounded(g: Rows, epoch: YearMonth, t: YearMonth)
    requires SpacersBlank(g) && Addressable(epoch, t)
    ensures |DataRows(AllValues(g), BlockIndex(epoch, t) + 4)| <= MAX_USERS
  {
    BlockSpacer(g, epoch, t);
    RunBounded(g, BlockIndex(epoch, t) + 4, MAX_USERS);
  }

  /** With the spacers blank, the line items read from a month block are well formed:
      non-empty distinct names, at most MAX_USERS of them. */
  lemma MonthReadWellFormed(g: Rows, epoch: YearMonth, t: YearMonth, m: MonthData)
    requires SpacersBlank(g) && Addressable(epoch, t)
    requires MonthBlockData(AllValues(g), epoch, t) == Ok(Some(m))
    ensures WellFormedLines(m.tenants)
  {
    BlockRunBounded(g, epoch, t);
    MonthBoundedWellFormed(AllValues(g), epoch, t, m);
  }

  /** The same for any rows whose run of line items is at most MAX_USERS long. */
  lemma MonthBoundedWellFormed(a: Rows, epoch: YearMonth, t: YearMonth, m: MonthData)
    requires Addressable(epoch, t)
    requires |DataRows(a, BlockIndex(epoch, t) + 4)| <= MAX_USERS
    requires MonthBlockData(a, epoch, t) == Ok(Some(m))
    ensures WellFormedLines(m.tenants)
  {
    MonthBlockTenants(a, epoch, t);
    LinesNamed(DataRows(a, BlockIndex(epoch, t) + 4), m.tenants);
  }

  /** Line items decoded from a run of data rows all have non-empty names. */
  lemma LinesNamed(run: seq<Row>, ts: seq<MonthlyTenant>)
    requires forall i :: 0 <= i < |run| ==> HasData(run[i])
    requires TenantsFromMonthRows(run) == Ok(ts)
    ensures forall i :: 0 <= i < |ts| ==> ts[i].name != ""
  {
    var p := (x: MonthlyTenant) => x.name != "";
    forall i | 0 <= i < |run| && TenantFromRow(run[i]).Ok? ensures p(TenantFromRow(run[i]).value) {
      assert HasData(run[i]);
    }
    DecodeAllHolds(run, TenantFromRow, LineName, p);
    assert forall i :: 0 <= i < |ts| ==> p(ts[i]);
  }

  /** The roster writes leave the roster region holding the roster and every spacer blank. */
  lemma RosterWriteHeld(g: Rows, ts: seq<CurrentTenant>)
    requires SpacersBlank(g) && |ts| <= MAX_USERS
    ensures RosterHeld(ApplyAll(g, EncodeRoster(ts)), ts)
    ensures SpacersBlank(ApplyAll(g, EncodeRoster(ts)))
  {
    EncodeRosterHeld(g, ts);
    EncodeRosterKeepsSpacers(g, ts);
  }

  /** A month's writes leave its block holding the record and every spacer blank. */
  lemma BlockWriteHeld(g: Rows, epoch: YearMonth, m: MonthData)
    requires SpacersBlank(g) && Addressable(epoch, TimeOf(m)) && |m.tenants| <= MAX_USERS
    ensures BlockHeld(ApplyAll(g, EncodeMonthBlock(epoch, m)), BlockIndex(epoch, TimeOf(m)), m)
    ensures SpacersBlank(ApplyAll(g, EncodeMonthBlock(epoch, m)))
  {
    BlockSpacer(g, epoch, TimeOf(m));
    EncodeMonthBlockHeld(g, epoch, m);
    EncodeMonthBlockKeepsSpacers(g, epoch, m);
  }

  /** A month's writes leave the roster region as it was. */
  lemma BlockWriteKeepsRoster(h: Rows, epoch: YearMonth, m: MonthData, ts: seq<CurrentTenant>)
    requires RosterHeld(h, ts) && Addressable(epoch, TimeOf(m)) && |m.tenants| <= MAX_USERS
    ensures RosterHeld(ApplyAll(h, EncodeMonthBlock(epoch, m)), ts)
  {
    var top := BlockIndex(epoch, TimeOf(m));
    HeldApplyOutside(h, EncodeMonthBlock(epoch, m), top, top + MONTH_BLOCK_SIZE - 1, 1, RosterRows(ts), 3, MAX_USERS);
  }

  /** The roster writes followed by a month's writes, as one batch, leave the roster region
      holding the roster, the month's block holding the record, and every spacer blank. */
  lemma RosterAndBlockHeld(g: Rows, epoch: YearMonth, ts: seq<CurrentTenant>, m: MonthData)
    requires SpacersBlank(g) && |ts| <= MAX_USERS
    requires Addressable(epoch, TimeOf(m)) && |m.tenants| <= MAX_USERS
    ensures var h := ApplyAll(g, EncodeRoster(ts) + EncodeMonthBlock(epoch, m));
      RosterHeld(h, ts) && BlockHeld(h, BlockIndex(epoch, TimeOf(m)), m) && SpacersBlank(h)
  {
    var g1 := ApplyAll(g, EncodeRoster(ts));
    ApplyAllAppend(g, EncodeRoster(ts), EncodeMonthBlock(epoch, m));
    RosterWriteHeld(g, ts);
    BlockWriteHeld(g1, epoch, m);
    BlockWriteKeepsRoster(g1, epoch, m, ts);
  }
}
