/** getAmountsOwed of the older engine (sheet.py:402-444). Its arithmetic is the same as
    app/sheet.py's, so the per-month shares and the running totals are those of Proration;
    what differs is how the roster and the month blocks are read. */
module LegacyProration {
  import opened Results
  import opened Calendar
  import opened Layout
  import opened Grid
  import opened Dicts
  import opened Records
  import opened Codec
  import opened LegacyCodec
  import opened Proration

  /** The older roster's entries as the newer roster's, for the computations the two engines
      share; the schedule, which the older roster does not record, plays no part in them. */
  function AsCurrent(ts: seq<LegacyTenant>): (cs: seq<CurrentTenant>)
    ensures |cs| == |ts|
    ensures forall i :: 0 <= i < |ts| ==> cs[i].name == ts[i].name && cs[i].monthsUnpaid == ts[i].monthsUnpaid
    ensures Keys(cs, RosterName) == Keys(ts, LegacyName)
  {
    seq(|ts|, i requires 0 <= i < |ts| => CurrentTenant(ts[i].name, ts[i].monthsUnpaid, FULLTIME))
  }

  /** The union of the unpaid months, each once. */
  function LegacyMonthsOwed(ts: seq<LegacyTenant>): (ms: seq<YearMonth>)
    ensures forall i, j :: 0 <= i < j < |ms| ==> ms[i] != ms[j]
  {
    MonthsOwed(AsCurrent(ts))
  }

  /** A month is owed exactly when some tenant has it among their unpaid months. */
  lemma LegacyMonthsOwedMembers(ts: seq<LegacyTenant>, t: YearMonth)
    ensures t in LegacyMonthsOwed(ts) <==> exists i :: 0 <= i < |ts| && t in ts[i].monthsUnpaid
  {
    var cs := AsCurrent(ts);
    MonthsOwedMembers(cs, t);
    if t in LegacyMonthsOwed(ts) {
      var i :| 0 <= i < |cs| && t in cs[i].monthsUnpaid;
      assert t in ts[i].monthsUnpaid;
    } else {
      forall i | 0 <= i < |ts| ensures t !in ts[i].monthsUnpaid {
        assert cs[i].monthsUnpaid == ts[i].monthsUnpaid;
      }
    }
  }

  /** One month of getAmountsOwed: its block read as a record. A month before 8/2021 has no
      block to read; a missing block fails the proration as the None it reads as would. */
  function LegacyMonthAt(allRows: Rows, t: YearMonth): (r: Result<MonthData>)
    ensures r.Ok? ==> Addressable(LEGACY_EPOCH, t) && LegacyMonthBlockData(allRows, t) == Ok(Some(r.value))
    ensures r.Err? <==>
      !Addressable(LEGACY_EPOCH, t) || LegacyMonthBlockData(allRows, t).Err? || LegacyMonthBlockData(allRows, t) == Ok(None)
  {
    if !Addressable(LEGACY_EPOCH, t) then Err(Unaddressable)
    else
      var block :- LegacyMonthBlockData(allRows, t);
      if block.None? then Err(NoMonthBlock) else Ok(block.value)
  }

  /** The reader of the months of one sheet. */
  function LegacyMonthReader(allRows: Rows): YearMonth -> Result<MonthData> {
    t => LegacyMonthAt(allRows, t)
  }

  /** getAmountsOwed: nothing for an empty roster; otherwise every current tenant's total over
      the months some tenant owes for. */
  function LegacyAmountsOwed(allRows: Rows): Result<seq<Owed>> {
    var ts :- LegacyRoster(allRows);
    if |ts| == 0 then Ok([])
    else
      var mds :- ReadEach(LegacyMonthsOwed(ts), LegacyMonthReader(allRows));
      Ok(Accumulate(Zeros(AsCurrent(ts)), mds))
  }

  /** A roster that cannot be read fails the computation as malformed. */
  lemma LegacyAmountsOwedRosterError(allRows: Rows)
    requires LegacyRoster(allRows).Err?
    ensures LegacyAmountsOwed(allRows) == Err(Malformed)
  {
  }

  /** A roster with nobody on it owes nothing. */
  lemma LegacyEmptyRosterOwesNothing(allRows: Rows)
    requires LegacyRoster(allRows) == Ok([])
    ensures LegacyAmountsOwed(allRows) == Ok([])
  {
  }

  /** With the roster read, the computation succeeds exactly when the roster is empty or every
      owed month reads as a record. */
  lemma LegacyAmountsOwedOk(allRows: Rows, ts: seq<LegacyTenant>)
    requires LegacyRoster(allRows) == Ok(ts)
    ensures LegacyAmountsOwed(allRows).Ok? <==>
      |ts| == 0 || forall t :: t in LegacyMonthsOwed(ts) ==> LegacyMonthAt(allRows, t).Ok?
  {
    var ms := LegacyMonthsOwed(ts);
    ReadEachOk(ms, LegacyMonthReader(allRows));
    if |ts| > 0 {
      LegacyAmountsOwedReads(allRows, ts);
      if !ReadEach(ms, LegacyMonthReader(allRows)).Ok? {
        var k :| 0 <= k < |ms| && !LegacyMonthReader(allRows)(ms[k]).Ok?;
        assert !LegacyMonthAt(allRows, ms[k]).Ok?;
      }
    }
  }

  /** Past a non-empty roster, the computation succeeds exactly when every owed month reads. */
  lemma LegacyAmountsOwedReads(allRows: Rows, ts: seq<LegacyTenant>)
    requires LegacyRoster(allRows) == Ok(ts) && |ts| > 0
    ensures LegacyAmountsOwed(allRows).Ok? <==> ReadEach(LegacyMonthsOwed(ts), LegacyMonthReader(allRows)).Ok?
  {
  }

  /** The totals are keyed by the roster's names in roster order, and each is what the owed
      months charge that name. */
  lemma LegacyAmountsOwedTotals(allRows: Rows, ts: seq<LegacyTenant>, mds: seq<MonthData>)
    requires LegacyRoster(allRows) == Ok(ts) && |ts| > 0
    requires ReadEach(LegacyMonthsOwed(ts), LegacyMonthReader(allRows)) == Ok(mds)
    ensures LegacyAmountsOwed(allRows).Ok?
    ensures Keys(LegacyAmountsOwed(allRows).value, OwedName) == Keys(ts, LegacyName)
    ensures forall i :: 0 <= i < |ts| ==>
      LegacyAmountsOwed(allRows).value[i] == Owed(ts[i].name, Charged(mds, ts[i].name))
  {
    var zs := Zeros(AsCurrent(ts));
    AccumulateCharged(zs, mds);
    var os := Accumulate(zs, mds);
    assert LegacyAmountsOwed(allRows) == Ok(os);
    forall i | 0 <= i < |ts| ensures os[i] == Owed(ts[i].name, Charged(mds, ts[i].name)) {
      assert Keys(os, OwedName)[i] == Keys(zs, OwedName)[i];
    }
  }

  /** getAmountsOwed, with its loops: the union of unpaid months, then for each month its
      amounts added to the running totals. */
  method LegacyGetAmountsOwed(allRows: Rows) returns (r: Result<seq<Owed>>)
    ensures r == LegacyAmountsOwed(allRows)
  {
    var currentTenants := LegacyGetRoster(allRows);
    if currentTenants.Err? {
      return Err(currentTenants.error);
    }
    var ts := currentTenants.value;
    if |ts| == 0 {
      return Ok([]);
    }
    var monthsOwed := LegacyMonthsOwed(ts);
    var amountsOwed := Zeros(AsCurrent(ts));
    ghost var mds: seq<MonthData> := [];
    for k := 0 to |monthsOwed|
      invariant ReadEach(monthsOwed[..k], LegacyMonthReader(allRows)) == Ok(mds)
      invariant amountsOwed == Accumulate(Zeros(AsCurrent(ts)), mds)
    {
      var monthData := LegacyMonthAt(allRows, monthsOwed[k]);
      if monthData.Err? {
        ReadEachStops(monthsOwed, LegacyMonthReader(allRows), k);
        return Err(monthData.error);
      }
      var monthAmountsOwed := GetAmountsOwedForMonth(monthData.value);
      amountsOwed := AddMonthLoop(amountsOwed, monthAmountsOwed);
      ReadEachSnoc(monthsOwed, LegacyMonthReader(allRows), k, mds);
      AccumulateSnoc(Zeros(AsCurrent(ts)), mds, monthData.value);
      mds := mds + [monthData.value];
    }
    ReadEachAll(monthsOwed, LegacyMonthReader(allRows));
    return Ok(amountsOwed);
  }
}
