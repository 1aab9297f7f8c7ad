/** The read-modify-write operations of the older engine (sheet.py:219-400), as functions from
    the grid an operation starts from to its Outcome. They differ from app/sheet.py's in the
    details: a new month seeds every line item with zero weeks, addTenant reads the roster
    again after creating the month, removeTenant and markRentAsPaid fail on a month without
    a block, and nothing records a stay schedule. */
module LegacyLedger {
  import opened Results
  import opened Calendar
  import opened Numbers
  import opened Layout
  import opened Grid
  import opened Dicts
  import opened Records
  import opened Codec
  import opened Spacers
  import opened LegacyCodec
  import opened Ledger

  /** The first loop of _createMonthBlockData: every tenant now owes the month as well. */
  function LegacyOweMonth(ts: seq<LegacyTenant>, t: YearMonth): (r: seq<LegacyTenant>)
    ensures |r| == |ts|
    ensures forall i :: 0 <= i < |ts| ==> r[i].name == ts[i].name && r[i].monthsUnpaid == ts[i].monthsUnpaid + [t]
  {
    seq(|ts|, i requires 0 <= i < |ts| => LegacyTenant(ts[i].name, ts[i].monthsUnpaid + [t]))
  }

  /** The line items of a new month: every roster tenant, unpaid, with zero weeks stayed. */
  function ZeroLines(ts: seq<LegacyTenant>): (ls: seq<MonthlyTenant>)
    ensures |ls| == |ts|
    ensures forall i :: 0 <= i < |ts| ==> ls[i].name == ts[i].name && ls[i].weeksStayed == Zero && !ls[i].isPaid
  {
    seq(|ts|, i requires 0 <= i < |ts| => MonthlyTenant(ts[i].name, Zero, false))
  }

  /** The record of a month just created: both totals zero. */
  function LegacyNewMonth(t: YearMonth, ts: seq<LegacyTenant>): MonthData {
    MonthData(t.year, t.month, Zero, Zero, ZeroLines(ts))
  }

  /** _createMonthBlockData: nothing to write when the month's label row holds data;
      otherwise the roster with the month added to everyone's unpaid months, and the new
      block. */
  function LegacyCreationWrites(allRows: Rows, t: YearMonth): (r: Result<seq<Update>>)
    requires Addressable(LEGACY_EPOCH, t)
    ensures MonthDataExists(allRows, LEGACY_EPOCH, t) ==> r == Ok([])
    ensures r.Err? ==> r.error == Malformed && LegacyRoster(allRows).Err?
  {
    if MonthDataExists(allRows, LEGACY_EPOCH, t) then Ok([])
    else
      var ts :- LegacyRoster(allRows);
      var owed := LegacyOweMonth(ts, t);
      Ok(EncodeLegacyRoster(owed) + EncodeMonthBlock(LEGACY_EPOCH, LegacyNewMonth(t, owed)))
  }

  /** The first loop of _createMonthBlockData, appending the month to each unpaid list. */
  method LegacyAppendMonth(currentTenants: seq<LegacyTenant>, t: YearMonth) returns (r: seq<LegacyTenant>)
    ensures r == LegacyOweMonth(currentTenants, t)
  {
    r := currentTenants;
    for i := 0 to |r|
      invariant |r| == |currentTenants|
      invariant forall j :: 0 <= j < i ==> r[j] == LegacyTenant(currentTenants[j].name, currentTenants[j].monthsUnpaid + [t])
      invariant forall j :: i <= j < |r| ==> r[j] == currentTenants[j]
    {
      r := r[i := r[i].(monthsUnpaid := r[i].monthsUnpaid + [t])];
    }
  }

  /** The comprehension of _createMonthBlockData: one unpaid line item per tenant. */
  method ZeroLineItems(currentTenants: seq<LegacyTenant>) returns (tenants: seq<MonthlyTenant>)
    ensures tenants == ZeroLines(currentTenants)
  {
    tenants := [];
    for i := 0 to |currentTenants|
      invariant |tenants| == i
      invariant forall j :: 0 <= j < i ==> tenants[j] == MonthlyTenant(currentTenants[j].name, Zero, false)
    {
      tenants := tenants + [MonthlyTenant(currentTenants[i].name, Zero, false)];
    }
  }

  /** _createMonthBlockData, step by step. */
  method LegacyCreateMonthBlockData(allRows: Rows, t: YearMonth) returns (r: Result<seq<Update>>)
    requires Addressable(LEGACY_EPOCH, t)
    ensures r == LegacyCreationWrites(allRows, t)
  {
    if MonthDataExists(allRows, LEGACY_EPOCH, t) {
      return Ok([]);
    }
    var read := LegacyGetRoster(allRows);
    if read.Err? {
      return Err(read.error);
    }
    var currentTenants := LegacyAppendMonth(read.value, t);
    var sheetUpdates := EncodeLegacyRoster(currentTenants);
    var tenants := ZeroLineItems(currentTenants);
    sheetUpdates := sheetUpdates + EncodeMonthBlock(LEGACY_EPOCH, MonthData(t.year, t.month, Zero, Zero, tenants));
    return Ok(sheetUpdates);
  }

  /** The step the set operations share: read the month and, when it has no block, send the
      creation writes and read it again. A month still missing then makes the caller fail on
      None (NoMonthBlock). */
  function LegacyMonthOrCreate(g: Rows, t: YearMonth): (o: Outcome<MonthData>)
    requires Addressable(LEGACY_EPOCH, t)
    ensures o.result.Ok? ==> TimeOf(o.result.value) == t
    ensures |o.batches| <= 1
    ensures MonthDataExists(AllValues(g), LEGACY_EPOCH, t) ==> o.batches == []
  {
    match LegacyMonthBlockData(AllValues(g), t)
    case Err(e) => Outcome([], Err(e))
    case Ok(Some(m)) => Outcome([], Ok(m))
    case Ok(None) =>
      match LegacyCreationWrites(AllValues(g), t)
      case Err(e) => Outcome([], Err(e))
      case Ok(us) =>
        match LegacyMonthBlockData(AllValues(ApplyAll(g, us)), t)
        case Err(e) => Outcome([us], Err(e))
        case Ok(None) => Outcome([us], Err(NoMonthBlock))
        case Ok(Some(m)) => Outcome([us], Ok(m))
  }

  /** The roster entry addTenant writes for a newcomer: owing this month only. */
  function LegacyNewcomer(name: string, t: YearMonth): LegacyTenant {
    LegacyTenant(name, [t])
  }

  /** The line item addTenant writes for a newcomer: zero weeks, unpaid. */
  function ZeroLine(name: string): MonthlyTenant {
    MonthlyTenant(name, Zero, false)
  }

  /** The end of addTenant, on the grid as last read and after the batches already sent: the
      month read (None raises AttributeError, NoMonthBlock), then one batch with the roster ts
      and the newcomer, and the month with the newcomer's line item. */
  function LegacyAddWrites(g: Rows, sent: seq<seq<Update>>, ts: seq<LegacyTenant>, name: string, t: YearMonth): (o: Outcome<()>)
    requires Addressable(LEGACY_EPOCH, t)
    ensures |sent| <= |o.batches| <= |sent| + 1 && o.batches[..|sent|] == sent
    ensures o.result.Ok? <==> |o.batches| == |sent| + 1
  {
    match LegacyMonthBlockData(AllValues(g), t)
    case Err(e) => Outcome(sent, Err(e))
    case Ok(None) => Outcome(sent, Err(NoMonthBlock))
    case Ok(Some(m)) =>
      var roster := Put(ts, LegacyName, LegacyNewcomer(name, t));
      var month := m.(tenants := Put(m.tenants, LineName, ZeroLine(name)));
      Outcome(sent + [EncodeLegacyRoster(roster) + EncodeMonthBlock(LEGACY_EPOCH, month)], Ok(()))
  }

  /** addTenant: a name already on the roster, or a full roster, writes nothing. When the month
      has no block, the creation writes go first as their own batch and the roster is read
      again; the last batch adds the newcomer to the roster so read and to the month. */
  function LegacyAddTenant(g: Rows, name: string, t: YearMonth): (o: Outcome<()>)
    requires Addressable(LEGACY_EPOCH, t)
    ensures LegacyRoster(AllValues(g)).Ok? ==>
      var ts := LegacyRoster(AllValues(g)).value;
      (name in Keys(ts, LegacyName) || |ts| >= MAX_USERS) ==> o == Outcome([], Ok(()))
    ensures |o.batches| <= 2
    ensures MonthDataExists(AllValues(g), LEGACY_EPOCH, t) ==> |o.batches| <= 1
  {
    match LegacyRoster(AllValues(g))
    case Err(e) => Outcome([], Err(e))
    case Ok(ts) =>
      if name in Keys(ts, LegacyName) || |ts| >= MAX_USERS then Outcome([], Ok(()))
      else if MonthDataExists(AllValues(g), LEGACY_EPOCH, t) then LegacyAddWrites(g, [], ts, name, t)
      else
        match LegacyCreationWrites(AllValues(g), t)
        case Err(e) => Outcome([], Err(e))
        case Ok(us) =>
          var g1 := ApplyAll(g, us);
          match LegacyRoster(AllValues(g1))
          case Err(e) => Outcome([us], Err(e))
          case Ok(ts1) => LegacyAddWrites(g1, [us], ts1, name, t)
  }

  /** removeTenant: a name not on the roster writes nothing, and a month without a block
      raises AttributeError (NoMonthBlock) before anything is written. Otherwise one batch:
      the roster without the name and the month without the name's line item. */
  function LegacyRemoveTenant(g: Rows, name: string, t: YearMonth): (o: Outcome<()>)
    requires Addressable(LEGACY_EPOCH, t)
    ensures LegacyRoster(AllValues(g)).Ok? && name !in Keys(LegacyRoster(AllValues(g)).value, LegacyName) ==>
      o == Outcome([], Ok(()))
    ensures (LegacyRoster(AllValues(g)).Ok? && name in Keys(LegacyRoster(AllValues(g)).value, LegacyName) &&
      LegacyMonthBlockData(AllValues(g), t) == Ok(None)) ==> o == Outcome([], Err(NoMonthBlock))
    ensures |o.batches| <= 1 && (o.result.Ok? || o.batches == [])
  {
    match LegacyRoster(AllValues(g))
    case Err(e) => Outcome([], Err(e))
    case Ok(ts) =>
      if name !in Keys(ts, LegacyName) then Outcome([], Ok(()))
      else
        var roster := Del(ts, LegacyName, name);
        match LegacyMonthBlockData(AllValues(g), t)
        case Err(e) => Outcome([], Err(e))
        case Ok(None) => Outcome([], Err(NoMonthBlock))
        case Ok(Some(m)) =>
          var month := m.(tenants := Del(m.tenants, LineName, name));
          Outcome([EncodeLegacyRoster(roster) + EncodeMonthBlock(LEGACY_EPOCH, month)], Ok(()))
  }

  /** The roster entry markRentAsPaid writes: the unpaid months filtered as in app/sheet.py. */
  function LegacyPaidEntry(x: LegacyTenant, t: YearMonth): LegacyTenant {
    x.(monthsUnpaid := KeepOtherMonths(x.monthsUnpaid, t))
  }

  /** markRentAsPaid: a name not on the roster writes nothing, and a month without a block
      raises AttributeError (NoMonthBlock) before anything is written. Otherwise one batch:
      the roster with the tenant's unpaid months filtered, and the month with the tenant's
      line item, if any, paid. */
  function LegacyMarkRentAsPaid(g: Rows, name: string, t: YearMonth): (o: Outcome<()>)
    requires Addressable(LEGACY_EPOCH, t)
    ensures LegacyRoster(AllValues(g)).Ok? && name !in Keys(LegacyRoster(AllValues(g)).value, LegacyName) ==>
      o == Outcome([], Ok(()))
    ensures (LegacyRoster(AllValues(g)).Ok? && name in Keys(LegacyRoster(AllValues(g)).value, LegacyName) &&
      LegacyMonthBlockData(AllValues(g), t) == Ok(None)) ==> o == Outcome([], Err(NoMonthBlock))
    ensures |o.batches| <= 1 && (o.result.Ok? || o.batches == [])
  {
    match LegacyRoster(AllValues(g))
    case Err(e) => Outcome([], Err(e))
    case Ok(ts) =>
      match Get(ts, LegacyName, name)
      case None => Outcome([], Ok(()))
      case Some(x) =>
        var roster := Put(ts, LegacyName, LegacyPaidEntry(x, t));
        match LegacyMonthBlockData(AllValues(g), t)
        case Err(e) => Outcome([], Err(e))
        case Ok(None) => Outcome([], Err(NoMonthBlock))
        case Ok(Some(m)) => Outcome([EncodeLegacyRoster(roster) + EncodeMonthBlock(LEGACY_EPOCH, PaidMonth(m, name))], Ok(()))
  }

  /** setTotalRent: the month, created if missing, with the new total rent. */
  function LegacySetTotalRent(g: Rows, totalRent: Decimal, t: YearMonth): (o: Outcome<()>)
    requires Addressable(LEGACY_EPOCH, t)
    ensures o.result.Ok? ==> (LegacyMonthOrCreate(g, t).result.Ok? &&
      o.batches == LegacyMonthOrCreate(g, t).batches +
        [EncodeMonthBlock(LEGACY_EPOCH, LegacyMonthOrCreate(g, t).result.value.(totalRent := totalRent))])
    ensures o.result.Err? ==> o.batches == LegacyMonthOrCreate(g, t).batches
  {
    var c := LegacyMonthOrCreate(g, t);
    match c.result
    case Err(e) => Outcome(c.batches, Err(e))
    case Ok(m) => Outcome(c.batches + [EncodeMonthBlock(LEGACY_EPOCH, m.(totalRent := totalRent))], Ok(()))
  }

  /** setTotalUtility: the month, created if missing, with the new total utility cost. */
  function LegacySetTotalUtility(g: Rows, totalUtility: Decimal, t: YearMonth): (o: Outcome<()>)
    requires Addressable(LEGACY_EPOCH, t)
    ensures o.result.Ok? ==> (LegacyMonthOrCreate(g, t).result.Ok? &&
      o.batches == LegacyMonthOrCreate(g, t).batches +
        [EncodeMonthBlock(LEGACY_EPOCH, LegacyMonthOrCreate(g, t).result.value.(totalUtility := totalUtility))])
    ensures o.result.Err? ==> o.batches == LegacyMonthOrCreate(g, t).batches
  {
    var c := LegacyMonthOrCreate(g, t);
    match c.result
    case Err(e) => Outcome(c.batches, Err(e))
    case Ok(m) => Outcome(c.batches + [EncodeMonthBlock(LEGACY_EPOCH, m.(totalUtility := totalUtility))], Ok(()))
  }

  /** setWeeksStayed: a name not on the roster writes nothing. Otherwise the month, created if
      missing, with the tenant's weeks replaced; a month without the tenant's line item raises
      KeyError (UnknownTenant) after any creation. */
  function LegacySetWeeksStayed(g: Rows, weeks: Decimal, name: string, t: YearMonth): (o: Outcome<()>)
    requires Addressable(LEGACY_EPOCH, t)
    ensures LegacyRoster(AllValues(g)).Ok? && name !in Keys(LegacyRoster(AllValues(g)).value, LegacyName) ==>
      o == Outcome([], Ok(()))
  {
    match LegacyRoster(AllValues(g))
    case Err(e) => Outcome([], Err(e))
    case Ok(ts) =>
      if name !in Keys(ts, LegacyName) then Outcome([], Ok(()))
      else
        var c := LegacyMonthOrCreate(g, t);
        match c.result
        case Err(e) => Outcome(c.batches, Err(e))
        case Ok(m) =>
          if name !in Keys(m.tenants, LineName) then Outcome(c.batches, Err(UnknownTenant))
          else Outcome(c.batches + [EncodeMonthBlock(LEGACY_EPOCH, WeeksMonth(m, name, weeks))], Ok(()))
  }

  // ------------------------------------------------------------------ properties

  /** Owing one more real month keeps a well-formed roster well formed. */
  lemma LegacyOweMonthWellFormed(ts: seq<LegacyTenant>, t: YearMonth)
    requires WellFormedLegacyRoster(ts) && Valid(t)
    ensures WellFormedLegacyRoster(LegacyOweMonth(ts, t))
  {
    var r := LegacyOweMonth(ts, t);
    forall i, k | 0 <= i < |r| && 0 <= k < |r[i].monthsUnpaid| ensures Valid(r[i].monthsUnpaid[k]) {
      if k < |ts[i].monthsUnpaid| {
        assert r[i].monthsUnpaid[k] == ts[i].monthsUnpaid[k];
      }
    }
    forall i, j | 0 <= i < j < |r| ensures LegacyName(r[i]) != LegacyName(r[j]) {
      assert LegacyName(ts[i]) != LegacyName(ts[j]);
    }
  }

  /** The line items seeded from a well-formed roster are well formed. */
  lemma ZeroLinesWellFormed(ts: seq<LegacyTenant>)
    requires WellFormedLegacyRoster(ts)
    ensures WellFormedLines(ZeroLines(ts))
  {
    var ls := ZeroLines(ts);
    forall i, j | 0 <= i < j < |ls| ensures LineName(ls[i]) != LineName(ls[j]) {
      assert LegacyName(ts[i]) != LegacyName(ts[j]);
    }
  }

  /** The line items of a new month depend on the names only. */
  lemma ZeroLinesNames(ts: seq<LegacyTenant>, us: seq<LegacyTenant>)
    requires Keys(ts, LegacyName) == Keys(us, LegacyName)
    ensures ZeroLines(ts) == ZeroLines(us)
  {
    assert forall i :: 0 <= i < |ts| ==> ts[i].name == Keys(ts, LegacyName)[i];
  }

  /** The creation writes on a narrow grid with blank spacers, for a month without a block:
      afterwards the roster reads with the month added to every tenant's unpaid months, and
      the month reads as a new month with zero totals and one unpaid line item of zero weeks
      per tenant; the grid stays narrow with its spacers blank. */
  lemma LegacyCreationReads(g: Rows, t: YearMonth, ts: seq<LegacyTenant>)
    requires SpacersBlank(g) && Narrow(g) && Addressable(LEGACY_EPOCH, t)
    requires !MonthDataExists(AllValues(g), LEGACY_EPOCH, t) && LegacyRoster(AllValues(g)) == Ok(ts)
    ensures var owed := LegacyOweMonth(ts, t);
      var us := EncodeLegacyRoster(owed) + EncodeMonthBlock(LEGACY_EPOCH, LegacyNewMonth(t, owed));
      var h := ApplyAll(g, us);
      && LegacyCreationWrites(AllValues(g), t) == Ok(us)
      && LegacyRoster(AllValues(h)) == Ok(LegacyCanonical(owed))
      && LegacyMonthBlockData(AllValues(h), t) == Ok(Some(LegacyNewMonth(t, owed)))
      && SpacersBlank(h) && Narrow(h)
  {
    var owed := LegacyOweMonth(ts, t);
    LegacyRosterReadWellFormed(g, ts);
    LegacyOweMonthWellFormed(ts, t);
    ZeroLinesWellFormed(owed);
    LegacyRosterAndMonthWriteReads(g, owed, LegacyNewMonth(t, owed));
  }

  /** The read-or-create step leaves the grid narrow with its spacers blank and, when it
      succeeds, a grid in which the month reads as the record it returns, with well-formed
      line items. With the spacers blank a month is never missing after creation, so the only
      failure is a cell that does not parse. */
  lemma LegacyMonthOrCreateReads(g: Rows, t: YearMonth)
    requires SpacersBlank(g) && Narrow(g) && Addressable(LEGACY_EPOCH, t)
    ensures var o := LegacyMonthOrCreate(g, t);
      var h := ApplyBatches(g, o.batches);
      && SpacersBlank(h) && Narrow(h)
      && (o.result.Ok? ==>
            LegacyMonthBlockData(AllValues(h), t) == Ok(Some(o.result.value)) && WellFormedLines(o.result.value.tenants))
      && (o.result.Err? ==> o.result.error == Malformed)
  {
    var o := LegacyMonthOrCreate(g, t);
    match LegacyMonthBlockData(AllValues(g), t)
    case Err(_) =>
    case Ok(Some(m)) =>
      LegacyMonthReadWellFormed(g, t, m);
    case Ok(None) =>
      if LegacyRoster(AllValues(g)).Ok? {
        var ts := LegacyRoster(AllValues(g)).value;
        LegacyCreationReads(g, t, ts);
        var owed := LegacyOweMonth(ts, t);
        var us := EncodeLegacyRoster(owed) + EncodeMonthBlock(LEGACY_EPOCH, LegacyNewMonth(t, owed));
        assert o == Outcome([us], Ok(LegacyNewMonth(t, owed)));
        OneBatch(g, us);
        LegacyRosterReadWellFormed(g, ts);
        LegacyOweMonthWellFormed(ts, t);
        ZeroLinesWellFormed(owed);
      }
  }

  /** The read-or-create step on a month without a block: one batch, and the month it returns
      is the new month seeded from the roster, every line item at zero weeks. */
  lemma LegacyMonthOrCreateNew(g: Rows, t: YearMonth, ts: seq<LegacyTenant>)
    requires SpacersBlank(g) && Narrow(g) && Addressable(LEGACY_EPOCH, t)
    requires !MonthDataExists(AllValues(g), LEGACY_EPOCH, t) && LegacyRoster(AllValues(g)) == Ok(ts)
    ensures var o := LegacyMonthOrCreate(g, t);
      && |o.batches| == 1
      && o.result == Ok(LegacyNewMonth(t, LegacyOweMonth(ts, t)))
  {
    LegacyCreationReads(g, t, ts);
  }

  /** Sending two batches is applying one after the other. */
  lemma TwoBatches(g: Rows, us: seq<Update>, us2: seq<Update>)
    ensures ApplyBatches(g, [us] + [us2]) == ApplyAll(ApplyAll(g, us), us2)
  {
    ApplyBatchesSnoc(g, [us], us2);
    OneBatch(g, us);
  }

  /** What addTenant's last step sends when the month reads as a record and the name is new. */
  lemma LegacyAddWritesOk(g: Rows, sent: seq<seq<Update>>, ts: seq<LegacyTenant>, name: string, t: YearMonth, m: MonthData)
    requires Addressable(LEGACY_EPOCH, t)
    requires LegacyMonthBlockData(AllValues(g), t) == Ok(Some(m)) && name !in Keys(ts, LegacyName)
    ensures LegacyAddWrites(g, sent, ts, name, t) == Outcome(sent + [
      EncodeLegacyRoster(ts + [LegacyNewcomer(name, t)]) +
      EncodeMonthBlock(LEGACY_EPOCH, m.(tenants := Put(m.tenants, LineName, ZeroLine(name))))], Ok(()))
  {
    PutKeys(ts, LegacyName, LegacyNewcomer(name, t));
  }

  /** addTenant's last batch on a narrow grid with blank spacers: the roster then reads with
      the newcomer last, owing only this month, and the month with the newcomer's line item. */
  lemma LegacyAddWriteReads(h: Rows, name: string, t: YearMonth, ts: seq<LegacyTenant>, m: MonthData)
    requires SpacersBlank(h) && Narrow(h) && Addressable(LEGACY_EPOCH, t) && TimeOf(m) == t
    requires WellFormedLegacyRoster(ts) && WellFormedLines(m.tenants)
    requires name != "" && name !in Keys(ts, LegacyName) && |ts| < MAX_USERS
    requires name in Keys(m.tenants, LineName) || |m.tenants| < MAX_USERS
    ensures var m' := m.(tenants := Put(m.tenants, LineName, ZeroLine(name)));
      var h' := ApplyAll(h, EncodeLegacyRoster(ts + [LegacyNewcomer(name, t)]) + EncodeMonthBlock(LEGACY_EPOCH, m'));
      && LegacyRoster(AllValues(h')) == Ok(LegacyCanonical(ts + [LegacyNewcomer(name, t)]))
      && LegacyMonthBlockData(AllValues(h'), t) == Ok(Some(m'))
      && SpacersBlank(h') && Narrow(h')
  {
    PutKeys(ts, LegacyName, LegacyNewcomer(name, t));
    LegacyPutWellFormed(ts, LegacyNewcomer(name, t));
    LinesPutWellFormed(m.tenants, ZeroLine(name));
    LegacyRosterAndMonthWriteReads(h, ts + [LegacyNewcomer(name, t)], m.(tenants := Put(m.tenants, LineName, ZeroLine(name))));
  }

  /** addTenant of a new, non-empty name with room on the roster, for a month that has a
      block: one batch, after which the roster reads as before with the newcomer last, owing
      only this month, and the month reads as before with the newcomer's line item. */
  lemma LegacyAddTenantReads(g: Rows, name: string, t: YearMonth, ts: seq<LegacyTenant>, m: MonthData)
    requires SpacersBlank(g) && Narrow(g) && Addressable(LEGACY_EPOCH, t)
    requires LegacyRoster(AllValues(g)) == Ok(ts) && LegacyMonthBlockData(AllValues(g), t) == Ok(Some(m))
    requires name != "" && name !in Keys(ts, LegacyName) && |ts| < MAX_USERS
    requires name in Keys(m.tenants, LineName) || |m.tenants| < MAX_USERS
    ensures var o := LegacyAddTenant(g, name, t);
      var h := ApplyBatches(g, o.batches);
      && o.result == Ok(())
      && |o.batches| == 1
      && LegacyRoster(AllValues(h)) == Ok(LegacyCanonical(ts + [LegacyNewcomer(name, t)]))
      && LegacyMonthBlockData(AllValues(h), t) == Ok(Some(m.(tenants := Put(m.tenants, LineName, ZeroLine(name)))))
      && SpacersBlank(h) && Narrow(h)
  {
    var us := EncodeLegacyRoster(ts + [LegacyNewcomer(name, t)]) +
      EncodeMonthBlock(LEGACY_EPOCH, m.(tenants := Put(m.tenants, LineName, ZeroLine(name))));
    LegacyAddWritesOk(g, [], ts, name, t, m);
    assert LegacyAddTenant(g, name, t).batches == [us];
    OneBatch(g, us);
    LegacyRosterReadWellFormed(g, ts);
    LegacyMonthReadWellFormed(g, t, m);
    LegacyAddWriteReads(g, name, t, ts, m);
  }

  /** addTenant when the month has no block: the creation batch, then a batch written from the
      roster read again, so that, unlike in app/sheet.py, every earlier tenant still owes the
      new month afterwards. The newcomer comes last, owing only this month, and the month
      reads as if the newcomer had been on the roster when it was created. */
  lemma LegacyAddTenantKeepsCreatedDebt(g: Rows, name: string, t: YearMonth, ts: seq<LegacyTenant>)
    requires SpacersBlank(g) && Narrow(g) && Addressable(LEGACY_EPOCH, t)
    requires LegacyRoster(AllValues(g)) == Ok(ts) && !MonthDataExists(AllValues(g), LEGACY_EPOCH, t)
    requires name != "" && name !in Keys(ts, LegacyName) && |ts| < MAX_USERS
    ensures var o := LegacyAddTenant(g, name, t);
      var h := ApplyBatches(g, o.batches);
      var after := LegacyCanonical(LegacyCanonical(LegacyOweMonth(ts, t)) + [LegacyNewcomer(name, t)]);
      && o.result == Ok(())
      && |o.batches| == 2
      && LegacyRoster(AllValues(h)) == Ok(after)
      && |after| == |ts| + 1 && after[|ts|] == LegacyNewcomer(name, t)
      && (forall i :: 0 <= i < |ts| ==> after[i].name == ts[i].name && t in after[i].monthsUnpaid)
      && LegacyMonthBlockData(AllValues(h), t) == Ok(Some(LegacyNewMonth(t, ts + [LegacyNewcomer(name, t)])))
      && SpacersBlank(h) && Narrow(h)
  {
    var owed := LegacyOweMonth(ts, t);
    var m := LegacyNewMonth(t, owed);
    var ts1 := LegacyCanonical(owed);
    var us := EncodeLegacyRoster(owed) + EncodeMonthBlock(LEGACY_EPOCH, m);
    var us2 := EncodeLegacyRoster(ts1 + [LegacyNewcomer(name, t)]) +
      EncodeMonthBlock(LEGACY_EPOCH, m.(tenants := Put(m.tenants, LineName, ZeroLine(name))));
    var g1 := ApplyAll(g, us);
    LegacyCreationReads(g, t, ts);
    LegacyCreatedDebtKept(ts, t, name);
    LegacyAddTwoBatches(g, g1, name, t, ts, ts1, m, us, us2);
    TwoBatches(g, us, us2);
    LegacyNewMonthAdd(t, ts, owed, name);
    LegacyRosterReadWellFormed(g1, ts1);
    LegacyMonthReadWellFormed(g1, t, m);
    LegacyAddWriteReads(g1, name, t, ts1, m);
  }

  /** addTenant on a month without a block sends the creation batch, then its own. */
  lemma LegacyAddTwoBatches(g: Rows, g1: Rows, name: string, t: YearMonth, ts: seq<LegacyTenant>, ts1: seq<LegacyTenant>,
                            m: MonthData, us: seq<Update>, us2: seq<Update>)
    requires Addressable(LEGACY_EPOCH, t)
    requires LegacyRoster(AllValues(g)) == Ok(ts) && !MonthDataExists(AllValues(g), LEGACY_EPOCH, t)
    requires name !in Keys(ts, LegacyName) && |ts| < MAX_USERS
    requires LegacyCreationWrites(AllValues(g), t) == Ok(us) && g1 == ApplyAll(g, us)
    requires LegacyRoster(AllValues(g1)) == Ok(ts1) && name !in Keys(ts1, LegacyName)
    requires LegacyMonthBlockData(AllValues(g1), t) == Ok(Some(m))
    requires us2 == EncodeLegacyRoster(ts1 + [LegacyNewcomer(name, t)]) +
      EncodeMonthBlock(LEGACY_EPOCH, m.(tenants := Put(m.tenants, LineName, ZeroLine(name))))
    ensures LegacyAddTenant(g, name, t) == Outcome([us] + [us2], Ok(()))
  {
    LegacyAddAfterCreation(g, g1, name, t, ts, ts1, us);
    LegacyAddWritesOk(g1, [us], ts1, name, t, m);
  }

  /** After creation, addTenant's own step on the grid the creation left. */
  lemma LegacyAddAfterCreation(g: Rows, g1: Rows, name: string, t: YearMonth, ts: seq<LegacyTenant>, ts1: seq<LegacyTenant>, us: seq<Update>)
    requires Addressable(LEGACY_EPOCH, t)
    requires LegacyRoster(AllValues(g)) == Ok(ts) && !MonthDataExists(AllValues(g), LEGACY_EPOCH, t)
    requires name !in Keys(ts, LegacyName) && |ts| < MAX_USERS
    requires LegacyCreationWrites(AllValues(g), t) == Ok(us) && g1 == ApplyAll(g, us)
    requires LegacyRoster(AllValues(g1)) == Ok(ts1)
    ensures LegacyAddTenant(g, name, t) == LegacyAddWrites(g1, [us], ts1, name, t)
  {
  }

  /** Adding the newcomer's zero line item to a new month gives the new month of the longer
      roster. */
  lemma LegacyNewMonthAdd(t: YearMonth, ts: seq<LegacyTenant>, owed: seq<LegacyTenant>, name: string)
    requires owed == LegacyOweMonth(ts, t) && name !in Keys(ts, LegacyName)
    ensures var m := LegacyNewMonth(t, owed);
      m.(tenants := Put(m.tenants, LineName, ZeroLine(name))) == LegacyNewMonth(t, ts + [LegacyNewcomer(name, t)])
  {
    var ls := ZeroLines(owed);
    assert Keys(ls, LineName) == Keys(ts, LegacyName);
    PutKeys(ls, LineName, ZeroLine(name));
    assert ZeroLines(ts + [LegacyNewcomer(name, t)]) == ls + [ZeroLine(name)];
  }

  /** The roster the second batch writes: every earlier tenant owes the month, the newcomer
      comes last. */
  lemma LegacyCreatedDebtKept(ts: seq<LegacyTenant>, t: YearMonth, name: string)
    requires name !in Keys(ts, LegacyName)
    ensures var ts1 := LegacyCanonical(LegacyOweMonth(ts, t));
      var after := LegacyCanonical(ts1 + [LegacyNewcomer(name, t)]);
      && Keys(ts1, LegacyName) == Keys(ts, LegacyName)
      && name !in Keys(ts1, LegacyName)
      && |after| == |ts| + 1 && after[|ts|] == LegacyNewcomer(name, t)
      && (forall i :: 0 <= i < |ts| ==> after[i].name == ts[i].name && t in after[i].monthsUnpaid)
  {
    var owed := LegacyOweMonth(ts, t);
    var ts1 := LegacyCanonical(owed);
    var after := LegacyCanonical(ts1 + [LegacyNewcomer(name, t)]);
    assert Keys(ts1, LegacyName) == Keys(ts, LegacyName);
    assert Dedup([t]) == [t] by {
      assert t in Dedup([t]);
    }
    forall i | 0 <= i < |ts| ensures after[i].name == ts[i].name && t in after[i].monthsUnpaid {
      assert (ts1 + [LegacyNewcomer(name, t)])[i] == ts1[i];
      var ms := owed[i].monthsUnpaid;
      assert ms[|ms| - 1] == t;
      assert t in ts1[i].monthsUnpaid;
      assert t in Dedup(ts1[i].monthsUnpaid) by {
        var k :| 0 <= k < |ts1[i].monthsUnpaid| && ts1[i].monthsUnpaid[k] == t;
      }
    }
  }

  /** removeTenant of a name on the roster, for a month that has a block: one batch, after
      which the roster reads without the name and the month without the name's line item. */
  lemma LegacyRemoveTenantReads(g: Rows, name: string, t: YearMonth, ts: seq<LegacyTenant>, m: MonthData)
    requires SpacersBlank(g) && Narrow(g) && Addressable(LEGACY_EPOCH, t)
    requires LegacyRoster(AllValues(g)) == Ok(ts) && name in Keys(ts, LegacyName)
    requires LegacyMonthBlockData(AllValues(g), t) == Ok(Some(m))
    ensures var o := LegacyRemoveTenant(g, name, t);
      var h := ApplyBatches(g, o.batches);
      && o.result == Ok(())
      && |o.batches| == 1
      && LegacyRoster(AllValues(h)) == Ok(LegacyCanonical(Del(ts, LegacyName, name)))
      && LegacyMonthBlockData(AllValues(h), t) == Ok(Some(m.(tenants := Del(m.tenants, LineName, name))))
      && SpacersBlank(h) && Narrow(h)
  {
    var roster := Del(ts, LegacyName, name);
    var m' := m.(tenants := Del(m.tenants, LineName, name));
    var us := EncodeLegacyRoster(roster) + EncodeMonthBlock(LEGACY_EPOCH, m');
    assert LegacyRemoveTenant(g, name, t).batches == [us];
    OneBatch(g, us);
    LegacyRosterReadWellFormed(g, ts);
    LegacyDelWellFormed(ts, name);
    LegacyMonthReadWellFormed(g, t, m);
    LinesDelWellFormed(m.tenants, name);
    LegacyRosterAndMonthWriteReads(g, roster, m');
  }

  /** Filtering a roster entry's unpaid months keeps a well-formed roster well formed. */
  lemma LegacyPaidEntryWellFormed(ts: seq<LegacyTenant>, name: string, t: YearMonth)
    requires WellFormedLegacyRoster(ts) && name in Keys(ts, LegacyName)
    ensures WellFormedLegacyRoster(Put(ts, LegacyName, LegacyPaidEntry(Get(ts, LegacyName, name).value, t)))
  {
    var x := Get(ts, LegacyName, name).value;
    var x' := LegacyPaidEntry(x, t);
    assert x in ts;
    forall k | 0 <= k < |x'.monthsUnpaid| ensures Valid(x'.monthsUnpaid[k]) {
      assert x'.monthsUnpaid[k] in x.monthsUnpaid;
    }
    LegacyPutWellFormed(ts, x');
  }

  /** The roster entry the older markRentAsPaid means to write: the same tenant, with only the
      month paid for gone from the unpaid months. */
  function LegacyIntendedPaidEntry(x: LegacyTenant, t: YearMonth): (y: LegacyTenant)
    ensures y.name == x.name
    ensures forall m :: m in y.monthsUnpaid <==> m in x.monthsUnpaid && m != t
    ensures forall m :: m != t ==> multiset(y.monthsUnpaid)[m] == multiset(x.monthsUnpaid)[m]
  {
    x.(monthsUnpaid := DropPaidMonth(x.monthsUnpaid, t))
  }

  /** The older filter clears the same extra months: paying for 9/2021 leaves 10/2022 alone
      of 8/2021, 9/2021, 9/2022 and 10/2022, where the intended entry keeps three. */
  lemma LegacyPaidEntryDropsMore()
    ensures var x := LegacyTenant("Ann", [YearMonth(2021, 8), YearMonth(2021, 9), YearMonth(2022, 9), YearMonth(2022, 10)]);
      && LegacyPaidEntry(x, YearMonth(2021, 9)).monthsUnpaid == [YearMonth(2022, 10)]
      && LegacyIntendedPaidEntry(x, YearMonth(2021, 9)).monthsUnpaid == [YearMonth(2021, 8), YearMonth(2022, 9), YearMonth(2022, 10)]
  {
    KeepOtherMonthsDropsMore();
    DropPaidMonthKeepsOthers();
  }

  /** Writing the intended entry keeps a well-formed roster well formed too. */
  lemma LegacyIntendedPaidEntryWellFormed(ts: seq<LegacyTenant>, name: string, t: YearMonth)
    requires WellFormedLegacyRoster(ts) && name in Keys(ts, LegacyName)
    ensures WellFormedLegacyRoster(Put(ts, LegacyName, LegacyIntendedPaidEntry(Get(ts, LegacyName, name).value, t)))
  {
    var x := Get(ts, LegacyName, name).value;
    var x' := LegacyIntendedPaidEntry(x, t);
    assert x in ts;
    forall k | 0 <= k < |x'.monthsUnpaid| ensures Valid(x'.monthsUnpaid[k]) {
      assert x'.monthsUnpaid[k] in x.monthsUnpaid;
    }
    LegacyPutWellFormed(ts, x');
  }

  /** markRentAsPaid of a name on the roster, for a month that has a block: one batch, after
      which the roster reads with the tenant's unpaid months filtered and the month reads with
      the tenant's line item, if any, paid. */
  lemma LegacyMarkRentAsPaidReads(g: Rows, name: string, t: YearMonth, ts: seq<LegacyTenant>, m: MonthData)
    requires SpacersBlank(g) && Narrow(g) && Addressable(LEGACY_EPOCH, t)
    requires LegacyRoster(AllValues(g)) == Ok(ts) && name in Keys(ts, LegacyName)
    requires LegacyMonthBlockData(AllValues(g), t) == Ok(Some(m))
    ensures var roster := Put(ts, LegacyName, LegacyPaidEntry(Get(ts, LegacyName, name).value, t));
      var o := LegacyMarkRentAsPaid(g, name, t);
      var h := ApplyBatches(g, o.batches);
      && o.result == Ok(())
      && |o.batches| == 1
      && LegacyRoster(AllValues(h)) == Ok(LegacyCanonical(roster))
      && LegacyMonthBlockData(AllValues(h), t) == Ok(Some(PaidMonth(m, name)))
      && SpacersBlank(h) && Narrow(h)
  {
    var roster := Put(ts, LegacyName, LegacyPaidEntry(Get(ts, LegacyName, name).value, t));
    var us := EncodeLegacyRoster(roster) + EncodeMonthBlock(LEGACY_EPOCH, PaidMonth(m, name));
    assert LegacyMarkRentAsPaid(g, name, t).batches == [us];
    OneBatch(g, us);
    LegacyRosterReadWellFormed(g, ts);
    LegacyMonthReadWellFormed(g, t, m);
    LegacyPaidEntryWellFormed(ts, name, t);
    PaidMonthWellFormed(m, name);
    LegacyRosterAndMonthWriteReads(g, roster, PaidMonth(m, name));
  }

  /** setTotalRent, when it succeeds: the month (created first if it had no block) then reads
      with the new total rent and everything else as before. */
  lemma LegacySetTotalRentReads(g: Rows, totalRent: Decimal, t: YearMonth)
    requires SpacersBlank(g) && Narrow(g) && Addressable(LEGACY_EPOCH, t)
    ensures var o := LegacySetTotalRent(g, totalRent, t);
      var h := ApplyBatches(g, o.batches);
      && SpacersBlank(h) && Narrow(h)
      && (o.result.Ok? ==>
            LegacyMonthBlockData(AllValues(h), t) == Ok(Some(LegacyMonthOrCreate(g, t).result.value.(totalRent := totalRent))))
  {
    var c := LegacyMonthOrCreate(g, t);
    LegacyMonthOrCreateReads(g, t);
    if c.result.Ok? {
      var m' := c.result.value.(totalRent := totalRent);
      ApplyBatchesSnoc(g, c.batches, EncodeMonthBlock(LEGACY_EPOCH, m'));
      LegacyMonthWriteReads(ApplyBatches(g, c.batches), m');
    }
  }

  /** setTotalUtility, when it succeeds: the month (created first if it had no block) then
      reads with the new total utility cost and everything else as before. */
  lemma LegacySetTotalUtilityReads(g: Rows, totalUtility: Decimal, t: YearMonth)
    requires SpacersBlank(g) && Narrow(g) && Addressable(LEGACY_EPOCH, t)
    ensures var o := LegacySetTotalUtility(g, totalUtility, t);
      var h := ApplyBatches(g, o.batches);
      && SpacersBlank(h) && Narrow(h)
      && (o.result.Ok? ==>
            LegacyMonthBlockData(AllValues(h), t) == Ok(Some(LegacyMonthOrCreate(g, t).result.value.(totalUtility := totalUtility))))
  {
    var c := LegacyMonthOrCreate(g, t);
    LegacyMonthOrCreateReads(g, t);
    if c.result.Ok? {
      var m' := c.result.value.(totalUtility := totalUtility);
      ApplyBatchesSnoc(g, c.batches, EncodeMonthBlock(LEGACY_EPOCH, m'));
      LegacyMonthWriteReads(ApplyBatches(g, c.batches), m');
    }
  }

  /** setWeeksStayed raises KeyError exactly when the tenant is on the roster but the month
      (as read, or as just created) has no line item for them; any creation batch has been
      sent by then. */
  lemma LegacySetWeeksStayedUnknownTenant(g: Rows, weeks: Decimal, name: string, t: YearMonth)
    requires Addressable(LEGACY_EPOCH, t)
    ensures var o := LegacySetWeeksStayed(g, weeks, name, t);
      var c := LegacyMonthOrCreate(g, t);
      o.result == Err(UnknownTenant) <==>
        && LegacyRoster(AllValues(g)).Ok?
        && name in Keys(LegacyRoster(AllValues(g)).value, LegacyName)
        && c.result.Ok?
        && name !in Keys(c.result.value.tenants, LineName)
    ensures var o := LegacySetWeeksStayed(g, weeks, name, t);
      o.result == Err(UnknownTenant) ==> o.batches == LegacyMonthOrCreate(g, t).batches
  {
  }

  /** setWeeksStayed, when it succeeds for a name on the roster: the month (created first if
      it had no block) then reads with the tenant's weeks replaced and everything else as
      before. */
  lemma LegacySetWeeksStayedReads(g: Rows, weeks: Decimal, name: string, t: YearMonth)
    requires SpacersBlank(g) && Narrow(g) && Addressable(LEGACY_EPOCH, t)
    requires LegacyRoster(AllValues(g)).Ok? && name in Keys(LegacyRoster(AllValues(g)).value, LegacyName)
    ensures var o := LegacySetWeeksStayed(g, weeks, name, t);
      var h := ApplyBatches(g, o.batches);
      var c := LegacyMonthOrCreate(g, t);
      && SpacersBlank(h) && Narrow(h)
      && (o.result.Ok? ==>
            c.result.Ok? && LegacyMonthBlockData(AllValues(h), t) == Ok(Some(WeeksMonth(c.result.value, name, weeks))))
  {
    var c := LegacyMonthOrCreate(g, t);
    LegacyMonthOrCreateReads(g, t);
    if c.result.Ok? && name in Keys(c.result.value.tenants, LineName) {
      var m' := WeeksMonth(c.result.value, name, weeks);
      WeeksMonthWellFormed(c.result.value, name, weeks);
      ApplyBatchesSnoc(g, c.batches, EncodeMonthBlock(LEGACY_EPOCH, m'));
      LegacyMonthWriteReads(ApplyBatches(g, c.batches), m');
    }
  }
}
