/** The read-modify-write operations of the ledger (app/sheet.py:304-505, 553-564). Each one
    reads the grid once, works out its records, and sends its writes to batch_update; here
    each is a function from the grid it starts from to an Outcome: the batches it sends, in
    order, and what it returns or raises. The GoogleSheet class runs them against its
    worksheet. */
module Ledger {
  import opened Results
  import opened Calendar
  import opened Numbers
  import opened Layout
  import opened Grid
  import opened Dicts
  import opened Records
  import opened Codec
  import opened Spacers

  /** What an operation does: the batches it sends to batch_update, one per call, and its
      result, or the exception that ends it. */
  datatype Outcome<T> = Outcome(batches: seq<seq<Update>>, result: Result<T>)

  /** The tenants are read in the same order every time, so a month's line items follow the
      roster. */
  function OweMonth(ts: seq<CurrentTenant>, t: YearMonth): (r: seq<CurrentTenant>)
    ensures |r| == |ts|
    ensures forall i :: 0 <= i < |ts| ==>
      r[i].name == ts[i].name && r[i].staySchedule == ts[i].staySchedule && r[i].monthsUnpaid == ts[i].monthsUnpaid + [t]
  {
    seq(|ts|, i requires 0 <= i < |ts| => ts[i].(monthsUnpaid := ts[i].monthsUnpaid + [t]))
  }

  /** The line items of a new month: every roster tenant, unpaid, staying as long as the
      schedule says. */
  function SeedLines(ts: seq<CurrentTenant>): (ls: seq<MonthlyTenant>)
    ensures |ls| == |ts|
    ensures forall i :: 0 <= i < |ts| ==>
      ls[i].name == ts[i].name && ls[i].weeksStayed == InitialWeeksStayed(ts[i].staySchedule) && !ls[i].isPaid
  {
    seq(|ts|, i requires 0 <= i < |ts| => MonthlyTenant(ts[i].name, InitialWeeksStayed(ts[i].staySchedule), false))
  }

  /** The record of a month just created: both totals zero. */
  function NewMonth(t: YearMonth, ts: seq<CurrentTenant>): MonthData {
    MonthData(t.year, t.month, Zero, Zero, SeedLines(ts))
  }

  /** _createMonthBlockData: nothing to write when the month's label row holds data;
      otherwise the roster with the month added to everyone's unpaid months, and the new
      block. */
  function CreationWrites(allRows: Rows, epoch: YearMonth, t: YearMonth): (r: Result<seq<Update>>)
    requires Addressable(epoch, t)
    ensures MonthDataExists(allRows, epoch, t) ==> r == Ok([])
    ensures r.Err? ==> r.error == Malformed && CurrentTenantData(allRows).Err?
  {
    if MonthDataExists(allRows, epoch, t) then Ok([])
    else
      var ts :- CurrentTenantData(allRows);
      var owed := OweMonth(ts, t);
      Ok(EncodeRoster(owed) + EncodeMonthBlock(epoch, NewMonth(t, owed)))
  }

  /** The first loop of _createMonthBlockData: each tenant's unpaid list gets the month. */
  method AppendMonth(currentTenants: seq<CurrentTenant>, t: YearMonth) returns (r: seq<CurrentTenant>)
    ensures r == OweMonth(currentTenants, t)
  {
    r := currentTenants;
    for i := 0 to |r|
      invariant |r| == |currentTenants|
      invariant forall j :: 0 <= j < i ==> r[j] == currentTenants[j].(monthsUnpaid := currentTenants[j].monthsUnpaid + [t])
      invariant forall j :: i <= j < |r| ==> r[j] == currentTenants[j]
    {
      r := r[i := r[i].(monthsUnpaid := r[i].monthsUnpaid + [t])];
    }
  }

  /** The comprehension of _createMonthBlockData: one unpaid line item per tenant. */
  method SeedLineItems(currentTenants: seq<CurrentTenant>) returns (tenants: seq<MonthlyTenant>)
    ensures tenants == SeedLines(currentTenants)
  {
    tenants := [];
    for i := 0 to |currentTenants|
      invariant |tenants| == i
      invariant forall j :: 0 <= j < i ==>
        tenants[j] == MonthlyTenant(currentTenants[j].name, InitialWeeksStayed(currentTenants[j].staySchedule), false)
    {
      tenants := tenants + [MonthlyTenant(currentTenants[i].name, InitialWeeksStayed(currentTenants[i].staySchedule), false)];
    }
  }

  /** _createMonthBlockData, step by step. */
  method CreateMonthBlockData(allRows: Rows, epoch: YearMonth, t: YearMonth) returns (r: Result<seq<Update>>)
    requires Addressable(epoch, t)
    ensures r == CreationWrites(allRows, epoch, t)
  {
    if MonthDataExists(allRows, epoch, t) {
      return Ok([]);
    }
    var read := GetCurrentTenantData(allRows);
    if read.Err? {
      return Err(read.error);
    }
    var currentTenants := AppendMonth(read.value, t);
    var sheetUpdates := EncodeRoster(currentTenants);
    var tenants := SeedLineItems(currentTenants);
    sheetUpdates := sheetUpdates + EncodeMonthBlock(epoch, MonthData(t.year, t.month, Zero, Zero, tenants));
    return Ok(sheetUpdates);
  }

  /** createNewMonth: one batch with the creation writes, then the month read from the grid
      they leave (None if its label row still holds no data). */
  function CreateNewMonth(g: Rows, epoch: YearMonth, t: YearMonth): (o: Outcome<Option<MonthData>>)
    requires Addressable(epoch, t)
    ensures o.result.Err? ==> o.result.error == Malformed
    ensures o.result.Ok? && o.result.value.Some? ==> TimeOf(o.result.value.value) == t
  {
    match CreationWrites(AllValues(g), epoch, t)
    case Err(e) => Outcome([], Err(e))
    case Ok(us) => Outcome([us], MonthBlockData(AllValues(ApplyAll(g, us)), epoch, t))
  }

  /** The step addTenant and the set operations share: read the month, and create it when its
      block is missing. A month still missing after creation makes the caller fail on None
      (NoMonthBlock). */
  function MonthOrCreate(g: Rows, epoch: YearMonth, t: YearMonth): (o: Outcome<MonthData>)
    requires Addressable(epoch, t)
    ensures o.result.Ok? ==> TimeOf(o.result.value) == t
    ensures |o.batches| <= 1
    ensures MonthDataExists(AllValues(g), epoch, t) ==> o.batches == []
  {
    match MonthBlockData(AllValues(g), epoch, t)
    case Err(e) => Outcome([], Err(e))
    case Ok(Some(m)) => Outcome([], Ok(m))
    case Ok(None) =>
      var c := CreateNewMonth(g, epoch, t);
      match c.result
      case Err(e) => Outcome(c.batches, Err(e))
      case Ok(None) => Outcome(c.batches, Err(NoMonthBlock))
      case Ok(Some(m)) => Outcome(c.batches, Ok(m))
  }

  /** addTenant: a name already on the roster, or a full roster, writes nothing. Otherwise the
      roster as read before any creation, with the newcomer as a full-time tenant owing this
      month, and the month with the newcomer's line item. */
  function AddTenant(g: Rows, epoch: YearMonth, name: string, t: YearMonth): (o: Outcome<()>)
    requires Addressable(epoch, t)
    ensures CurrentTenantData(AllValues(g)).Ok? ==>
      var ts := CurrentTenantData(AllValues(g)).value;
      (name in Keys(ts, RosterName) || |ts| >= MAX_USERS) ==> o == Outcome([], Ok(()))
  {
    match CurrentTenantData(AllValues(g))
    case Err(e) => Outcome([], Err(e))
    case Ok(ts) =>
      if name in Keys(ts, RosterName) || |ts| >= MAX_USERS then Outcome([], Ok(()))
      else
        var c := MonthOrCreate(g, epoch, t);
        match c.result
        case Err(e) => Outcome(c.batches, Err(e))
        case Ok(m) =>
          var roster := Put(ts, RosterName, CurrentTenant(name, [t], FULLTIME));
          var month := m.(tenants := Put(m.tenants, LineName, MonthlyTenant(name, InitialWeeksStayed(FULLTIME), false)));
          Outcome(c.batches + [EncodeRoster(roster) + EncodeMonthBlock(epoch, month)], Ok(()))
  }

  /** removeTenant: a name not on the roster writes nothing. Otherwise the roster without the
      name, and, when the month has a block, the month without the name's line item. */
  function RemoveTenant(g: Rows, epoch: YearMonth, name: string, t: YearMonth): (o: Outcome<()>)
    requires Addressable(epoch, t)
    ensures CurrentTenantData(AllValues(g)).Ok? && name !in Keys(CurrentTenantData(AllValues(g)).value, RosterName) ==>
      o == Outcome([], Ok(()))
    ensures |o.batches| <= 1
  {
    match CurrentTenantData(AllValues(g))
    case Err(e) => Outcome([], Err(e))
    case Ok(ts) =>
      if name !in Keys(ts, RosterName) then Outcome([], Ok(()))
      else
        var roster := Del(ts, RosterName, name);
        match MonthBlockData(AllValues(g), epoch, t)
        case Err(e) => Outcome([], Err(e))
        case Ok(None) => Outcome([EncodeRoster(roster)], Ok(()))
        case Ok(Some(m)) =>
          var month := m.(tenants := Del(m.tenants, LineName, name));
          Outcome([EncodeRoster(roster) + EncodeMonthBlock(epoch, month)], Ok(()))
  }

  /** The unpaid months markRentAsPaid keeps: those whose year AND month both differ from the
      month paid for. */
  function KeepOtherMonths(ms: seq<YearMonth>, t: YearMonth): (r: seq<YearMonth>)
    ensures forall x :: x in r <==> x in ms && x.year != t.year && x.month != t.month
    ensures |r| <= |ms|
  {
    if |ms| == 0 then []
    else
      var rest := KeepOtherMonths(ms[1..], t);
      assert forall x :: x in ms <==> x == ms[0] || x in ms[1..];
      if ms[0].year != t.year && ms[0].month != t.month then [ms[0]] + rest else rest
  }

  /** The filter markRentAsPaid means to apply, removing the month paid for from the unpaid
      months: that month goes, and every other month stays as often as it was listed. */
  function DropPaidMonth(ms: seq<YearMonth>, t: YearMonth): (r: seq<YearMonth>)
    ensures forall x :: x in r <==> x in ms && x != t
    ensures forall x :: x != t ==> multiset(r)[x] == multiset(ms)[x]
    ensures |r| <= |ms|
  {
    if |ms| == 0 then []
    else
      var rest := DropPaidMonth(ms[1..], t);
      assert ms == [ms[0]] + ms[1..];
      if ms[0] != t then [ms[0]] + rest else rest
  }

  /** The filter as written does what was meant exactly when no other unpaid month shares its
      year or its month with the month paid for. */
  lemma {:induction false} KeepOtherMonthsAgrees(ms: seq<YearMonth>, t: YearMonth)
    ensures KeepOtherMonths(ms, t) == DropPaidMonth(ms, t) <==>
      forall x :: x in ms && x != t ==> x.year != t.year && x.month != t.month
  {
    if |ms| > 0 {
      KeepOtherMonthsAgrees(ms[1..], t);
      if forall x :: x in ms && x != t ==> x.year != t.year && x.month != t.month {
        assert forall x :: x in ms[1..] ==> x in ms;
      }
    }
  }

  /** The month with the tenant's line item, if there is one, marked paid. */
  function PaidMonth(m: MonthData, name: string): (m': MonthData)
    ensures TimeOf(m') == TimeOf(m)
  {
    match Get(m.tenants, LineName, name)
    case None => m
    case Some(line) => m.(tenants := Put(m.tenants, LineName, line.(isPaid := true)))
  }

  /** markRentAsPaid: a name not on the roster writes nothing; a month without a block raises
      MonthNotFoundError before anything is written. Otherwise the roster with the tenant's
      unpaid months filtered, and the month with the tenant's line item, if any, paid. */
  function MarkRentAsPaid(g: Rows, epoch: YearMonth, name: string, t: YearMonth): (o: Outcome<()>)
    requires Addressable(epoch, t)
    ensures CurrentTenantData(AllValues(g)).Ok? && name !in Keys(CurrentTenantData(AllValues(g)).value, RosterName) ==>
      o == Outcome([], Ok(()))
    ensures (CurrentTenantData(AllValues(g)).Ok? && name in Keys(CurrentTenantData(AllValues(g)).value, RosterName) &&
      MonthBlockData(AllValues(g), epoch, t) == Ok(None)) ==> o == Outcome([], Err(MonthNotFound))
    ensures |o.batches| <= 1
  {
    match CurrentTenantData(AllValues(g))
    case Err(e) => Outcome([], Err(e))
    case Ok(ts) =>
      match Get(ts, RosterName, name)
      case None => Outcome([], Ok(()))
      case Some(x) =>
        var roster := Put(ts, RosterName, PaidEntry(x, t));
        match MonthBlockData(AllValues(g), epoch, t)
        case Err(e) => Outcome([], Err(e))
        case Ok(None) => Outcome([], Err(MonthNotFound))
        case Ok(Some(m)) => Outcome([EncodeRoster(roster) + EncodeMonthBlock(epoch, PaidMonth(m, name))], Ok(()))
  }

  /** setTotalRent: the month, created if missing, with the new total rent. */
  function SetTotalRent(g: Rows, epoch: YearMonth, totalRent: Decimal, t: YearMonth): (o: Outcome<()>)
    requires Addressable(epoch, t)
    ensures o.result.Ok? ==> (MonthOrCreate(g, epoch, t).result.Ok? &&
      o.batches == MonthOrCreate(g, epoch, t).batches +
        [EncodeMonthBlock(epoch, MonthOrCreate(g, epoch, t).result.value.(totalRent := totalRent))])
    ensures o.result.Err? ==> o.batches == MonthOrCreate(g, epoch, t).batches
  {
    var c := MonthOrCreate(g, epoch, t);
    match c.result
    case Err(e) => Outcome(c.batches, Err(e))
    case Ok(m) => Outcome(c.batches + [EncodeMonthBlock(epoch, m.(totalRent := totalRent))], Ok(()))
  }

  /** setTotalUtility: the month, created if missing, with the new total utility cost. */
  function SetTotalUtility(g: Rows, epoch: YearMonth, totalUtility: Decimal, t: YearMonth): (o: Outcome<()>)
    requires Addressable(epoch, t)
    ensures o.result.Ok? ==> (MonthOrCreate(g, epoch, t).result.Ok? &&
      o.batches == MonthOrCreate(g, epoch, t).batches +
        [EncodeMonthBlock(epoch, MonthOrCreate(g, epoch, t).result.value.(totalUtility := totalUtility))])
    ensures o.result.Err? ==> o.batches == MonthOrCreate(g, epoch, t).batches
  {
    var c := MonthOrCreate(g, epoch, t);
    match c.result
    case Err(e) => Outcome(c.batches, Err(e))
    case Ok(m) => Outcome(c.batches + [EncodeMonthBlock(epoch, m.(totalUtility := totalUtility))], Ok(()))
  }

  /** The month with the tenant's weeks replaced, when the tenant has a line item. */
  function WeeksMonth(m: MonthData, name: string, weeks: Decimal): (m': MonthData)
    ensures TimeOf(m') == TimeOf(m)
  {
    match Get(m.tenants, LineName, name)
    case None => m
    case Some(line) => m.(tenants := Put(m.tenants, LineName, line.(weeksStayed := weeks)))
  }

  /** setWeeksStayed: a name not on the roster writes nothing. Otherwise the month, created if
      missing, with the tenant's weeks replaced; a month without the tenant's line item raises
      KeyError (UnknownTenant) after any creation. */
  function SetWeeksStayed(g: Rows, epoch: YearMonth, weeks: Decimal, name: string, t: YearMonth): (o: Outcome<()>)
    requires Addressable(epoch, t)
    ensures CurrentTenantData(AllValues(g)).Ok? && name !in Keys(CurrentTenantData(AllValues(g)).value, RosterName) ==>
      o == Outcome([], Ok(()))
  {
    match CurrentTenantData(AllValues(g))
    case Err(e) => Outcome([], Err(e))
    case Ok(ts) =>
      if name !in Keys(ts, RosterName) then Outcome([], Ok(()))
      else
        var c := MonthOrCreate(g, epoch, t);
        match c.result
        case Err(e) => Outcome(c.batches, Err(e))
        case Ok(m) =>
          if name !in Keys(m.tenants, LineName) then Outcome(c.batches, Err(UnknownTenant))
          else Outcome(c.batches + [EncodeMonthBlock(epoch, WeeksMonth(m, name, weeks))], Ok(()))
  }

  // ------------------------------------------------------------------ properties

  /** Owing one more real month keeps a well-formed roster well formed. */
  lemma OweMonthWellFormed(ts: seq<CurrentTenant>, t: YearMonth)
    requires WellFormedRoster(ts) && Valid(t)
    ensures WellFormedRoster(OweMonth(ts, t))
  {
    var r := OweMonth(ts, t);
    forall i, k | 0 <= i < |r| && 0 <= k < |r[i].monthsUnpaid| ensures Valid(r[i].monthsUnpaid[k]) {
      if k < |ts[i].monthsUnpaid| {
        assert r[i].monthsUnpaid[k] == ts[i].monthsUnpaid[k];
      }
    }
    forall i, j | 0 <= i < j < |r| ensures RosterName(r[i]) != RosterName(r[j]) {
      assert RosterName(ts[i]) != RosterName(ts[j]);
    }
  }

  /** The line items seeded from a well-formed roster are well formed. */
  lemma SeedLinesWellFormed(ts: seq<CurrentTenant>)
    requires WellFormedRoster(ts)
    ensures WellFormedLines(SeedLines(ts))
  {
    var ls := SeedLines(ts);
    forall i, j | 0 <= i < j < |ls| ensures LineName(ls[i]) != LineName(ls[j]) {
      assert RosterName(ts[i]) != RosterName(ts[j]);
    }
  }

  /** createNewMonth on a month without a block: one batch, after which the month reads as a
      new month with zero totals and one unpaid line item per roster tenant, seeded from the
      schedule, and the roster reads with the month added to every tenant's unpaid months. */
  lemma CreateNewMonthReads(g: Rows, epoch: YearMonth, t: YearMonth)
    requires SpacersBlank(g) && Addressable(epoch, t)
    requires !MonthDataExists(AllValues(g), epoch, t) && CurrentTenantData(AllValues(g)).Ok?
    ensures var ts := CurrentTenantData(AllValues(g)).value;
      var o := CreateNewMonth(g, epoch, t);
      var h := ApplyBatches(g, o.batches);
      && o.result == Ok(Some(NewMonth(t, OweMonth(ts, t))))
      && |o.batches| == 1
      && CurrentTenantData(AllValues(h)) == Ok(Canonical(OweMonth(ts, t)))
      && SpacersBlank(h)
  {
    var ts := CurrentTenantData(AllValues(g)).value;
    var owed := OweMonth(ts, t);
    var m := NewMonth(t, owed);
    var us := EncodeRoster(owed) + EncodeMonthBlock(epoch, m);
    assert CreationWrites(AllValues(g), epoch, t) == Ok(us);
    var h := ApplyAll(g, us);
    ApplyBatchesSnoc(g, [], us);
    assert [] + [us] == [us];
    RosterReadWellFormed(g, ts);
    OweMonthWellFormed(ts, t);
    SeedLinesWellFormed(owed);
    RosterAndBlockHeld(g, epoch, owed, m);
    RosterHeldReads(h, owed);
    BlockHeldReads(h, epoch, m);
  }

  /** Creating a month is idempotent: once createNewMonth has run, running
      _createMonthBlockData again on the grid it left writes nothing. */
  lemma CreateIdempotent(g: Rows, epoch: YearMonth, t: YearMonth)
    requires SpacersBlank(g) && Addressable(epoch, t)
    ensures var o := CreateNewMonth(g, epoch, t);
      o.result.Ok? ==> CreationWrites(AllValues(ApplyBatches(g, o.batches)), epoch, t) == Ok([])
  {
    var o := CreateNewMonth(g, epoch, t);
    if o.result.Ok? {
      if MonthDataExists(AllValues(g), epoch, t) {
        assert o.batches == [[]];
        assert ApplyBatches(g, o.batches) == ApplyBatches(ApplyAll(g, []), []);
      } else {
        CreateNewMonthReads(g, epoch, t);
      }
    }
  }

  /** The read-or-create step leaves every spacer blank and, when it succeeds, a grid in which
      the month reads as the record it returns, with well-formed line items. With the spacers
      blank a month is never missing after creation, so the only failure is a cell that does
      not parse. */
  lemma MonthOrCreateReads(g: Rows, epoch: YearMonth, t: YearMonth)
    requires SpacersBlank(g) && Addressable(epoch, t)
    ensures var o := MonthOrCreate(g, epoch, t);
      var h := ApplyBatches(g, o.batches);
      && SpacersBlank(h)
      && (o.result.Ok? ==>
            MonthBlockData(AllValues(h), epoch, t) == Ok(Some(o.result.value)) && WellFormedLines(o.result.value.tenants))
      && (o.result.Err? ==> o.result.error == Malformed)
  {
    var o := MonthOrCreate(g, epoch, t);
    var h := ApplyBatches(g, o.batches);
    match MonthBlockData(AllValues(g), epoch, t)
    case Err(_) =>
    case Ok(Some(m)) =>
      MonthReadWellFormed(g, epoch, t, m);
    case Ok(None) =>
      if CurrentTenantData(AllValues(g)).Ok? {
        CreateNewMonthReads(g, epoch, t);
        MonthReadWellFormed(h, epoch, t, o.result.value);
      }
  }

  /** The read-or-create step on a month without a block: one batch, and the month it returns
      is the new month seeded from the roster. */
  lemma MonthOrCreateNew(g: Rows, epoch: YearMonth, t: YearMonth)
    requires SpacersBlank(g) && Addressable(epoch, t)
    requires !MonthDataExists(AllValues(g), epoch, t) && CurrentTenantData(AllValues(g)).Ok?
    ensures var ts := CurrentTenantData(AllValues(g)).value;
      var o := MonthOrCreate(g, epoch, t);
      && o.batches == CreateNewMonth(g, epoch, t).batches
      && o.result == Ok(NewMonth(t, OweMonth(ts, t)))
  {
    CreateNewMonthReads(g, epoch, t);
  }

  /** A month's writes on a grid with blank spacers: the month then reads as the record
      written, and the spacers stay blank. */
  lemma MonthWriteReads(h: Rows, epoch: YearMonth, m: MonthData)
    requires SpacersBlank(h) && Addressable(epoch, TimeOf(m)) && WellFormedLines(m.tenants)
    ensures MonthBlockData(AllValues(ApplyAll(h, EncodeMonthBlock(epoch, m))), epoch, TimeOf(m)) == Ok(Some(m))
    ensures SpacersBlank(ApplyAll(h, EncodeMonthBlock(epoch, m)))
  {
    BlockWriteHeld(h, epoch, m);
    BlockHeldReads(ApplyAll(h, EncodeMonthBlock(epoch, m)), epoch, m);
  }

  /** The roster's writes and a month's writes in one batch, on a grid with blank spacers: the
      roster and the month then read as written (the unpaid months as sets), and the spacers
      stay blank. */
  lemma RosterAndMonthWriteReads(h: Rows, epoch: YearMonth, ts: seq<CurrentTenant>, m: MonthData)
    requires SpacersBlank(h) && WellFormedRoster(ts)
    requires Addressable(epoch, TimeOf(m)) && WellFormedLines(m.tenants)
    ensures var h' := ApplyAll(h, EncodeRoster(ts) + EncodeMonthBlock(epoch, m));
      && CurrentTenantData(AllValues(h')) == Ok(Canonical(ts))
      && MonthBlockData(AllValues(h'), epoch, TimeOf(m)) == Ok(Some(m))
      && SpacersBlank(h')
  {
    var h' := ApplyAll(h, EncodeRoster(ts) + EncodeMonthBlock(epoch, m));
    RosterAndBlockHeld(h, epoch, ts, m);
    RosterHeldReads(h', ts);
    BlockHeldReads(h', epoch, m);
  }

  /** The roster entry addTenant writes for a newcomer. */
  function Newcomer(name: string, t: YearMonth): CurrentTenant {
    CurrentTenant(name, [t], FULLTIME)
  }

  /** The line item addTenant writes for a newcomer: full-time, four weeks, unpaid. */
  function NewcomerLine(name: string): MonthlyTenant {
    MonthlyTenant(name, InitialWeeksStayed(FULLTIME), false)
  }

  /** What addTenant sends once its guards pass and the month has been read or created: the
      batch of any creation, then the roster with the newcomer and the month with the
      newcomer's line item. */
  lemma AddTenantWrites(g: Rows, epoch: YearMonth, name: string, t: YearMonth, ts: seq<CurrentTenant>)
    requires Addressable(epoch, t)
    requires CurrentTenantData(AllValues(g)) == Ok(ts)
    requires name !in Keys(ts, RosterName) && |ts| < MAX_USERS
    requires MonthOrCreate(g, epoch, t).result.Ok?
    ensures var c := MonthOrCreate(g, epoch, t);
      var m := c.result.value;
      AddTenant(g, epoch, name, t) == Outcome(c.batches + [
        EncodeRoster(ts + [Newcomer(name, t)]) +
        EncodeMonthBlock(epoch, m.(tenants := Put(m.tenants, LineName, NewcomerLine(name))))], Ok(()))
  {
    PutKeys(ts, RosterName, Newcomer(name, t));
  }

  /** addTenant's last batch on a grid with blank spacers: the roster then reads with the
      newcomer last, owing only this month, and the month with the newcomer's line item. */
  lemma AddTenantWriteReads(h: Rows, epoch: YearMonth, name: string, t: YearMonth, ts: seq<CurrentTenant>, m: MonthData)
    requires SpacersBlank(h) && Addressable(epoch, t) && TimeOf(m) == t
    requires WellFormedRoster(ts) && WellFormedLines(m.tenants)
    requires name != "" && name !in Keys(ts, RosterName) && |ts| < MAX_USERS
    requires name in Keys(m.tenants, LineName) || |m.tenants| < MAX_USERS
    ensures var m' := m.(tenants := Put(m.tenants, LineName, NewcomerLine(name)));
      var h' := ApplyAll(h, EncodeRoster(ts + [Newcomer(name, t)]) + EncodeMonthBlock(epoch, m'));
      && CurrentTenantData(AllValues(h')) == Ok(Canonical(ts + [Newcomer(name, t)]))
      && MonthBlockData(AllValues(h'), epoch, t) == Ok(Some(m'))
      && SpacersBlank(h')
  {
    PutKeys(ts, RosterName, Newcomer(name, t));
    RosterPutWellFormed(ts, Newcomer(name, t));
    LinesPutWellFormed(m.tenants, NewcomerLine(name));
    RosterAndMonthWriteReads(h, epoch, ts + [Newcomer(name, t)], m.(tenants := Put(m.tenants, LineName, NewcomerLine(name))));
  }

  /** addTenant of a new, non-empty name with room on the roster: afterwards the roster reads
      as the roster read at the start with the newcomer last, owing only this month, and the
      month reads as it did (or as just created) with the newcomer's line item. The roster
      written is never longer than MAX_USERS. */
  lemma AddTenantReads(g: Rows, epoch: YearMonth, name: string, t: YearMonth, ts: seq<CurrentTenant>)
    requires SpacersBlank(g) && Addressable(epoch, t)
    requires CurrentTenantData(AllValues(g)) == Ok(ts)
    requires name != "" && name !in Keys(ts, RosterName) && |ts| < MAX_USERS
    requires MonthOrCreate(g, epoch, t).result.Ok?
    requires var m := MonthOrCreate(g, epoch, t).result.value;
      name in Keys(m.tenants, LineName) || |m.tenants| < MAX_USERS
    ensures var m := MonthOrCreate(g, epoch, t).result.value;
      var o := AddTenant(g, epoch, name, t);
      var h := ApplyBatches(g, o.batches);
      && o.result == Ok(())
      && CurrentTenantData(AllValues(h)) == Ok(Canonical(ts + [Newcomer(name, t)]))
      && |ts + [Newcomer(name, t)]| <= MAX_USERS
      && MonthBlockData(AllValues(h), epoch, t) == Ok(Some(m.(tenants := Put(m.tenants, LineName, NewcomerLine(name)))))
      && SpacersBlank(h)
  {
    var c := MonthOrCreate(g, epoch, t);
    var m := c.result.value;
    MonthOrCreateReads(g, epoch, t);
    RosterReadWellFormed(g, ts);
    AddTenantWrites(g, epoch, name, t, ts);
    var us := EncodeRoster(ts + [Newcomer(name, t)]) +
      EncodeMonthBlock(epoch, m.(tenants := Put(m.tenants, LineName, NewcomerLine(name))));
    ApplyBatchesSnoc(g, c.batches, us);
    AddTenantWriteReads(ApplyBatches(g, c.batches), epoch, name, t, ts, m);
  }

  /** The stale roster of addTenant: when the month had no block, createNewMonth's batch adds
      the month to every tenant's unpaid months, but addTenant's own batch then writes the
      roster it read before creating the month, so no earlier tenant ends up owing it. */
  lemma AddTenantDropsCreatedDebt(g: Rows, epoch: YearMonth, name: string, t: YearMonth, ts: seq<CurrentTenant>)
    requires SpacersBlank(g) && Addressable(epoch, t)
    requires CurrentTenantData(AllValues(g)) == Ok(ts) && !MonthDataExists(AllValues(g), epoch, t)
    requires name != "" && name !in Keys(ts, RosterName) && |ts| < MAX_USERS
    ensures var o := AddTenant(g, epoch, name, t);
      var after := Canonical(ts + [Newcomer(name, t)]);
      && |o.batches| == 2
      && CurrentTenantData(AllValues(ApplyBatches(g, o.batches[..1]))) == Ok(Canonical(OweMonth(ts, t)))
      && CurrentTenantData(AllValues(ApplyBatches(g, o.batches))) == Ok(after)
      && forall i :: 0 <= i < |ts| && t !in ts[i].monthsUnpaid ==> t !in after[i].monthsUnpaid
  {
    var o := AddTenant(g, epoch, name, t);
    MonthOrCreateNew(g, epoch, t);
    CreateNewMonthReads(g, epoch, t);
    var c := MonthOrCreate(g, epoch, t);
    AddTenantReads(g, epoch, name, t, ts);
    AddTenantWrites(g, epoch, name, t, ts);
    assert o.batches[..1] == c.batches;
    var after := Canonical(ts + [Newcomer(name, t)]);
    forall i | 0 <= i < |ts| && t !in ts[i].monthsUnpaid ensures t !in after[i].monthsUnpaid {
      assert (ts + [Newcomer(name, t)])[i] == ts[i];
      assert after[i].monthsUnpaid == Dedup(ts[i].monthsUnpaid);
    }
  }

  /** removeTenant of a name on the roster, when the month reads without error: one batch,
      after which the roster reads without the name and, if the month has a block, the month
      reads without the name's line item. */
  lemma RemoveTenantReads(g: Rows, epoch: YearMonth, name: string, t: YearMonth, ts: seq<CurrentTenant>)
    requires SpacersBlank(g) && Addressable(epoch, t)
    requires CurrentTenantData(AllValues(g)) == Ok(ts) && name in Keys(ts, RosterName)
    requires MonthBlockData(AllValues(g), epoch, t).Ok?
    ensures var read := MonthBlockData(AllValues(g), epoch, t).value;
      var o := RemoveTenant(g, epoch, name, t);
      var h := ApplyBatches(g, o.batches);
      && o.result == Ok(())
      && |o.batches| == 1
      && CurrentTenantData(AllValues(h)) == Ok(Canonical(Del(ts, RosterName, name)))
      && (read.Some? ==>
            MonthBlockData(AllValues(h), epoch, t) == Ok(Some(read.value.(tenants := Del(read.value.tenants, LineName, name)))))
      && SpacersBlank(h)
  {
    var o := RemoveTenant(g, epoch, name, t);
    var roster := Del(ts, RosterName, name);
    RosterReadWellFormed(g, ts);
    RosterDelWellFormed(ts, name);
    ApplyBatchesSnoc(g, [], o.batches[0]);
    assert [] + [o.batches[0]] == o.batches;
    match MonthBlockData(AllValues(g), epoch, t).value
    case None =>
      RosterWriteHeld(g, roster);
      RosterHeldReads(ApplyAll(g, EncodeRoster(roster)), roster);
    case Some(m) =>
      MonthReadWellFormed(g, epoch, t, m);
      LinesDelWellFormed(m.tenants, name);
      RosterAndMonthWriteReads(g, epoch, roster, m.(tenants := Del(m.tenants, LineName, name)));
  }

  /** The months markRentAsPaid keeps never include the month paid for; but they also lose
      every other month of the same year and every month of the same number in another year:
      paying for 9/2021 also clears 8/2021 and 9/2022. */
  lemma KeepOtherMonthsDropsMore()
    ensures KeepOtherMonths([YearMonth(2021, 8), YearMonth(2021, 9), YearMonth(2022, 9), YearMonth(2022, 10)], YearMonth(2021, 9))
      == [YearMonth(2022, 10)]
  {
    var ms := [YearMonth(2021, 8), YearMonth(2021, 9), YearMonth(2022, 9), YearMonth(2022, 10)];
    assert ms[1..][1..][1..] == [YearMonth(2022, 10)];
  }

  /** The intended filter on the same months clears 9/2021 alone. */
  lemma DropPaidMonthKeepsOthers()
    ensures DropPaidMonth([YearMonth(2021, 8), YearMonth(2021, 9), YearMonth(2022, 9), YearMonth(2022, 10)], YearMonth(2021, 9))
      == [YearMonth(2021, 8), YearMonth(2022, 9), YearMonth(2022, 10)]
  {
    var ms := [YearMonth(2021, 8), YearMonth(2021, 9), YearMonth(2022, 9), YearMonth(2022, 10)];
    assert ms[1..][1..][1..] == [YearMonth(2022, 10)];
  }

  /** Marking a line item paid changes that line item only, and only its flag. */
  lemma PaidMonthGet(m: MonthData, name: string, k: string)
    ensures Get(PaidMonth(m, name).tenants, LineName, k) ==
      if k == name && Get(m.tenants, LineName, name).Some? then Some(Get(m.tenants, LineName, name).value.(isPaid := true))
      else Get(m.tenants, LineName, k)
    ensures PaidMonth(m, name).totalRent == m.totalRent && PaidMonth(m, name).totalUtility == m.totalUtility
  {
    match Get(m.tenants, LineName, name)
    case None =>
    case Some(line) => PutGet(m.tenants, LineName, line.(isPaid := true), k);
  }

  /** Marking a line item paid keeps well-formed line items well formed. */
  lemma PaidMonthWellFormed(m: MonthData, name: string)
    requires WellFormedLines(m.tenants)
    ensures WellFormedLines(PaidMonth(m, name).tenants)
  {
    match Get(m.tenants, LineName, name)
    case None =>
    case Some(line) => LinesPutWellFormed(m.tenants, line.(isPaid := true));
  }

  /** The roster entry markRentAsPaid writes: the unpaid months filtered. */
  function PaidEntry(x: CurrentTenant, t: YearMonth): CurrentTenant {
    x.(monthsUnpaid := KeepOtherMonths(x.monthsUnpaid, t))
  }

  /** Filtering a roster entry's unpaid months keeps a well-formed roster well formed. */
  lemma PaidEntryWellFormed(ts: seq<CurrentTenant>, name: string, t: YearMonth)
    requires WellFormedRoster(ts) && name in Keys(ts, RosterName)
    ensures WellFormedRoster(Put(ts, RosterName, PaidEntry(Get(ts, RosterName, name).value, t)))
  {
    var x := Get(ts, RosterName, name).value;
    var x' := PaidEntry(x, t);
    assert x in ts;
    forall k | 0 <= k < |x'.monthsUnpaid| ensures Valid(x'.monthsUnpaid[k]) {
      assert x'.monthsUnpaid[k] in x.monthsUnpaid;
    }
    RosterPutWellFormed(ts, x');
  }

  /** The roster entry markRentAsPaid means to write: the same tenant, with only the month paid
      for gone from the unpaid months. */
  function IntendedPaidEntry(x: CurrentTenant, t: YearMonth): (y: CurrentTenant)
    ensures y.name == x.name && y.staySchedule == x.staySchedule
    ensures forall m :: m in y.monthsUnpaid <==> m in x.monthsUnpaid && m != t
    ensures forall m :: m != t ==> multiset(y.monthsUnpaid)[m] == multiset(x.monthsUnpaid)[m]
  {
    x.(monthsUnpaid := DropPaidMonth(x.monthsUnpaid, t))
  }

  /** Writing the intended entry keeps a well-formed roster well formed too. */
  lemma IntendedPaidEntryWellFormed(ts: seq<CurrentTenant>, name: string, t: YearMonth)
    requires WellFormedRoster(ts) && name in Keys(ts, RosterName)
    ensures WellFormedRoster(Put(ts, RosterName, IntendedPaidEntry(Get(ts, RosterName, name).value, t)))
  {
    var x := Get(ts, RosterName, name).value;
    var x' := IntendedPaidEntry(x, t);
    assert x in ts;
    forall k | 0 <= k < |x'.monthsUnpaid| ensures Valid(x'.monthsUnpaid[k]) {
      assert x'.monthsUnpaid[k] in x.monthsUnpaid;
    }
    RosterPutWellFormed(ts, x');
  }

  /** What markRentAsPaid sends for a name on the roster and a month with a block. */
  lemma MarkRentAsPaidWrites(g: Rows, epoch: YearMonth, name: string, t: YearMonth, ts: seq<CurrentTenant>, m: MonthData)
    requires Addressable(epoch, t)
    requires CurrentTenantData(AllValues(g)) == Ok(ts) && name in Keys(ts, RosterName)
    requires MonthBlockData(AllValues(g), epoch, t) == Ok(Some(m))
    ensures var roster := Put(ts, RosterName, PaidEntry(Get(ts, RosterName, name).value, t));
      MarkRentAsPaid(g, epoch, name, t) == Outcome([EncodeRoster(roster) + EncodeMonthBlock(epoch, PaidMonth(m, name))], Ok(()))
  {
  }

  /** markRentAsPaid of a name on the roster, for a month that has a block: one batch, after
      which the roster reads with the tenant's unpaid months filtered and the month reads with
      the tenant's line item, if any, paid. */
  lemma MarkRentAsPaidReads(g: Rows, epoch: YearMonth, name: string, t: YearMonth, ts: seq<CurrentTenant>, m: MonthData)
    requires SpacersBlank(g) && Addressable(epoch, t)
    requires CurrentTenantData(AllValues(g)) == Ok(ts) && name in Keys(ts, RosterName)
    requires MonthBlockData(AllValues(g), epoch, t) == Ok(Some(m))
    ensures var roster := Put(ts, RosterName, PaidEntry(Get(ts, RosterName, name).value, t));
      var o := MarkRentAsPaid(g, epoch, name, t);
      var h := ApplyBatches(g, o.batches);
      && o.result == Ok(())
      && |o.batches| == 1
      && CurrentTenantData(AllValues(h)) == Ok(Canonical(roster))
      && MonthBlockData(AllValues(h), epoch, t) == Ok(Some(PaidMonth(m, name)))
      && SpacersBlank(h)
  {
    var roster := Put(ts, RosterName, PaidEntry(Get(ts, RosterName, name).value, t));
    var us := EncodeRoster(roster) + EncodeMonthBlock(epoch, PaidMonth(m, name));
    MarkRentAsPaidWrites(g, epoch, name, t, ts, m);
    RosterReadWellFormed(g, ts);
    MonthReadWellFormed(g, epoch, t, m);
    PaidEntryWellFormed(ts, name, t);
    PaidMonthWellFormed(m, name);
    ApplyBatchesSnoc(g, [], us);
    assert [] + [us] == [us];
    RosterAndMonthWriteReads(g, epoch, roster, PaidMonth(m, name));
  }

  /** setTotalRent, when it succeeds: the month (created first if it had no block) then reads
      with the new total rent and everything else as before. */
  lemma SetTotalRentReads(g: Rows, epoch: YearMonth, totalRent: Decimal, t: YearMonth)
    requires SpacersBlank(g) && Addressable(epoch, t)
    ensures var o := SetTotalRent(g, epoch, totalRent, t);
      var h := ApplyBatches(g, o.batches);
      && SpacersBlank(h)
      && (o.result.Ok? ==>
            MonthBlockData(AllValues(h), epoch, t) == Ok(Some(MonthOrCreate(g, epoch, t).result.value.(totalRent := totalRent))))
  {
    var c := MonthOrCreate(g, epoch, t);
    MonthOrCreateReads(g, epoch, t);
    if c.result.Ok? {
      var m' := c.result.value.(totalRent := totalRent);
      ApplyBatchesSnoc(g, c.batches, EncodeMonthBlock(epoch, m'));
      MonthWriteReads(ApplyBatches(g, c.batches), epoch, m');
    }
  }

  /** setTotalUtility, when it succeeds: the month (created first if it had no block) then
      reads with the new total utility cost and everything else as before. */
  lemma SetTotalUtilityReads(g: Rows, epoch: YearMonth, totalUtility: Decimal, t: YearMonth)
    requires SpacersBlank(g) && Addressable(epoch, t)
    ensures var o := SetTotalUtility(g, epoch, totalUtility, t);
      var h := ApplyBatches(g, o.batches);
      && SpacersBlank(h)
      && (o.result.Ok? ==>
            MonthBlockData(AllValues(h), epoch, t) == Ok(Some(MonthOrCreate(g, epoch, t).result.value.(totalUtility := totalUtility))))
  {
    var c := MonthOrCreate(g, epoch, t);
    MonthOrCreateReads(g, epoch, t);
    if c.result.Ok? {
      var m' := c.result.value.(totalUtility := totalUtility);
      ApplyBatchesSnoc(g, c.batches, EncodeMonthBlock(epoch, m'));
      MonthWriteReads(ApplyBatches(g, c.batches), epoch, m');
    }
  }

  /** setWeeksStayed raises KeyError exactly when the tenant is on the roster but the month
      (as read, or as just created) has no line item for them; any creation batch has been
      sent by then. */
  lemma SetWeeksStayedUnknownTenant(g: Rows, epoch: YearMonth, weeks: Decimal, name: string, t: YearMonth)
    requires Addressable(epoch, t)
    ensures var o := SetWeeksStayed(g, epoch, weeks, name, t);
      var c := MonthOrCreate(g, epoch, t);
      o.result == Err(UnknownTenant) <==>
        && CurrentTenantData(AllValues(g)).Ok?
        && name in Keys(CurrentTenantData(AllValues(g)).value, RosterName)
        && c.result.Ok?
        && name !in Keys(c.result.value.tenants, LineName)
    ensures var o := SetWeeksStayed(g, epoch, weeks, name, t);
      o.result == Err(UnknownTenant) ==> o.batches == MonthOrCreate(g, epoch, t).batches
  {
  }

  /** Replacing a tenant's weeks changes that line item only, and only its weeks. */
  lemma WeeksMonthGet(m: MonthData, name: string, weeks: Decimal, k: string)
    ensures Get(WeeksMonth(m, name, weeks).tenants, LineName, k) ==
      if k == name && Get(m.tenants, LineName, name).Some? then Some(Get(m.tenants, LineName, name).value.(weeksStayed := weeks))
      else Get(m.tenants, LineName, k)
    ensures WeeksMonth(m, name, weeks).totalRent == m.totalRent && WeeksMonth(m, name, weeks).totalUtility == m.totalUtility
  {
    match Get(m.tenants, LineName, name)
    case None =>
    case Some(line) => PutGet(m.tenants, LineName, line.(weeksStayed := weeks), k);
  }

  /** Replacing a tenant's weeks keeps well-formed line items well formed. */
  lemma WeeksMonthWellFormed(m: MonthData, name: string, weeks: Decimal)
    requires WellFormedLines(m.tenants)
    ensures WellFormedLines(WeeksMonth(m, name, weeks).tenants)
  {
    match Get(m.tenants, LineName, name)
    case None =>
    case Some(line) => LinesPutWellFormed(m.tenants, line.(weeksStayed := weeks));
  }

  /** setWeeksStayed, when it succeeds for a name on the roster: the month (created first if
      it had no block) then reads with the tenant's weeks replaced and everything else as
      before. */
  lemma SetWeeksStayedReads(g: Rows, epoch: YearMonth, weeks: Decimal, name: string, t: YearMonth)
    requires SpacersBlank(g) && Addressable(epoch, t)
    requires CurrentTenantData(AllValues(g)).Ok? && name in Keys(CurrentTenantData(AllValues(g)).value, RosterName)
    ensures var o := SetWeeksStayed(g, epoch, weeks, name, t);
      var h := ApplyBatches(g, o.batches);
      var c := MonthOrCreate(g, epoch, t);
      && SpacersBlank(h)
      && (o.result.Ok? ==>
            c.result.Ok? && MonthBlockData(AllValues(h), epoch, t) == Ok(Some(WeeksMonth(c.result.value, name, weeks))))
  {
    var c := MonthOrCreate(g, epoch, t);
    MonthOrCreateReads(g, epoch, t);
    if c.result.Ok? && name in Keys(c.result.value.tenants, LineName) {
      var m' := WeeksMonth(c.result.value, name, weeks);
      WeeksMonthWellFormed(c.result.value, name, weeks);
      ApplyBatchesSnoc(g, c.batches, EncodeMonthBlock(epoch, m'));
      MonthWriteReads(ApplyBatches(g, c.batches), epoch, m');
    }
  }
}
