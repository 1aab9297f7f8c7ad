/** Splitting a month's costs among its tenants, and totalling what each current tenant owes
    over every month still unpaid (app/sheet.py:507-551). Amounts are exact reals. */
module Proration {
  import opened Results
  import opened Numbers
  import opened Calendar
  import opened Layout
  import opened Grid
  import opened Dicts
  import opened Records
  import opened Codec

  /** One entry of an amounts-owed dictionary: a tenant's name and what they owe. */
  datatype Owed = Owed(name: string, amount: real)

  function OwedName(o: Owed): string { o.name }

  // ------------------------------------------------------------------ one month

  /** The sum of some numbers (Python's sum). */
  function Sum(xs: seq<real>): real {
    if |xs| == 0 then 0.0 else Sum(xs[..|xs| - 1]) + xs[|xs| - 1]
  }

  /** The weeks stayed of each line item. */
  function Weeks(ts: seq<MonthlyTenant>): (ws: seq<real>)
    ensures |ws| == |ts| && forall i :: 0 <= i < |ts| ==> ws[i] == Value(ts[i].weeksStayed)
  {
    seq(|ts|, i requires 0 <= i < |ts| => Value(ts[i].weeksStayed))
  }

  /** The weeks stayed of all line items, paid or not. */
  function TotalWeeks(ts: seq<MonthlyTenant>): real {
    Sum(Weeks(ts))
  }

  /** The divisor of every share: the total weeks stayed, or 1 when that total is 0. */
  function Divisor(ts: seq<MonthlyTenant>): (d: real)
    ensures d != 0.0
  {
    if TotalWeeks(ts) == 0.0 then 1.0 else TotalWeeks(ts)
  }

  /** The month's total cost: rent plus utilities. */
  function TotalCost(m: MonthData): real {
    Value(m.totalRent) + Value(m.totalUtility)
  }

  /** The part w / d of a cost c. */
  function Portion(c: real, w: real, d: real): real
    requires d != 0.0
  {
    c * (w / d)
  }

  /** A tenant's share of the month's cost, in proportion to the weeks they stayed. */
  function Share(m: MonthData, x: MonthlyTenant): real {
    Portion(TotalCost(m), Value(x.weeksStayed), Divisor(m.tenants))
  }

  /** The line items not yet paid, in order. */
  function Unpaid(ts: seq<MonthlyTenant>): (us: seq<MonthlyTenant>)
    ensures |us| <= |ts|
    ensures forall i :: 0 <= i < |us| ==> !us[i].isPaid && us[i] in ts
    ensures forall i :: 0 <= i < |ts| && !ts[i].isPaid ==> ts[i] in us
  {
    if |ts| == 0 then []
    else
      var rest := Unpaid(ts[..|ts| - 1]);
      assert forall i :: 0 <= i < |ts| - 1 ==> ts[i] == ts[..|ts| - 1][i];
      if ts[|ts| - 1].isPaid then rest else rest + [ts[|ts| - 1]]
  }

  /** The loop of _getAmountsOwedForMonth over the items us: each one's share assigned under
      its name. */
  function SharesOf(m: MonthData, us: seq<MonthlyTenant>): seq<Owed> {
    if |us| == 0 then []
    else Put(SharesOf(m, us[..|us| - 1]), OwedName, Owed(us[|us| - 1].name, Share(m, us[|us| - 1])))
  }

  /** _getAmountsOwedForMonth: the share of every unpaid line item, under its name. */
  function AmountsOwedForMonth(m: MonthData): seq<Owed> {
    SharesOf(m, Unpaid(m.tenants))
  }

  /** _getAmountsOwedForMonth: the total weeks, then the loop over the unpaid line items. */
  method GetAmountsOwedForMonth(monthData: MonthData) returns (amountsOwed: seq<Owed>)
    ensures amountsOwed == AmountsOwedForMonth(monthData)
  {
    var totalWeeksStayed := TotalWeeks(monthData.tenants);
    if totalWeeksStayed == 0.0 {
      totalWeeksStayed := totalWeeksStayed + 1.0;
    }
    var totalCost := Value(monthData.totalRent) + Value(monthData.totalUtility);
    amountsOwed := [];
    var unpaidTenants := Unpaid(monthData.tenants);
    assert totalWeeksStayed == Divisor(monthData.tenants);
    for k := 0 to |unpaidTenants|
      invariant amountsOwed == SharesOf(monthData, unpaidTenants[..k])
    {
      var tenant := unpaidTenants[k];
      assert unpaidTenants[..k + 1][..k] == unpaidTenants[..k];
      ShareComputed(monthData, tenant, totalCost, totalWeeksStayed);
      amountsOwed := Put(amountsOwed, OwedName, Owed(tenant.name, totalCost * (Value(tenant.weeksStayed) / totalWeeksStayed)));
    }
    assert unpaidTenants[..|unpaidTenants|] == unpaidTenants;
  }

  /** The loop's arithmetic is the share. */
  lemma ShareComputed(m: MonthData, x: MonthlyTenant, totalCost: real, totalWeeksStayed: real)
    requires totalCost == TotalCost(m) && totalWeeksStayed == Divisor(m.tenants)
    ensures totalCost * (Value(x.weeksStayed) / totalWeeksStayed) == Share(m, x)
  {
  }

  /** The shares listed one per item, in order. */
  function Listed(m: MonthData, us: seq<MonthlyTenant>): (os: seq<Owed>)
    ensures |os| == |us|
    ensures forall i :: 0 <= i < |us| ==> os[i] == Owed(us[i].name, Share(m, us[i]))
  {
    seq(|us|, i requires 0 <= i < |us| => Owed(us[i].name, Share(m, us[i])))
  }

  /** With distinct names, the loop adds one entry per item, in order. */
  lemma {:induction false} SharesOfDistinct(m: MonthData, us: seq<MonthlyTenant>)
    requires UniqueKeys(us, LineName)
    ensures SharesOf(m, us) == Listed(m, us)
  {
    if |us| > 0 {
      var n := |us| - 1;
      var init := us[..n];
      assert UniqueKeys(init, LineName) by {
        forall i, j | 0 <= i < j < |init| ensures LineName(init[i]) != LineName(init[j]) {
          assert init[i] == us[i] && init[j] == us[j];
        }
      }
      SharesOfDistinct(m, init);
      var prev := Listed(m, init);
      var x := Owed(us[n].name, Share(m, us[n]));
      assert us[n].name !in Keys(prev, OwedName) by {
        forall i | 0 <= i < |prev| ensures prev[i].name != us[n].name {
          assert prev[i].name == init[i].name == us[i].name;
        }
      }
      PutKeys(prev, OwedName, x);
      ListedSnoc(m, us);
    }
  }

  /** One more item listed. */
  lemma ListedSnoc(m: MonthData, us: seq<MonthlyTenant>)
    requires |us| > 0
    ensures Listed(m, us) == Listed(m, us[..|us| - 1]) + [Owed(us[|us| - 1].name, Share(m, us[|us| - 1]))]
  {
    var n := |us| - 1;
    var a := Listed(m, us);
    var b := Listed(m, us[..n]) + [Owed(us[n].name, Share(m, us[n]))];
    forall i | 0 <= i < |a| ensures a[i] == b[i] {
      if i < n {
        assert us[..n][i] == us[i];
      }
    }
  }

  /** Keeping the unpaid items keeps the names distinct. */
  lemma {:induction false} UnpaidDistinct(ts: seq<MonthlyTenant>)
    requires UniqueKeys(ts, LineName)
    ensures UniqueKeys(Unpaid(ts), LineName)
  {
    if |ts| > 0 {
      var n := |ts| - 1;
      var init := ts[..n];
      assert UniqueKeys(init, LineName) by {
        forall i, j | 0 <= i < j < |init| ensures LineName(init[i]) != LineName(init[j]) {
          assert init[i] == ts[i] && init[j] == ts[j];
        }
      }
      UnpaidDistinct(init);
      var rest := Unpaid(init);
      if !ts[n].isPaid {
        forall i | 0 <= i < |rest| ensures rest[i].name != ts[n].name {
          var k :| 0 <= k < |init| && init[k] == rest[i];
          assert LineName(ts[k]) != LineName(ts[n]);
        }
      }
    }
  }

  /** The dictionary _getAmountsOwedForMonth returns holds exactly the unpaid line items, in
      order, each with its share: a tenant who has paid gets no entry. */
  lemma AmountsOwedForMonthListed(m: MonthData)
    requires UniqueKeys(m.tenants, LineName)
    ensures AmountsOwedForMonth(m) == Listed(m, Unpaid(m.tenants))
  {
    UnpaidDistinct(m.tenants);
    SharesOfDistinct(m, Unpaid(m.tenants));
  }

  /** A name has an entry exactly when it is a line item not yet paid, and the entry is that
      item's share. */
  lemma AmountsOwedForMonthGet(m: MonthData, k: string)
    requires UniqueKeys(m.tenants, LineName)
    ensures Get(AmountsOwedForMonth(m), OwedName, k).Some? <==>
      Get(m.tenants, LineName, k).Some? && !Get(m.tenants, LineName, k).value.isPaid
    ensures Get(m.tenants, LineName, k).Some? && !Get(m.tenants, LineName, k).value.isPaid ==>
      Get(AmountsOwedForMonth(m), OwedName, k).value.amount == Share(m, Get(m.tenants, LineName, k).value)
  {
    var us := Unpaid(m.tenants);
    var os := Listed(m, us);
    AmountsOwedForMonthListed(m);
    UnpaidDistinct(m.tenants);
    AlignedGet(us, os, k);
    var g := Get(m.tenants, LineName, k);
    if g.Some? && !g.value.isPaid {
      assert g.value in us;
    }
    if Get(os, OwedName, k).Some? {
      var i :| 0 <= i < |us| && us[i].name == k;
      GetUnique(m.tenants, LineName, us[i]);
    }
  }

  /** Two dictionaries whose entries carry the same names in the same order, with distinct
      names, hold a name at the same position. */
  lemma AlignedGet(us: seq<MonthlyTenant>, os: seq<Owed>, k: string)
    requires UniqueKeys(us, LineName) && |os| == |us|
    requires forall i :: 0 <= i < |us| ==> os[i].name == us[i].name
    ensures Get(os, OwedName, k).Some? <==> exists i :: 0 <= i < |us| && us[i].name == k
    ensures forall i :: 0 <= i < |us| && us[i].name == k ==>
      Get(us, LineName, k) == Some(us[i]) && Get(os, OwedName, k) == Some(os[i])
  {
    assert UniqueKeys(os, OwedName) by {
      forall i, j | 0 <= i < j < |os| ensures OwedName(os[i]) != OwedName(os[j]) {
        assert LineName(us[i]) != LineName(us[j]);
      }
    }
    if Get(os, OwedName, k).Some? {
      var j :| 0 <= j < |os| && os[j] == Get(os, OwedName, k).value;
      assert us[j].name == k;
    }
    forall i | 0 <= i < |us| && us[i].name == k
      ensures Get(us, LineName, k) == Some(us[i]) && Get(os, OwedName, k) == Some(os[i])
    {
      GetUnique(us, LineName, us[i]);
      GetUnique(os, OwedName, os[i]);
    }
  }

  /** In a dictionary with distinct keys, looking up an entry's key finds that entry. */
  lemma GetUnique<T>(d: seq<T>, key: T -> string, x: T)
    requires UniqueKeys(d, key) && x in d
    ensures Get(d, key, key(x)) == Some(x)
  {
    var i :| 0 <= i < |d| && d[i] == x;
    var r := Get(d, key, key(x));
    assert Keys(d, key)[i] == key(x);
    var j :| 0 <= j < |d| && d[j] == r.value;
    assert key(d[j]) == key(d[i]);
  }

  /** The amounts of a dictionary, in order. */
  function Amounts(os: seq<Owed>): (xs: seq<real>)
    ensures |xs| == |os| && forall i :: 0 <= i < |os| ==> xs[i] == os[i].amount
  {
    seq(|os|, i requires 0 <= i < |os| => os[i].amount)
  }

  /** The sum of the amounts of a dictionary. */
  function SumOwed(os: seq<Owed>): real {
    Sum(Amounts(os))
  }

  /** Each number's portion of a cost c. */
  function Portions(c: real, d: real, xs: seq<real>): (ps: seq<real>)
    requires d != 0.0
    ensures |ps| == |xs| && forall i :: 0 <= i < |xs| ==> ps[i] == Portion(c, xs[i], d)
  {
    seq(|xs|, i requires 0 <= i < |xs| => Portion(c, xs[i], d))
  }

  /** The portions add up to the portion of the sum. */
  lemma {:induction false} PortionsSum(c: real, d: real, xs: seq<real>)
    requires d != 0.0
    ensures Sum(Portions(c, d, xs)) == Portion(c, Sum(xs), d)
  {
    if |xs| > 0 {
      var n := |xs| - 1;
      PortionsSum(c, d, xs[..n]);
      forall i | 0 <= i < n ensures Portions(c, d, xs)[..n][i] == Portions(c, d, xs[..n])[i] {
        assert xs[..n][i] == xs[i];
      }
      assert Portions(c, d, xs)[..n] == Portions(c, d, xs[..n]);
      SplitShare(c, Sum(xs[..n]), xs[n], d);
    }
  }

  /** Splitting the weeks splits the share. */
  lemma SplitShare(c: real, a: real, w: real, d: real)
    requires d != 0.0
    ensures Portion(c, a + w, d) == Portion(c, a, d) + Portion(c, w, d)
  {
    assert (a + w) / d == a / d + w / d;
  }

  /** The shares of some items add up to the cost in proportion to their weeks. */
  lemma ListedSum(m: MonthData, us: seq<MonthlyTenant>)
    ensures SumOwed(Listed(m, us)) == Portion(TotalCost(m), TotalWeeks(us), Divisor(m.tenants))
  {
    var os := Listed(m, us);
    var ps := Portions(TotalCost(m), Divisor(m.tenants), Weeks(us));
    forall i | 0 <= i < |us| ensures Amounts(os)[i] == ps[i] {
      assert os[i].amount == Share(m, us[i]);
    }
    assert Amounts(os) == ps;
    PortionsSum(TotalCost(m), Divisor(m.tenants), Weeks(us));
  }

  /** The amounts owed for a month add up to its cost times the unpaid weeks over the total
      weeks. */
  lemma AmountsOwedForMonthSum(m: MonthData)
    requires UniqueKeys(m.tenants, LineName)
    ensures SumOwed(AmountsOwedForMonth(m)) == Portion(TotalCost(m), TotalWeeks(Unpaid(m.tenants)), Divisor(m.tenants))
  {
    AmountsOwedForMonthListed(m);
    ListedSum(m, Unpaid(m.tenants));
  }

  /** Nobody has paid and somebody stayed: the amounts owed add up to the whole cost. */
  lemma NobodyPaidOwesWholeCost(m: MonthData)
    requires UniqueKeys(m.tenants, LineName)
    requires forall i :: 0 <= i < |m.tenants| ==> !m.tenants[i].isPaid
    requires TotalWeeks(m.tenants) != 0.0
    ensures SumOwed(AmountsOwedForMonth(m)) == TotalCost(m)
  {
    AllUnpaid(m.tenants);
    AmountsOwedForMonthSum(m);
    WholeShare(TotalCost(m), TotalWeeks(m.tenants));
  }

  /** The portion of everything is the whole. */
  lemma WholeShare(c: real, t: real)
    requires t != 0.0
    ensures Portion(c, t, t) == c
  {
  }

  /** With nobody paid, every item is unpaid. */
  lemma {:induction false} AllUnpaid(ts: seq<MonthlyTenant>)
    requires forall i :: 0 <= i < |ts| ==> !ts[i].isPaid
    ensures Unpaid(ts) == ts
  {
    if |ts| > 0 {
      AllUnpaid(ts[..|ts| - 1]);
      assert ts[..|ts| - 1] + [ts[|ts| - 1]] == ts;
    }
  }

  /** A month with no rent and no utilities posted charges every unpaid tenant nothing. */
  lemma ZeroCostOwesNothing(m: MonthData)
    requires TotalCost(m) == 0.0
    ensures forall k :: 0 <= k < |AmountsOwedForMonth(m)| ==> AmountsOwedForMonth(m)[k].amount == 0.0
  {
    ZeroCostShares(m, Unpaid(m.tenants));
  }

  lemma {:induction false} ZeroCostShares(m: MonthData, us: seq<MonthlyTenant>)
    requires TotalCost(m) == 0.0
    ensures forall k :: 0 <= k < |SharesOf(m, us)| ==> SharesOf(m, us)[k].amount == 0.0
  {
    if |us| > 0 {
      var prev := SharesOf(m, us[..|us| - 1]);
      ZeroCostShares(m, us[..|us| - 1]);
      var x := Owed(us[|us| - 1].name, Share(m, us[|us| - 1]));
      assert x.amount == 0.0;
      var r := Put(prev, OwedName, x);
      forall k | 0 <= k < |r| ensures r[k].amount == 0.0 {
        assert r[k] in prev || r[k] == x;
      }
    }
  }

  /** Shares are never negative when the costs and every week count are not. */
  lemma ShareNonNegative(m: MonthData, x: MonthlyTenant)
    requires TotalCost(m) >= 0.0 && Value(x.weeksStayed) >= 0.0
    requires forall i :: 0 <= i < |m.tenants| ==> Value(m.tenants[i].weeksStayed) >= 0.0
    ensures Share(m, x) >= 0.0
  {
    TotalWeeksNonNegative(m.tenants);
  }

  lemma TotalWeeksNonNegative(ts: seq<MonthlyTenant>)
    requires forall i :: 0 <= i < |ts| ==> Value(ts[i].weeksStayed) >= 0.0
    ensures TotalWeeks(ts) >= 0.0
  {
    SumNonNegative(Weeks(ts));
  }

  lemma {:induction false} SumNonNegative(xs: seq<real>)
    requires forall i :: 0 <= i < |xs| ==> xs[i] >= 0.0
    ensures Sum(xs) >= 0.0
  {
    if |xs| > 0 {
      SumNonNegative(xs[..|xs| - 1]);
    }
  }

  // ------------------------------------------------------------------ every month owed

  /** Every month some tenant still owes for, each once, in order of first mention (the
      union of the tenants' sets of unpaid months). */
  function MonthsOwed(ts: seq<CurrentTenant>): (ms: seq<YearMonth>)
    ensures forall i, j :: 0 <= i < j < |ms| ==> ms[i] != ms[j]
  {
    Dedup(AllUnpaidMonths(ts))
  }

  /** The unpaid months of the tenants, one list after another. */
  function AllUnpaidMonths(ts: seq<CurrentTenant>): seq<YearMonth> {
    if |ts| == 0 then [] else AllUnpaidMonths(ts[..|ts| - 1]) + ts[|ts| - 1].monthsUnpaid
  }

  /** A month is owed exactly when some tenant lists it as unpaid. */
  lemma MonthsOwedMembers(ts: seq<CurrentTenant>, t: YearMonth)
    ensures t in MonthsOwed(ts) <==> exists i :: 0 <= i < |ts| && t in ts[i].monthsUnpaid
  {
    AllUnpaidMonthsMembers(ts, t);
  }

  lemma {:induction false} AllUnpaidMonthsMembers(ts: seq<CurrentTenant>, t: YearMonth)
    ensures t in AllUnpaidMonths(ts) <==> exists i :: 0 <= i < |ts| && t in ts[i].monthsUnpaid
  {
    if |ts| > 0 {
      var n := |ts| - 1;
      AllUnpaidMonthsMembers(ts[..n], t);
      if t in AllUnpaidMonths(ts) {
        if t !in ts[n].monthsUnpaid {
          var i :| 0 <= i < n && t in ts[..n][i].monthsUnpaid;
          assert ts[i] == ts[..n][i];
        }
      } else {
        forall i | 0 <= i < |ts| ensures t !in ts[i].monthsUnpaid {
          if i < n {
            assert ts[i] == ts[..n][i];
          }
        }
      }
    }
  }

  /** One month of getAmountsOwed: its block read as a record. A month before the epoch has no
      block to read; a missing block fails the proration as the None it reads as would. */
  function MonthAt(allRows: Rows, epoch: YearMonth, t: YearMonth): (r: Result<MonthData>)
    ensures r.Ok? ==> Addressable(epoch, t) && MonthBlockData(allRows, epoch, t) == Ok(Some(r.value))
    ensures r.Err? <==>
      !Addressable(epoch, t) || MonthBlockData(allRows, epoch, t).Err? || MonthBlockData(allRows, epoch, t) == Ok(None)
  {
    if !Addressable(epoch, t) then Err(Unaddressable)
    else
      var block :- MonthBlockData(allRows, epoch, t);
      if block.None? then Err(NoMonthBlock) else Ok(block.value)
  }

  /** The records of the months, in order; the first that fails to read stops the reading
      with its error. */
  function ReadEach<S, T>(xs: seq<S>, read: S -> Result<T>): (r: Result<seq<T>>)
    ensures r.Ok? ==> |r.value| == |xs|
  {
    if |xs| == 0 then Ok([])
    else
      var init :- ReadEach(xs[..|xs| - 1], read);
      var last :- read(xs[|xs| - 1]);
      Ok(init + [last])
  }

  /** The months read exactly when each of them does, and then the k-th record is the k-th
      month's. */
  lemma {:induction false} ReadEachOk<S, T>(xs: seq<S>, read: S -> Result<T>)
    ensures ReadEach(xs, read).Ok? <==> forall k :: 0 <= k < |xs| ==> read(xs[k]).Ok?
    ensures ReadEach(xs, read).Ok? ==> forall k :: 0 <= k < |xs| ==> ReadEach(xs, read).value[k] == read(xs[k]).value
  {
    if |xs| > 0 {
      var n := |xs| - 1;
      ReadEachOk(xs[..n], read);
      assert forall k :: 0 <= k < n ==> xs[..n][k] == xs[k];
      if !read(xs[n]).Ok? {
        assert !(forall k :: 0 <= k < |xs| ==> read(xs[k]).Ok?);
      }
    }
  }

  /** An item that fails to read makes the reading of every list through it fail the same way. */
  lemma {:induction false} ReadEachStops<S, T>(xs: seq<S>, read: S -> Result<T>, k: nat)
    requires k < |xs| && ReadEach(xs[..k], read).Ok? && read(xs[k]).Err?
    ensures ReadEach(xs, read) == Err(read(xs[k]).error)
    decreases |xs|
  {
    var n := |xs| - 1;
    if k == n {
      assert xs[..n] == xs[..k];
    } else {
      assert xs[..n][..k] == xs[..k];
      ReadEachStops(xs[..n], read, k);
    }
  }

  /** One more item read. */
  lemma ReadEachSnoc<S, T>(xs: seq<S>, read: S -> Result<T>, k: nat, init: seq<T>)
    requires k < |xs| && ReadEach(xs[..k], read) == Ok(init) && read(xs[k]).Ok?
    ensures ReadEach(xs[..k + 1], read) == Ok(init + [read(xs[k]).value])
  {
    assert xs[..k + 1][..k] == xs[..k];
  }

  lemma ReadEachAll<S, T>(xs: seq<S>, read: S -> Result<T>)
    ensures ReadEach(xs[..|xs|], read) == ReadEach(xs, read)
  {
    assert xs[..|xs|] == xs;
  }

  /** The reader of the months of one sheet. */
  function MonthReader(allRows: Rows, epoch: YearMonth): YearMonth -> Result<MonthData> {
    t => MonthAt(allRows, epoch, t)
  }

  /** The amount owed under a name in one month's dictionary: its entry, or nothing. */
  function ShareFor(os: seq<Owed>, name: string): real {
    match Get(os, OwedName, name)
    case Some(o) => o.amount
    case None => 0.0
  }

  /** The inner loop of getAmountsOwed: every running total increased by the month's amount
      under the same name. */
  function AddMonth(acc: seq<Owed>, os: seq<Owed>): (r: seq<Owed>)
    ensures |r| == |acc|
    ensures Keys(r, OwedName) == Keys(acc, OwedName)
  {
    seq(|acc|, i requires 0 <= i < |acc| => Owed(acc[i].name, acc[i].amount + ShareFor(os, acc[i].name)))
  }

  /** The outer loop of getAmountsOwed over the records of the months. */
  function Accumulate(acc: seq<Owed>, mds: seq<MonthData>): (r: seq<Owed>)
    ensures Keys(r, OwedName) == Keys(acc, OwedName)
  {
    if |mds| == 0 then acc else AddMonth(Accumulate(acc, mds[..|mds| - 1]), AmountsOwedForMonth(mds[|mds| - 1]))
  }

  /** One more month accumulated. */
  lemma AccumulateSnoc(acc: seq<Owed>, mds: seq<MonthData>, md: MonthData)
    ensures Accumulate(acc, mds + [md]) == AddMonth(Accumulate(acc, mds), AmountsOwedForMonth(md))
  {
    assert (mds + [md])[..|mds|] == mds;
  }

  /** What the months charge one name, summed. */
  function Charged(mds: seq<MonthData>, name: string): real {
    if |mds| == 0 then 0.0 else Charged(mds[..|mds| - 1], name) + ShareFor(AmountsOwedForMonth(mds[|mds| - 1]), name)
  }

  /** Each running total ends as its start plus what every month charges that name. */
  lemma {:induction false} AccumulateCharged(acc: seq<Owed>, mds: seq<MonthData>)
    ensures |Accumulate(acc, mds)| == |acc|
    ensures forall i :: 0 <= i < |acc| ==> Accumulate(acc, mds)[i].amount == acc[i].amount + Charged(mds, acc[i].name)
  {
    if |mds| > 0 {
      AccumulateCharged(acc, mds[..|mds| - 1]);
      var prev := Accumulate(acc, mds[..|mds| - 1]);
      assert forall i :: 0 <= i < |acc| ==> prev[i].name == acc[i].name by {
        assert Keys(prev, OwedName) == Keys(acc, OwedName);
        assert forall i :: 0 <= i < |acc| ==> Keys(prev, OwedName)[i] == prev[i].name;
      }
    }
  }

  /** The starting totals: 0 for every current tenant. */
  function Zeros(ts: seq<CurrentTenant>): (r: seq<Owed>)
    ensures |r| == |ts|
    ensures forall i :: 0 <= i < |ts| ==> r[i] == Owed(ts[i].name, 0.0)
  {
    seq(|ts|, i requires 0 <= i < |ts| => Owed(ts[i].name, 0.0))
  }

  /** getAmountsOwed: nothing for an empty roster; otherwise every current tenant's total over
      the months some tenant owes for. */
  function AmountsOwed(allRows: Rows, epoch: YearMonth): Result<seq<Owed>> {
    var ts :- CurrentTenantData(allRows);
    if |ts| == 0 then Ok([])
    else
      var mds :- ReadEach(MonthsOwed(ts), MonthReader(allRows, epoch));
      Ok(Accumulate(Zeros(ts), mds))
  }

  /** A roster that cannot be read fails the computation as malformed. */
  lemma AmountsOwedRosterError(allRows: Rows, epoch: YearMonth)
    requires CurrentTenantData(allRows).Err?
    ensures AmountsOwed(allRows, epoch) == Err(Malformed)
  {
  }

  /** With the roster read, the computation succeeds exactly when the roster is empty or every
      owed month reads as a record. */
  lemma AmountsOwedOk(allRows: Rows, epoch: YearMonth, ts: seq<CurrentTenant>)
    requires CurrentTenantData(allRows) == Ok(ts)
    ensures AmountsOwed(allRows, epoch).Ok? <==>
      |ts| == 0 || forall t :: t in MonthsOwed(ts) ==> MonthAt(allRows, epoch, t).Ok?
  {
    var ms := MonthsOwed(ts);
    ReadEachOk(ms, MonthReader(allRows, epoch));
    if |ts| > 0 && !ReadEach(ms, MonthReader(allRows, epoch)).Ok? {
      var k :| 0 <= k < |ms| && !MonthReader(allRows, epoch)(ms[k]).Ok?;
      assert !MonthAt(allRows, epoch, ms[k]).Ok?;
    }
  }

  /** The totals are keyed by the roster's names in roster order, and each is what the owed
      months charge that name. */
  lemma AmountsOwedTotals(allRows: Rows, epoch: YearMonth, ts: seq<CurrentTenant>, mds: seq<MonthData>)
    requires CurrentTenantData(allRows) == Ok(ts) && |ts| > 0
    requires ReadEach(MonthsOwed(ts), MonthReader(allRows, epoch)) == Ok(mds)
    ensures AmountsOwed(allRows, epoch).Ok?
    ensures Keys(AmountsOwed(allRows, epoch).value, OwedName) == Keys(ts, RosterName)
    ensures forall i :: 0 <= i < |ts| ==>
      AmountsOwed(allRows, epoch).value[i] == Owed(ts[i].name, Charged(mds, ts[i].name))
  {
    AccumulateCharged(Zeros(ts), mds);
    var os := Accumulate(Zeros(ts), mds);
    assert AmountsOwed(allRows, epoch) == Ok(os);
    forall i | 0 <= i < |ts| ensures os[i] == Owed(ts[i].name, Charged(mds, ts[i].name)) {
      assert Keys(os, OwedName)[i] == Keys(Zeros(ts), OwedName)[i];
    }
  }

  /** A roster with nobody on it owes nothing. */
  lemma EmptyRosterOwesNothing(allRows: Rows, epoch: YearMonth)
    requires CurrentTenantData(allRows) == Ok([])
    ensures AmountsOwed(allRows, epoch) == Ok([])
  {
  }

  /** getAmountsOwed, with its loops: the union of unpaid months, then for each month its
      amounts added to the running totals. */
  method GetAmountsOwed(allRows: Rows, epoch: YearMonth) returns (r: Result<seq<Owed>>)
    ensures r == AmountsOwed(allRows, epoch)
  {
    var currentTenants := GetCurrentTenantData(allRows);
    if currentTenants.Err? {
      return Err(currentTenants.error);
    }
    var ts := currentTenants.value;
    if |ts| == 0 {
      return Ok([]);
    }
    var monthsOwed := MonthsOwed(ts);
    var amountsOwed := Zeros(ts);
    ghost var mds: seq<MonthData> := [];
    for k := 0 to |monthsOwed|
      invariant ReadEach(monthsOwed[..k], MonthReader(allRows, epoch)) == Ok(mds)
      invariant amountsOwed == Accumulate(Zeros(ts), mds)
    {
      var monthData := MonthAt(allRows, epoch, monthsOwed[k]);
      if monthData.Err? {
        ReadEachStops(monthsOwed, MonthReader(allRows, epoch), k);
        return Err(monthData.error);
      }
      var monthAmountsOwed := GetAmountsOwedForMonth(monthData.value);
      amountsOwed := AddMonthLoop(amountsOwed, monthAmountsOwed);
      ReadEachSnoc(monthsOwed, MonthReader(allRows, epoch), k, mds);
      AccumulateSnoc(Zeros(ts), mds, monthData.value);
      mds := mds + [monthData.value];
    }
    ReadEachAll(monthsOwed, MonthReader(allRows, epoch));
    return Ok(amountsOwed);
  }

  /** The inner loop of getAmountsOwed over the running totals. */
  method AddMonthLoop(amountsOwed: seq<Owed>, monthAmountsOwed: seq<Owed>) returns (r: seq<Owed>)
    ensures r == AddMonth(amountsOwed, monthAmountsOwed)
  {
    r := amountsOwed;
    for i := 0 to |r|
      invariant |r| == |amountsOwed|
      invariant forall j :: 0 <= j < i ==> r[j] == AddMonth(amountsOwed, monthAmountsOwed)[j]
      invariant forall j :: i <= j < |r| ==> r[j] == amountsOwed[j]
    {
      var tenant := r[i].name;
      var entry := Get(monthAmountsOwed, OwedName, tenant);
      if entry.None? {
        continue;
      }
      r := r[i := Owed(tenant, r[i].amount + entry.value.amount)];
    }
  }
}
