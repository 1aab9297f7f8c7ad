/** The two months of the proration tests (test.py:11-49): a month with nothing posted, which
    charges nobody anything, and a partly paid month whose cost is split among the three
    tenants who have not paid, by the weeks they stayed. */
module ProrationExamples {
  import opened Numbers
  import opened Dicts
  import opened Records
  import opened Proration

  function Item(name: string, weeks: int, paid: bool): MonthlyTenant {
    MonthlyTenant(name, Decimal(weeks, 0), paid)
  }

  /** Eight different names, as the tests' tenants have. */
  predicate Distinct(n: seq<string>) {
    |n| == 8 && forall i, j :: 0 <= i < j < 8 ==> n[i] != n[j]
  }

  /** The tests' tenants, in the order the tests list them. */
  const TEST_TENANTS: seq<string> := ["Mac Mathis", "Jake Deerin", "Taylor Daniel", "Andrew Dallas",
    "Andrew Wittenmyer", "Josh Minter", "David Deerin", "Manny Jonson"]

  lemma TestTenantsDistinct()
    ensures Distinct(TEST_TENANTS)
  {
  }

  /** September 2021 with no rent or utilities posted; nobody has paid. */
  function NothingPosted(n: seq<string>): MonthData
    requires |n| == 8
  {
    MonthData(2021, 9, Zero, Zero, [
      Item(n[0], 4, false), Item(n[1], 4, false), Item(n[2], 0, false), Item(n[3], 0, false),
      Item(n[4], 0, false), Item(n[5], 4, false), Item(n[6], 0, false), Item(n[7], 4, false)])
  }

  /** August 2021: rent 1697.0, utilities 413.18, five of the eight tenants paid. */
  function PartlyPaid(n: seq<string>): MonthData
    requires |n| == 8
  {
    MonthData(2021, 8, Decimal(16970, 1), Decimal(41318, 2), [
      Item(n[0], 4, true), Item(n[1], 4, true), Item(n[2], 2, true), Item(n[3], 4, true),
      Item(n[4], 2, false), Item(n[5], 4, true), Item(n[6], 1, false), Item(n[7], 2, false)])
  }

  /** A month with nothing posted owes 0 under every tenant's name, in order. */
  lemma NothingPostedOwesNothing(n: seq<string>)
    requires Distinct(n)
    ensures Keys(AmountsOwedForMonth(NothingPosted(n)), OwedName) == n
    ensures forall k :: 0 <= k < |AmountsOwedForMonth(NothingPosted(n))| ==> AmountsOwedForMonth(NothingPosted(n))[k].amount == 0.0
  {
    NothingPostedListed(n);
    ZeroCostOwesNothing(NothingPosted(n));
  }

  /** With nobody paid, every tenant is charged, in order. */
  lemma NothingPostedListed(n: seq<string>)
    requires Distinct(n)
    ensures Keys(AmountsOwedForMonth(NothingPosted(n)), OwedName) == n
  {
    var m := NothingPosted(n);
    assert UniqueKeys(m.tenants, LineName);
    assert Keys(m.tenants, LineName) == n;
    NobodyPaidListed(m);
  }

  /** A month in which nobody has paid charges every tenant, in order. */
  lemma NobodyPaidListed(m: MonthData)
    requires UniqueKeys(m.tenants, LineName)
    requires forall i :: 0 <= i < |m.tenants| ==> !m.tenants[i].isPaid
    ensures Keys(AmountsOwedForMonth(m), OwedName) == Keys(m.tenants, LineName)
  {
    AllUnpaid(m.tenants);
    AmountsOwedForMonthListed(m);
  }

  /** The partly paid month charges exactly its three unpaid tenants: 2110.18 split by 2, 1
      and 2 of the 23 weeks stayed. */
  lemma PartlyPaidCharges(n: seq<string>)
    requires Distinct(n)
    ensures AmountsOwedForMonth(PartlyPaid(n)) ==
      [Owed(n[4], 422036.0 / 2300.0), Owed(n[6], 211018.0 / 2300.0), Owed(n[7], 422036.0 / 2300.0)]
  {
    var m := PartlyPaid(n);
    assert UniqueKeys(m.tenants, LineName);
    PartlyPaidUnpaid(n);
    PartlyPaidWeeks(n);
    PartlyPaidCost(n);
    AmountsOwedForMonthListed(m);
    var us := Unpaid(m.tenants);
    assert Share(m, us[0]) == Portion(2110.18, 2.0, 23.0);
    assert Share(m, us[1]) == Portion(2110.18, 1.0, 23.0);
    assert Share(m, us[2]) == Portion(2110.18, 2.0, 23.0);
  }

  /** Three of the eight have not paid. */
  lemma PartlyPaidUnpaid(n: seq<string>)
    requires |n| == 8
    ensures var ts := PartlyPaid(n).tenants; Unpaid(ts) == [ts[4], ts[6], ts[7]]
  {
    UnpaidFifthSeventhEighth(PartlyPaid(n).tenants);
  }

  /** Eight items of which only the fifth, seventh and eighth are unpaid. */
  lemma UnpaidFifthSeventhEighth(ts: seq<MonthlyTenant>)
    requires |ts| == 8
    requires ts[0].isPaid && ts[1].isPaid && ts[2].isPaid && ts[3].isPaid && ts[5].isPaid
    requires !ts[4].isPaid && !ts[6].isPaid && !ts[7].isPaid
    ensures Unpaid(ts) == [ts[4], ts[6], ts[7]]
  {
    assert ts[..0] == [];
    UnpaidPrefix(ts, 1);
    UnpaidPrefix(ts, 2);
    UnpaidPrefix(ts, 3);
    UnpaidPrefix(ts, 4);
    UnpaidPrefix(ts, 5);
    assert Unpaid(ts[..5]) == [ts[4]];
    UnpaidPrefix(ts, 6);
    UnpaidPrefix(ts, 7);
    assert Unpaid(ts[..7]) == [ts[4], ts[6]];
    UnpaidPrefix(ts, 8);
    assert ts[..8] == ts;
  }

  /** The unpaid items of a prefix one item longer. */
  lemma UnpaidPrefix(ts: seq<MonthlyTenant>, k: nat)
    requires 0 < k <= |ts|
    ensures ts[k - 1].isPaid ==> Unpaid(ts[..k]) == Unpaid(ts[..k - 1])
    ensures !ts[k - 1].isPaid ==> Unpaid(ts[..k]) == Unpaid(ts[..k - 1]) + [ts[k - 1]]
  {
    assert ts[..k][..k - 1] == ts[..k - 1];
  }

  /** They stayed 23 weeks in all. */
  lemma PartlyPaidWeeks(n: seq<string>)
    requires |n| == 8
    ensures TotalWeeks(PartlyPaid(n).tenants) == 23.0
  {
    var ws := Weeks(PartlyPaid(n).tenants);
    assert ws == [4.0, 4.0, 2.0, 4.0, 2.0, 4.0, 1.0, 2.0];
    assert Sum(ws[..1]) == 4.0 by { assert ws[..1][..0] == []; }
    assert Sum(ws[..2]) == 8.0 by { assert ws[..2][..1] == ws[..1]; }
    assert Sum(ws[..3]) == 10.0 by { assert ws[..3][..2] == ws[..2]; }
    assert Sum(ws[..4]) == 14.0 by { assert ws[..4][..3] == ws[..3]; }
    assert Sum(ws[..5]) == 16.0 by { assert ws[..5][..4] == ws[..4]; }
    assert Sum(ws[..6]) == 20.0 by { assert ws[..6][..5] == ws[..5]; }
    assert Sum(ws[..7]) == 21.0 by { assert ws[..7][..6] == ws[..6]; }
    assert ws[..8] == ws;
  }

  /** The month cost 2110.18. */
  lemma PartlyPaidCost(n: seq<string>)
    requires |n| == 8
    ensures TotalCost(PartlyPaid(n)) == 2110.18
  {
    assert Scaled(16970.0, 0) == 16970.0;
    assert Value(Decimal(16970, 1)) == 1697.0;
    assert Scaled(41318.0, 0) == 41318.0;
    assert Scaled(41318.0, 1) == 4131.8;
    assert Value(Decimal(41318, 2)) == 413.18;
  }
}
