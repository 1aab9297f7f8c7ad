/** The address scheme: where the roster and each month's block live in the grid. Rows are
    counted from 1 as in the sheet (app/sheet.py:128-133); Index gives the 0-based position in
    the list of rows. */
module Layout {
  import opened Calendar

  /** Rows reserved for each month, and for the roster block that comes first. */
  const MONTH_BLOCK_SIZE: nat := 25
  /** The most tenants the roster may hold. */
  const MAX_USERS: nat := 20
  /** The fixed epoch of the older engine (sheet.py:64-65). */
  const LEGACY_EPOCH := YearMonth(2021, 8)

  function MonthsFromEpoch(epoch: YearMonth, t: YearMonth): int {
    12 * (t.year - epoch.year) + (t.month - epoch.month)
  }

  /** A month whose block has a row in the grid: a real month at or after the epoch. */
  predicate Addressable(epoch: YearMonth, t: YearMonth) {
    Valid(t) && MonthsFromEpoch(epoch, t) >= 0
  }

  /** _getMonthStartRow: the 1-based row of a month's label. */
  function MonthStartRow(epoch: YearMonth, t: YearMonth): int {
    25 * (MonthsFromEpoch(epoch, t) + 1)
  }

  /** The 0-based index of a month's label row. */
  function BlockIndex(epoch: YearMonth, t: YearMonth): (i: nat)
    requires Addressable(epoch, t)
    ensures i == MonthStartRow(epoch, t) - 1
    ensures i >= MONTH_BLOCK_SIZE - 1
  {
    MonthStartRow(epoch, t) - 1
  }

  /** The month whose block starts at a given 1-based row: the inverse of MonthStartRow. */
  function MonthAtRow(epoch: YearMonth, row: int): YearMonth {
    var n := 12 * epoch.year + (epoch.month - 1) + (row / MONTH_BLOCK_SIZE - 1);
    YearMonth(n / 12, n % 12 + 1)
  }

  /** The epoch's own block starts at row 25, right after the roster block. */
  lemma EpochStartRow(epoch: YearMonth)
    ensures MonthStartRow(epoch, epoch) == MONTH_BLOCK_SIZE
  {
  }

  /** Every addressable month starts on a multiple of the block size, at or after row 25. */
  lemma StartRowAfterRoster(epoch: YearMonth, t: YearMonth)
    requires Addressable(epoch, t)
    ensures MonthStartRow(epoch, t) >= MONTH_BLOCK_SIZE
    ensures MonthStartRow(epoch, t) % MONTH_BLOCK_SIZE == 0
  {
  }

  /** The start row determines the month: MonthAtRow undoes MonthStartRow. */
  lemma MonthAtStartRow(epoch: YearMonth, t: YearMonth)
    requires Valid(epoch) && Addressable(epoch, t)
    ensures MonthAtRow(epoch, MonthStartRow(epoch, t)) == t
  {
    var k := MonthsFromEpoch(epoch, t);
    assert MonthStartRow(epoch, t) / MONTH_BLOCK_SIZE == k + 1;
    var n := 12 * epoch.year + (epoch.month - 1) + k;
    assert n == 12 * t.year + (t.month - 1);
  }

  /** Distinct months' blocks start at least a block apart, so the blocks never overlap. */
  lemma StartRowsApart(epoch: YearMonth, a: YearMonth, b: YearMonth)
    requires Addressable(epoch, a) && Addressable(epoch, b) && a != b
    ensures MonthStartRow(epoch, a) + MONTH_BLOCK_SIZE <= MonthStartRow(epoch, b)
         || MonthStartRow(epoch, b) + MONTH_BLOCK_SIZE <= MonthStartRow(epoch, a)
  {
    assert MonthsFromEpoch(epoch, a) != MonthsFromEpoch(epoch, b);
  }
}
