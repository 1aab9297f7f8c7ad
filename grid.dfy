/** The worksheet as the engine sees it: a list of rows of cell strings, read whole with
    get_all_values and changed only by batch_update, a batch of rectangular writes. */
module Grid {
  import opened Results

  type Row = seq<string>
  type Rows = seq<Row>

  /** One range write of a batch_update: values[i][j] goes to the cell at 0-based row top + i,
      column left + j. (The sheet names the range in A1 notation; the model keeps the numbers.) */
  datatype Update = Update(top: nat, left: nat, values: seq<seq<string>>)

  function Max(a: int, b: int): int {
    if a < b then b else a
  }

  /** A cell of the grid as stored, empty where nothing was ever written. */
  function Cell(g: Rows, r: nat, c: nat): string {
    if r < |g| && c < |g[r]| then g[r][c] else ""
  }

  /** A row with vals written from column left on; the row grows when the write reaches past
      its end. */
  function Overlay(row: Row, left: nat, vals: seq<string>): (r: Row)
    ensures |r| == Max(|row|, left + |vals|)
  {
    seq(Max(|row|, left + |vals|), j requires 0 <= j < Max(|row|, left + |vals|) =>
      if left <= j < left + |vals| then vals[j - left] else if j < |row| then row[j] else "")
  }

  lemma OverlayCell(row: Row, left: nat, vals: seq<string>, j: nat)
    requires j < Max(|row|, left + |vals|)
    ensures Overlay(row, left, vals)[j] ==
      if left <= j < left + |vals| then vals[j - left] else if j < |row| then row[j] else ""
  {
  }

  /** The grid after one range write; rows are added when the write reaches past the end. */
  function Apply(g: Rows, u: Update): (h: Rows)
    ensures |h| == if |u.values| == 0 then |g| else Max(|g|, u.top + |u.values|)
  {
    var n := if |u.values| == 0 then |g| else Max(|g|, u.top + |u.values|);
    seq(n, r requires 0 <= r < n =>
      var was := if r < |g| then g[r] else [];
      if u.top <= r < u.top + |u.values| then Overlay(was, u.left, u.values[r - u.top]) else was)
  }

  /** The grid after a whole batch, applied in order. */
  function ApplyAll(g: Rows, us: seq<Update>): Rows
    decreases |us|
  {
    if |us| == 0 then g else ApplyAll(Apply(g, us[0]), us[1..])
  }

  /** Does the write put a value in this cell? */
  predicate Covers(u: Update, r: nat, c: nat) {
    u.top <= r < u.top + |u.values| && u.left <= c < u.left + |u.values[r - u.top]|
  }

  /** A write sets exactly the cells it covers and leaves every other cell as it was. */
  lemma CellApply(g: Rows, u: Update, r: nat, c: nat)
    ensures Cell(Apply(g, u), r, c) ==
      if Covers(u, r, c) then u.values[r - u.top][c - u.left] else Cell(g, r, c)
  {
    var h := Apply(g, u);
    var was := if r < |g| then g[r] else [];
    if u.top <= r < u.top + |u.values| {
      var vals := u.values[r - u.top];
      assert r < |h|;
      ApplyRow(g, u, r);
      var o := Overlay(was, u.left, vals);
      if c < |o| {
        OverlayCell(was, u.left, vals, c);
      } else {
        assert !Covers(u, r, c) && Cell(g, r, c) == "";
      }
    } else {
      assert !Covers(u, r, c);
      if r < |h| {
        ApplyRow(g, u, r);
      }
    }
  }

  /** The row a write leaves at index r. */
  lemma ApplyRow(g: Rows, u: Update, r: nat)
    requires r < |Apply(g, u)|
    ensures Apply(g, u)[r] ==
      var was := if r < |g| then g[r] else [];
      if u.top <= r < u.top + |u.values| then Overlay(was, u.left, u.values[r - u.top]) else was
  {
  }

  /** A write keeps each row it does not reach, and leaves the rows it reaches at least as long
      as the values written into them. */
  lemma RowsApply(g: Rows, u: Update, r: nat)
    ensures r < |g| && !(u.top <= r < u.top + |u.values|) ==> Apply(g, u)[r] == g[r]
    ensures u.top <= r < u.top + |u.values| ==> |Apply(g, u)[r]| >= u.left + |u.values[r - u.top]|
    ensures r < |g| ==> |Apply(g, u)[r]| >= |g[r]|
  {
    if u.top <= r < u.top + |u.values| || r < |g| {
      ApplyRow(g, u, r);
    }
  }

  /** Every write of a batch lies in rows lo .. hi-1. */
  predicate WithinRows(us: seq<Update>, lo: nat, hi: nat) {
    forall i :: 0 <= i < |us| ==> |us[i].values| == 0 || (lo <= us[i].top && us[i].top + |us[i].values| <= hi)
  }

  /** A batch confined to some rows is confined to any range around them. */
  lemma WithinRowsWiden(us: seq<Update>, lo: nat, hi: nat, lo': nat, hi': nat)
    requires lo' <= lo && hi <= hi'
    ensures WithinRows(us, lo, hi) ==> WithinRows(us, lo', hi')
  {
  }

  /** A batch confined to rows lo .. hi-1 changes no cell and no row outside them. */
  lemma {:induction false} ApplyAllOutside(g: Rows, us: seq<Update>, lo: nat, hi: nat, r: nat)
    requires WithinRows(us, lo, hi) && (r < lo || hi <= r)
    ensures forall c :: Cell(ApplyAll(g, us), r, c) == Cell(g, r, c)
    ensures r < |g| ==> r < |ApplyAll(g, us)| && ApplyAll(g, us)[r] == g[r]
    ensures |ApplyAll(g, us)| >= |g|
    decreases |us|
  {
    if |us| > 0 {
      forall c ensures Cell(Apply(g, us[0]), r, c) == Cell(g, r, c) {
        CellApply(g, us[0], r, c);
      }
      RowsApply(g, us[0], r);
      assert WithinRows(us[1..], lo, hi) by {
        forall i | 0 <= i < |us[1..]| ensures |us[1..][i].values| == 0 || (lo <= us[1..][i].top && us[1..][i].top + |us[1..][i].values| <= hi) {
          assert us[1..][i] == us[i + 1];
        }
      }
      ApplyAllOutside(Apply(g, us[0]), us[1..], lo, hi, r);
    }
  }

  /** Batches compose: applying a concatenation is applying one after the other. */
  lemma {:induction false} ApplyAllAppend(g: Rows, us: seq<Update>, vs: seq<Update>)
    ensures ApplyAll(g, us + vs) == ApplyAll(ApplyAll(g, us), vs)
    decreases |us|
  {
    if |us| > 0 {
      assert (us + vs)[0] == us[0] && (us + vs)[1..] == us[1..] + vs;
      ApplyAllAppend(Apply(g, us[0]), us[1..], vs);
    } else {
      assert us + vs == vs;
    }
  }

  /** The batches of several batch_update calls, applied one after another. */
  function ApplyBatches(g: Rows, bs: seq<seq<Update>>): Rows
    decreases |bs|
  {
    if |bs| == 0 then g else ApplyBatches(ApplyAll(g, bs[0]), bs[1..])
  }

  /** Sending one more batch applies it to the grid the earlier batches left. */
  lemma {:induction false} ApplyBatchesSnoc(g: Rows, bs: seq<seq<Update>>, b: seq<Update>)
    ensures ApplyBatches(g, bs + [b]) == ApplyAll(ApplyBatches(g, bs), b)
    decreases |bs|
  {
    if |bs| == 0 {
      assert [] + [b] == [b];
      assert [b][1..] == [];
    } else {
      assert (bs + [b])[0] == bs[0] && (bs + [b])[1..] == bs[1..] + [b];
      ApplyBatchesSnoc(ApplyAll(g, bs[0]), bs[1..], b);
    }
  }

  /** Sending one batch is applying it. */
  lemma OneBatch(g: Rows, us: seq<Update>)
    ensures ApplyBatches(g, [us]) == ApplyAll(g, us)
  {
    ApplyBatchesSnoc(g, [], us);
    assert [] + [us] == [us];
  }

  /** The width of the widest row. */
  function MaxWidth(g: Rows): (w: nat)
    ensures forall r :: 0 <= r < |g| ==> |g[r]| <= w
    ensures |g| > 0 ==> exists r :: 0 <= r < |g| && |g[r]| == w
    ensures |g| == 0 ==> w == 0
  {
    if |g| == 0 then 0
    else
      var w := MaxWidth(g[..|g| - 1]);
      assert forall r :: 0 <= r < |g| - 1 ==> g[..|g| - 1][r] == g[r];
      if |g[|g| - 1]| > w then |g[|g| - 1]| else w
  }

  /** get_all_values: every row padded with empty cells to the width of the widest. */
  function AllValues(g: Rows): (h: Rows)
    ensures |h| == |g|
    ensures forall r :: 0 <= r < |h| ==> |h[r]| == MaxWidth(g)
  {
    var w := MaxWidth(g);
    seq(|g|, r requires 0 <= r < |g| => Pad(g[r], w))
  }

  /** A row padded with empty cells up to width w. */
  function Pad(row: Row, w: nat): (p: Row)
    ensures |p| == if |row| < w then w else |row|
  {
    if |row| < w then row + seq(w - |row|, _ => "") else row
  }

  lemma PadCell(row: Row, w: nat, c: nat)
    requires c < w
    ensures Pad(row, w)[c] == if c < |row| then row[c] else ""
  {
  }

  /** A padded row shows the stored cells and empty cells after them. */
  lemma AllValuesCell(g: Rows, r: nat, c: nat)
    requires r < |g| && c < MaxWidth(g)
    ensures AllValues(g)[r][c] == Cell(g, r, c)
  {
    PadCell(g[r], MaxWidth(g), c);
  }

  /** A row of the sheet that holds data: its first cell is not empty. An empty row list (which
      get_all_values never returns inside the grid) counts as holding none. */
  predicate HasData(row: Row) {
    |row| > 0 && row[0] != ""
  }

  /** A cell read with Python's list indexing: out of range is an IndexError. */
  function At(rows: Rows, r: nat, c: nat): (s: Result<string>)
    ensures s.Ok? <==> r < |rows| && c < |rows[r]|
  {
    if r < |rows| && c < |rows[r]| then Ok(rows[r][c]) else Err(Malformed)
  }

  /** The maximal run of rows holding data that starts at start (_getSuccessiveDataRows). */
  function DataRows(rows: Rows, start: nat): (run: Rows)
    ensures start + |run| <= |rows| || run == []
    ensures forall i :: 0 <= i < |run| ==> run[i] == rows[start + i] && HasData(run[i])
    ensures start + |run| < |rows| ==> !HasData(rows[start + |run|])
    decreases |rows| - start
  {
    if start < |rows| && HasData(rows[start]) then [rows[start]] + DataRows(rows, start + 1) else []
  }

  /** A blank first cell n rows below start bounds the run read from start to n rows. */
  lemma RunBounded(g: Rows, start: nat, n: nat)
    requires Cell(g, start + n, 0) == ""
    ensures |DataRows(AllValues(g), start)| <= n
  {
    var run := DataRows(AllValues(g), start);
    if |run| > n {
      assert run[n] == AllValues(g)[start + n];
      AllValuesCell(g, start + n, 0);
    }
  }

  /** The run depends only on the rows it covers and the row that ends it. */
  lemma {:induction false} DataRowsAgree(a: Rows, b: Rows, start: nat, n: nat)
    requires start + n <= |a| && start + n <= |b|
    requires forall i :: start <= i < start + n ==> a[i] == b[i] && HasData(a[i])
    requires (start + n < |a| && !HasData(a[start + n])) || start + n == |a|
    requires (start + n < |b| && !HasData(b[start + n])) || start + n == |b|
    ensures DataRows(a, start) == DataRows(b, start)
    ensures |DataRows(a, start)| == n
    decreases n
  {
    if n > 0 {
      DataRowsAgree(a, b, start + 1, n - 1);
    }
  }

  /** A run of n rows holding data followed by the end or by a row without data is exactly
      what the scan collects. */
  lemma {:induction false} DataRowsExact(rows: Rows, start: nat, n: nat)
    requires start + n <= |rows|
    requires forall i :: start <= i < start + n ==> HasData(rows[i])
    requires start + n == |rows| || !HasData(rows[start + n])
    ensures DataRows(rows, start) == rows[start..start + n]
    decreases n
  {
    if n > 0 {
      DataRowsExact(rows, start + 1, n - 1);
      assert rows[start..start + n] == [rows[start]] + rows[start + 1..start + n];
    }
  }

  /** Every row a batch writes ends at or before column w. */
  predicate FitsWidth(us: seq<Update>, w: nat) {
    forall i, j :: 0 <= i < |us| && 0 <= j < |us[i].values| ==> us[i].left + |us[i].values[j]| <= w
  }

  /** Two batches that each stay within the same rows and columns still do when issued
      together. */
  lemma FramesAppend(us: seq<Update>, vs: seq<Update>, lo: nat, hi: nat, w: nat)
    ensures WithinRows(us, lo, hi) && WithinRows(vs, lo, hi) ==> WithinRows(us + vs, lo, hi)
    ensures FitsWidth(us, w) && FitsWidth(vs, w) ==> FitsWidth(us + vs, w)
  {
    assert forall i :: |us| <= i < |us + vs| ==> (us + vs)[i] == vs[i - |us|];
  }

  /** A write that fits within width w keeps every row within w, shortens no row and drops no
      row. */
  lemma ApplyWidth(g: Rows, u: Update, w: nat)
    requires forall r :: 0 <= r < |g| ==> |g[r]| <= w
    requires forall j :: 0 <= j < |u.values| ==> u.left + |u.values[j]| <= w
    ensures forall r :: 0 <= r < |Apply(g, u)| ==> |Apply(g, u)[r]| <= w
    ensures MaxWidth(Apply(g, u)) >= MaxWidth(g)
  {
    var h := Apply(g, u);
    forall r | 0 <= r < |h| ensures |h[r]| <= w {
      var was := if r < |g| then g[r] else [];
      if u.top <= r < u.top + |u.values| {
        assert h[r] == Overlay(was, u.left, u.values[r - u.top]);
      } else {
        assert h[r] == was;
      }
    }
    if |g| > 0 {
      var r :| 0 <= r < |g| && |g[r]| == MaxWidth(g);
      RowsApply(g, u, r);
    }
  }

  /** The same for a whole batch: when the grid already reaches width w, its width stays w. */
  lemma {:induction false} WidthApplyAll(g: Rows, us: seq<Update>, w: nat)
    requires forall r :: 0 <= r < |g| ==> |g[r]| <= w
    requires FitsWidth(us, w)
    ensures forall r :: 0 <= r < |ApplyAll(g, us)| ==> |ApplyAll(g, us)[r]| <= w
    ensures MaxWidth(ApplyAll(g, us)) >= MaxWidth(g)
    ensures MaxWidth(g) == w ==> MaxWidth(ApplyAll(g, us)) == w
    decreases |us|
  {
    if |us| > 0 {
      ApplyWidth(g, us[0], w);
      assert FitsWidth(us[1..], w) by {
        forall i, j | 0 <= i < |us[1..]| && 0 <= j < |us[1..][i].values|
          ensures us[1..][i].left + |us[1..][i].values[j]| <= w
        {
          assert us[1..][i] == us[i + 1];
        }
      }
      WidthApplyAll(Apply(g, us[0]), us[1..], w);
    }
    var h := ApplyAll(g, us);
    if |h| > 0 {
      var r :| 0 <= r < |h| && |h[r]| == MaxWidth(h);
    }
  }

  /** _getSuccessiveDataRows: collects rows from startIndex on while their first cell is not
      empty. */
  method GetSuccessiveDataRows(allRows: Rows, startIndex: nat) returns (dataRows: Rows)
    ensures dataRows == DataRows(allRows, startIndex)
  {
    dataRows := [];
    var i := startIndex;
    while i < |allRows| && HasData(allRows[i])
      invariant DataRows(allRows, startIndex) == dataRows + DataRows(allRows, i)
      decreases |allRows| - i
    {
      assert DataRows(allRows, i) == [allRows[i]] + DataRows(allRows, i + 1);
      assert dataRows + DataRows(allRows, i) == (dataRows + [allRows[i]]) + DataRows(allRows, i + 1);
      dataRows := dataRows + [allRows[i]];
      i := i + 1;
    }
  }

  /** The worksheet: the cells as last written, and (ghost) the log of every batch_update. */
  class Worksheet {
    var rows: Rows
    ghost var batches: seq<seq<Update>>

    constructor (initial: Rows)
      ensures rows == initial && batches == []
    {
      rows := initial;
      batches := [];
    }

    /** get_all_values. */
    function AllRows(): Rows
      reads this
    {
      AllValues(rows)
    }

    /** batch_update: applies the writes in order, as one call. */
    method BatchUpdate(updates: seq<Update>)
      modifies this
      ensures rows == ApplyAll(old(rows), updates)
      ensures batches == old(batches) + [updates]
    {
      rows := ApplyAll(rows, updates);
      batches := batches + [updates];
    }
  }
}
