/** The shape both encoders share: a list of rows laid out from a fixed row on, followed by
    blank rows up to a fixed capacity, because a sheet cannot delete rows and a shorter list
    must overwrite what a longer one left behind (app/sheet.py:231-251, 277-295). */
module Regions {
  import opened Grid
  import opened Seqs

  function BlankRow(w: nat): (row: Row)
    ensures |row| == w && forall c :: 0 <= c < w ==> row[c] == ""
  {
    seq(w, _ => "")
  }

  /** k blank rows of width w, none when k is not positive (Python's range of a negative
      count is empty). */
  function Blanks(k: int, w: nat): (b: seq<Row>)
    ensures |b| == if k > 0 then k else 0
    ensures forall i :: 0 <= i < |b| ==> b[i] == BlankRow(w)
  {
    seq(if k > 0 then k else 0, _ => BlankRow(w))
  }

  /** Every row of the list has exactly w cells. */
  predicate Shaped(items: seq<Row>, w: nat) {
    forall i :: 0 <= i < |items| ==> |items[i]| == w
  }

  /** The two writes: the rows from row top on (a single empty cell when there are none),
      then blank rows of width w from the row after the last item up to row top + cap - 1. */
  function ListWrites(top: nat, items: seq<Row>, w: nat, cap: nat): seq<Update> {
    [ if |items| > 0 then Update(top, 0, items) else Update(top, 0, [[""]]),
      Update(top + |items|, 0, Blanks(cap - |items|, w)) ]
  }

  lemma ApplyTwo(g: Rows, u0: Update, u1: Update)
    ensures ApplyAll(g, [u0, u1]) == Apply(Apply(g, u0), u1)
  {
    assert [u0, u1][1..] == [u1];
    assert [u1][1..] == [];
    assert ApplyAll(g, [u0, u1]) == ApplyAll(Apply(g, u0), [u1]);
    assert ApplyAll(Apply(g, u0), [u1]) == ApplyAll(Apply(Apply(g, u0), u1), []);
  }

  /** The list writes stay within rows top .. top + cap - 1 and columns 0 .. w - 1, and
      the grid afterwards reaches at least row top + cap - 1. */
  lemma ListWritesFrame(g: Rows, top: nat, items: seq<Row>, w: nat, cap: nat)
    requires Shaped(items, w) && 1 <= w && |items| <= cap && 1 <= cap
    ensures WithinRows(ListWrites(top, items, w, cap), top, top + cap)
    ensures FitsWidth(ListWrites(top, items, w, cap), w)
    ensures |ApplyAll(g, ListWrites(top, items, w, cap))| >= top + cap
  {
    var us := ListWrites(top, items, w, cap);
    ApplyTwo(g, us[0], us[1]);
  }

  /** After the list writes, each item's cells are in place, the rest of the capacity is blank,
      and every other cell is as it was. */
  lemma ListWritesCell(g: Rows, top: nat, items: seq<Row>, w: nat, cap: nat, r: nat, c: nat)
    requires Shaped(items, w) && 1 <= w && |items| <= cap && 1 <= cap
    ensures Cell(ApplyAll(g, ListWrites(top, items, w, cap)), r, c) ==
      if top <= r < top + |items| && c < w then items[r - top][c]
      else if top + |items| <= r < top + cap && c < w then ""
      else Cell(g, r, c)
  {
    var us := ListWrites(top, items, w, cap);
    ApplyTwo(g, us[0], us[1]);
    CellApply(g, us[0], r, c);
    CellApply(Apply(g, us[0]), us[1], r, c);
  }

  /** What the list writes leave behind, stated of the grid h itself: each item's cells in
      place, the rest of the capacity blank, every other cell as in g, and the grid reaching
      the end of the capacity with the first row at least w cells wide. */
  ghost predicate ListWritten(g: Rows, h: Rows, top: nat, items: seq<Row>, w: nat, cap: nat)
    requires Shaped(items, w)
  {
    && top + cap <= |h| && top < |h| && |h[top]| >= w
    && forall r: nat, c: nat :: Cell(h, r, c) ==
         if top <= r < top + |items| && c < w then items[r - top][c]
         else if top + |items| <= r < top + cap && c < w then ""
         else Cell(g, r, c)
  }

  /** The list writes leave exactly that behind. */
  lemma ListWritesWritten(g: Rows, top: nat, items: seq<Row>, w: nat, cap: nat)
    requires Shaped(items, w) && 1 <= w && |items| <= cap && 1 <= cap
    ensures ListWritten(g, ApplyAll(g, ListWrites(top, items, w, cap)), top, items, w, cap)
  {
    ListWritesFrame(g, top, items, w, cap);
    RowsApplyAllReach(g, top, items, w, cap);
    forall r: nat, c: nat {
      ListWritesCell(g, top, items, w, cap, r, c);
    }
  }

  /** What a list region holds, stated of the grid alone so that it survives writes
      elsewhere: rows top .. top + cap - 1 hold the items in columns 0 .. w - 1 and blanks
      after them, the row after the capacity is blank in its first column, and the grid
      reaches that far with the first row at least w cells wide. */
  ghost predicate ListHeld(h: Rows, top: nat, items: seq<Row>, w: nat, cap: nat)
    requires Shaped(items, w)
  {
    && top + cap <= |h| && top < |h| && |h[top]| >= w
    && Cell(h, top + cap, 0) == ""
    && forall r: nat, c: nat :: top <= r < top + cap && c < w ==>
         Cell(h, r, c) == if r < top + |items| then items[r - top][c] else ""
  }

  /** The list writes leave the region holding the list, when the row after the capacity was
      blank. */
  lemma WrittenHeld(g: Rows, h: Rows, top: nat, items: seq<Row>, w: nat, cap: nat)
    requires Shaped(items, w) && |items| <= cap && ListWritten(g, h, top, items, w, cap)
    requires Cell(g, top + cap, 0) == ""
    ensures ListHeld(h, top, items, w, cap)
  {
    assert Cell(h, top + cap, 0) == Cell(g, top + cap, 0);
  }

  /** The list writes at row top leave the region holding the list. */
  lemma ListWritesHeld(g: Rows, top: nat, items: seq<Row>, w: nat, cap: nat)
    requires Shaped(items, w) && 1 <= w && |items| <= cap && 1 <= cap
    requires Cell(g, top + cap, 0) == ""
    ensures ListHeld(ApplyAll(g, ListWrites(top, items, w, cap)), top, items, w, cap)
  {
    ListWritesWritten(g, top, items, w, cap);
    WrittenHeld(g, ApplyAll(g, ListWrites(top, items, w, cap)), top, items, w, cap);
  }

  /** A batch confined to rows that miss the region and the row after it leaves the region
      holding the same list. */
  lemma HeldApplyOutside(h: Rows, us: seq<Update>, lo: nat, hi: nat, top: nat, items: seq<Row>, w: nat, cap: nat)
    requires Shaped(items, w) && ListHeld(h, top, items, w, cap)
    requires WithinRows(us, lo, hi) && (top + cap < lo || hi <= top)
    ensures ListHeld(ApplyAll(h, us), top, items, w, cap)
  {
    var h' := ApplyAll(h, us);
    ApplyAllOutside(h, us, lo, hi, top);
    ApplyAllOutside(h, us, lo, hi, top + cap);
    forall r: nat, c: nat | top <= r < top + cap && c < w ensures Cell(h', r, c) == Cell(h, r, c) {
      ApplyAllOutside(h, us, lo, hi, r);
    }
  }

  /** In the padded grid each item's cells show in its row. */
  lemma HeldCells(h: Rows, top: nat, items: seq<Row>, w: nat, cap: nat)
    requires Shaped(items, w) && 1 <= w && |items| <= cap && ListHeld(h, top, items, w, cap)
    ensures MaxWidth(h) >= w
    ensures forall i, c :: 0 <= i < |items| && 0 <= c < w ==> AllValues(h)[top + i][c] == items[i][c]
  {
    assert |h[top]| >= w;
    forall i, c | 0 <= i < |items| && 0 <= c < w ensures AllValues(h)[top + i][c] == items[i][c] {
      assert Cell(h, top + i, c) == items[i][c];
      AllValuesCell(h, top + i, c);
    }
  }

  /** In the padded grid the row after the last item holds no data. */
  lemma HeldEnd(h: Rows, top: nat, items: seq<Row>, w: nat, cap: nat)
    requires Shaped(items, w) && 1 <= w && |items| <= cap && ListHeld(h, top, items, w, cap)
    ensures top + |items| < |h| ==> !HasData(AllValues(h)[top + |items|])
  {
    if top + |items| < |h| {
      assert Cell(h, top + |items|, 0) == "";
      assert |h[top]| >= w;
      AllValuesCell(h, top + |items|, 0);
    }
  }

  /** Reading the list back: when every item starts with a non-empty cell, the scan from row
      top (in the padded grid) finds exactly one row per item, each beginning with the item's
      cells. */
  lemma HeldRead(h: Rows, top: nat, items: seq<Row>, w: nat, cap: nat)
    requires Shaped(items, w) && 1 <= w && |items| <= cap && ListHeld(h, top, items, w, cap)
    requires forall i :: 0 <= i < |items| ==> items[i][0] != ""
    ensures MaxWidth(h) >= w
    ensures |DataRows(AllValues(h), top)| == |items|
    ensures forall i :: 0 <= i < |items| ==>
      |DataRows(AllValues(h), top)[i]| >= w && DataRows(AllValues(h), top)[i][..w] == items[i]
  {
    var a := AllValues(h);
    var n := |items|;
    HeldCells(h, top, items, w, cap);
    HeldEnd(h, top, items, w, cap);
    forall i | top <= i < top + n ensures HasData(a[i]) {
      assert a[i][0] == items[i - top][0];
    }
    DataRowsExact(a, top, n);
    forall i | 0 <= i < n ensures |a[top..top + n][i]| >= w && a[top..top + n][i][..w] == items[i] {
      assert a[top..top + n][i] == a[top + i];
      PrefixAgrees(a[top + i], items[i]);
    }
  }

  /** The row where the blank rows begin (or the last item's row) is at least w cells long. */
  lemma RowsApplyAllReach(g: Rows, top: nat, items: seq<Row>, w: nat, cap: nat)
    requires Shaped(items, w) && 1 <= w && |items| <= cap && 1 <= cap
    ensures var h := ApplyAll(g, ListWrites(top, items, w, cap));
      top < |h| && |h[top]| >= w
  {
    var us := ListWrites(top, items, w, cap);
    ApplyTwo(g, us[0], us[1]);
    var h1 := Apply(g, us[0]);
    RowsApply(g, us[0], top);
    RowsApply(h1, us[1], top);
    if |items| == 0 {
      assert us[1].values[0] == BlankRow(w);
    }
  }

  /** Each row of the run begins with the cells its item encodes to, one row per item. Stated
      recursively so that a proof sees one row at a time. */
  predicate Shows<T>(run: seq<Row>, items: seq<T>, enc: T -> Row)
    decreases |items|
  {
    && |run| == |items|
    && (|items| > 0 ==>
         && |run[0]| >= |enc(items[0])| && run[0][..|enc(items[0])|] == enc(items[0])
         && Shows(run[1..], items[1..], enc))
  }

  /** A run that shows the items has each row beginning with its item's cells. */
  lemma {:induction false} ShowsEach<T>(run: seq<Row>, items: seq<T>, enc: T -> Row)
    requires Shows(run, items, enc)
    ensures |run| == |items|
    ensures forall i :: 0 <= i < |items| ==> |run[i]| >= |enc(items[i])| && run[i][..|enc(items[i])|] == enc(items[i])
    decreases |items|
  {
    if |items| > 0 {
      ShowsEach(run[1..], items[1..], enc);
      assert forall i :: 1 <= i < |items| ==> run[1..][i - 1] == run[i] && items[1..][i - 1] == items[i];
    }
  }

  /** Conversely, rows that each begin with their item's cells show the items. */
  lemma {:induction false} EachShows<T>(run: seq<Row>, items: seq<T>, enc: T -> Row)
    requires |run| == |items|
    requires forall i :: 0 <= i < |items| ==> |run[i]| >= |enc(items[i])| && run[i][..|enc(items[i])|] == enc(items[i])
    ensures Shows(run, items, enc)
    decreases |items|
  {
    if |items| > 0 {
      assert forall i :: 1 <= i < |items| ==> run[1..][i - 1] == run[i] && items[1..][i - 1] == items[i];
      EachShows(run[1..], items[1..], enc);
    }
  }

  /** A region holding the rows the records encode shows the records in the padded grid,
      when every row starts with a non-empty cell. */
  lemma HeldShows<T>(h: Rows, top: nat, ts: seq<T>, enc: T -> Row, items: seq<Row>, w: nat, cap: nat)
    requires |items| == |ts| && forall i :: 0 <= i < |ts| ==> items[i] == enc(ts[i])
    requires Shaped(items, w) && 1 <= w && |items| <= cap && ListHeld(h, top, items, w, cap)
    requires forall i :: 0 <= i < |items| ==> items[i][0] != ""
    ensures MaxWidth(h) >= w
    ensures Shows(DataRows(AllValues(h), top), ts, enc)
  {
    HeldRead(h, top, items, w, cap);
    EachShows(DataRows(AllValues(h), top), ts, enc);
  }
}
