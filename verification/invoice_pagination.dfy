/** The row loop of the invoice handler as a state machine over
    (number of pages, cursor height, running total): before each row the
    cursor is checked against the bottom reserve, a page break opens a new
    page and redraws the header band there, then the row is drawn and the
    cursor moves down one row height. */
module InvoicePagination {
  import opened Drawing
  import opened InvoiceGeometry

  datatype Cursor = Cursor(pages: nat, y: int, total: real)

  /** The layout produced so far: the cursor and the instructions drawn by the row loop. */
  datatype Layout = Layout(cursor: Cursor, ops: seq<DrawOp>)

  /** Which page a row is drawn on. The handler draws every row on the page
      it opened first (FirstPageRef); CurrentPageRef is the page most
      recently opened. */
  datatype PageRef = FirstPageRef | CurrentPageRef

  /** The header block and the first band take the cursor from the top of
      the page down to the first row. */
  const BandY: int := Top - 2000 - 3000 - 1500 - 4000
  const FirstRowY: int := BandY - 3000
  /** Where rows start on a page opened by a break. */
  const ContinuationRowY: int := Top - 3000

  predicate BreakNeeded(y: int) {
    y < Margin + ReservedSpace
  }

  /** The cursor after one iteration of the row loop. */
  function Advance(c: Cursor, item: LineItem): Cursor {
    if BreakNeeded(c.y) then Cursor(c.pages + 1, ContinuationRowY - RowHeight, c.total + item.totalPrice)
    else Cursor(c.pages, c.y - RowHeight, c.total + item.totalPrice)
  }

  /** The instructions one iteration of the row loop draws: the band on a
      new page when a break is needed, then the row. */
  function StepOps(c: Cursor, item: LineItem, ref: PageRef): seq<DrawOp> {
    var broke := BreakNeeded(c.y);
    var band := if broke then HeaderBand(c.pages, Top) else [];
    var y := if broke then ContinuationRowY else c.y;
    var page: nat := if ref == CurrentPageRef && broke then c.pages
                     else if ref == CurrentPageRef && c.pages > 0 then c.pages - 1
                     else 0;
    band + Row(page, item, y)
  }

  /** One iteration of the row loop. */
  function ItemStep(c: Cursor, item: LineItem, ref: PageRef): Layout {
    Layout(Advance(c, item), StepOps(c, item, ref))
  }

  function Start(): Cursor {
    Cursor(1, FirstRowY, 0.0)
  }

  /** The row loop run over `items`, in order. */
  function LayoutRows(items: seq<LineItem>, ref: PageRef): Layout {
    if items == [] then Layout(Start(), [])
    else
      var prev := LayoutRows(items[..|items| - 1], ref);
      var step := ItemStep(prev.cursor, items[|items| - 1], ref);
      Layout(step.cursor, prev.ops + step.ops)
  }

  /** One more iteration of the row loop. */
  lemma LayoutRowsStep(items: seq<LineItem>, i: nat, ref: PageRef)
    requires i < |items|
    ensures var prev := LayoutRows(items[..i], ref);
      LayoutRows(items[..i + 1], ref) ==
        Layout(Advance(prev.cursor, items[i]), prev.ops + StepOps(prev.cursor, items[i], ref))
  {
    assert items[..i + 1][..i] == items[..i];
  }

  /** The sum, in input order, of the supplied totals. */
  function SumOfTotals(items: seq<LineItem>): real {
    if items == [] then 0.0 else SumOfTotals(items[..|items| - 1]) + items[|items| - 1].totalPrice
  }

  /** Rows that fit on the first page and on each continuation page. */
  const FirstPageRows: nat := 26
  const ContinuationRows: nat := 31

  /** Pages open after `n` rows. */
  function PagesAfter(n: nat): nat {
    if n <= FirstPageRows then 1 else 2 + (n - FirstPageRows - 1) / ContinuationRows
  }

  /** The cursor after `n` rows. */
  function YAfter(n: nat): int {
    if n <= FirstPageRows then FirstRowY - RowHeight * n
    else ContinuationRowY - RowHeight * ((n - FirstPageRows - 1) % ContinuationRows + 1)
  }

  /** The cursor at which row `k` (from 0) is drawn. */
  function RowY(k: nat): int {
    if k < FirstPageRows then FirstRowY - RowHeight * k
    else ContinuationRowY - RowHeight * ((k - FirstPageRows) % ContinuationRows)
  }

  /** The page that row `k` would be drawn on if rows went to the page most recently opened. */
  function RowPage(k: nat): nat {
    if k < FirstPageRows then 0 else 1 + (k - FirstPageRows) / ContinuationRows
  }

  /** With the handler's constants the first row sits 135 pt below the top
      of the page, a break happens before row 27 and then before every 31st
      row after it. */
  lemma BreakSchedule(n: nat)
    ensures FirstRowY == PageHeight - Margin - 13500
    ensures BreakNeeded(YAfter(n)) <==> n >= FirstPageRows && (n - FirstPageRows) % ContinuationRows == 0
  {
    if n > FirstPageRows {
      var m := n - FirstPageRows;
      assert (m - 1) % 31 == 30 <==> m % 31 == 0;
    }
  }

  /** The row loop's cursor after any list of rows, in closed form, and the
      running total as the in-order sum of the supplied totals. */
  lemma {:induction false} CursorAfterRows(items: seq<LineItem>, ref: PageRef)
    ensures LayoutRows(items, ref).cursor == Cursor(PagesAfter(|items|), YAfter(|items|), SumOfTotals(items))
  {
    if items != [] {
      var n := |items| - 1;
      var prefix := items[..n];
      CursorAfterRows(prefix, ref);
      LayoutCursorStep(items, ref);
      AdvanceClosedForm(n, SumOfTotals(prefix), items[n]);
    }
  }

  /** The cursor after the last item advances the cursor left by the others. */
  lemma LayoutCursorStep(items: seq<LineItem>, ref: PageRef)
    requires items != []
    ensures LayoutRows(items, ref).cursor ==
            Advance(LayoutRows(items[..|items| - 1], ref).cursor, items[|items| - 1])
  {
  }

  /** One loop iteration moves the closed form from `n` rows to `n + 1`. */
  lemma AdvanceClosedForm(n: nat, total: real, item: LineItem)
    ensures Advance(Cursor(PagesAfter(n), YAfter(n), total), item) ==
            Cursor(PagesAfter(n + 1), YAfter(n + 1), total + item.totalPrice)
  {
    StepCounts(n);
  }

  /** The arithmetic of one step of the closed form. */
  lemma StepCounts(n: nat)
    ensures BreakNeeded(YAfter(n)) ==> PagesAfter(n + 1) == PagesAfter(n) + 1 && YAfter(n + 1) == ContinuationRowY - RowHeight
    ensures !BreakNeeded(YAfter(n)) ==> PagesAfter(n + 1) == PagesAfter(n) && YAfter(n + 1) == YAfter(n) - RowHeight
    ensures RowY(n) == if BreakNeeded(YAfter(n)) then ContinuationRowY else YAfter(n)
    ensures RowPage(n) == PagesAfter(n + 1) - 1
  {
    BreakSchedule(n);
    if n > FirstPageRows {
      var m := n - FirstPageRows;
      if m % 31 == 0 {
        assert (m - 1) / 31 == m / 31 - 1;
      } else {
        assert (m - 1) / 31 == m / 31;
        assert (m - 1) % 31 + 1 == m % 31;
      }
    }
  }

  /** Every row lowers the cursor by exactly one row height from where it
      was drawn, and the row's rule lies 10 pt above the new cursor. A break
      adds exactly one page, redraws the band at the top of that page and
      draws the row 30 pt below the top; otherwise the page count is kept. */
  lemma StepEffect(c: Cursor, item: LineItem, ref: PageRef)
    ensures var s := ItemStep(c, item, ref);
      var rowY := s.cursor.y + RowHeight;
      && (BreakNeeded(c.y) ==> s.cursor.pages == c.pages + 1 && rowY == Top - 3000 &&
                               s.ops[..6] == HeaderBand(c.pages, Top))
      && (!BreakNeeded(c.y) ==> s.cursor.pages == c.pages && rowY == c.y && |s.ops| == 5)
      && s.cursor.total == c.total + item.totalPrice
      && s.ops[|s.ops| - 1].shape.Line? && s.ops[|s.ops| - 1].shape.startY == s.cursor.y + 1000
      && forall i :: |s.ops| - 5 <= i < |s.ops| - 1 ==> s.ops[i].shape.Text? && s.ops[i].shape.y == rowY
  {
  }

  /** The concatenation of the rows, each drawn on `page(k)` at `RowY(k)`. */
  function RowsOn(items: seq<LineItem>, ref: PageRef): seq<DrawOp> {
    if items == [] then []
    else
      var n := |items| - 1;
      RowsOn(items[..n], ref) + Row(if ref == FirstPageRef then 0 else RowPage(n), items[n], RowY(n))
  }

  /** The band (when a break is needed) and the row one iteration draws
      when rows go to the first page. */
  function StepBand(c: Cursor): (band: seq<DrawOp>)
    ensures AllOn(band, c.pages)
  {
    if BreakNeeded(c.y) then HeaderBand(c.pages, Top) else []
  }

  lemma StepOpsFirstPage(c: Cursor, item: LineItem)
    ensures StepOps(c, item, FirstPageRef) ==
      StepBand(c) + Row(0, item, if BreakNeeded(c.y) then ContinuationRowY else c.y)
  {
  }

  /** Appending a band for page `pages` and a row for page 0 leaves the
      instructions of the pages between them unchanged. */
  lemma AppendKeepsMiddlePages(prev: seq<DrawOp>, band: seq<DrawOp>, row: seq<DrawOp>, pages: nat)
    requires AllOn(band, pages)
    requires AllOn(row, 0)
    ensures forall p: nat :: 1 <= p < pages ==> OpsOn(prev + (band + row), p) == OpsOn(prev, p)
  {
    forall p: nat | 1 <= p < pages
      ensures OpsOn(prev + (band + row), p) == OpsOn(prev, p)
    {
      OpsOnAppend(prev, band + row, p);
      OpsOnAppend(band, row, p);
      OpsOnNone(band, p);
      OpsOnNone(row, p);
    }
  }

  /** ... gives the new page exactly the band ... */
  lemma AppendFillsNewPage(prev: seq<DrawOp>, band: seq<DrawOp>, row: seq<DrawOp>, pages: nat)
    requires 1 <= pages
    requires PagesBelow(prev, pages)
    requires AllOn(band, pages)
    requires AllOn(row, 0)
    ensures OpsOn(prev + (band + row), pages) == band
  {
    OpsOnAppend(prev, band + row, pages);
    OpsOnAppend(band, row, pages);
    OpsOnNone(prev, pages);
    OpsOnAll(band, pages);
    OpsOnNone(row, pages);
  }

  /** ... and adds exactly the row to the first page. */
  lemma AppendExtendsFirstPage(prev: seq<DrawOp>, band: seq<DrawOp>, row: seq<DrawOp>, pages: nat)
    requires 1 <= pages
    requires AllOn(band, pages)
    requires AllOn(row, 0)
    ensures OpsOn(prev + (band + row), 0) == OpsOn(prev, 0) + row
  {
    OpsOnAppend(prev, band + row, 0);
    OpsOnAppend(band, row, 0);
    OpsOnNone(band, 0);
    OpsOnAll(row, 0);
  }

  /** The instructions one iteration draws, split into the band and the row,
      when rows go to the first page. */
  lemma StepOfRows(items: seq<LineItem>)
    requires items != []
    ensures var n := |items| - 1;
      var prev := LayoutRows(items[..n], FirstPageRef);
      var l := LayoutRows(items, FirstPageRef);
      && l.ops == prev.ops + (StepBand(prev.cursor) + Row(0, items[n], RowY(n)))
      && l.cursor == Advance(prev.cursor, items[n])
      && prev.cursor == Cursor(PagesAfter(n), YAfter(n), SumOfTotals(items[..n]))
  {
    var n := |items| - 1;
    var prev := LayoutRows(items[..n], FirstPageRef);
    var c := prev.cursor;
    assert LayoutRows(items, FirstPageRef) == Layout(Advance(c, items[n]), prev.ops + StepOps(c, items[n], FirstPageRef));
    CursorAfterRows(items[..n], FirstPageRef);
    StepCounts(n);
    var y := if BreakNeeded(c.y) then ContinuationRowY else c.y;
    assert RowY(n) == y;
    StepOpsFirstPage(c, items[n]);
  }

  /** Every instruction of the row loop targets a page that exists. */
  lemma {:induction false} RowsStayOnPages(items: seq<LineItem>)
    ensures var l := LayoutRows(items, FirstPageRef);
      1 <= l.cursor.pages && PagesBelow(l.ops, l.cursor.pages)
  {
    if items != [] {
      var n := |items| - 1;
      RowsStayOnPages(items[..n]);
      StepOfRows(items);
      var prev := LayoutRows(items[..n], FirstPageRef);
      var c := prev.cursor;
      var band := StepBand(c);
      var row := Row(0, items[n], RowY(n));
      PagesBelowGrow(prev.ops, c.pages, c.pages + 1);
      AllOnBelow(band, c.pages, c.pages + 1);
      AllOnBelow(row, 0, c.pages + 1);
      PagesBelowAppend(band, row, c.pages + 1);
      PagesBelowAppend(prev.ops, band + row, c.pages + 1);
    }
  }

  /** Each page opened by a break receives exactly one header band at its
      top and nothing else. */
  lemma {:induction false} ContinuationPagesHoldBands(items: seq<LineItem>)
    ensures var l := LayoutRows(items, FirstPageRef);
      forall p: nat :: 1 <= p < l.cursor.pages ==> OpsOn(l.ops, p) == HeaderBand(p, Top)
  {
    if items != [] {
      var n := |items| - 1;
      ContinuationPagesHoldBands(items[..n]);
      RowsStayOnPages(items[..n]);
      StepOfRows(items);
      var prev := LayoutRows(items[..n], FirstPageRef);
      var c := prev.cursor;
      var band := StepBand(c);
      var row := Row(0, items[n], RowY(n));
      var l := LayoutRows(items, FirstPageRef);
      AppendKeepsMiddlePages(prev.ops, band, row, c.pages);
      AppendFillsNewPage(prev.ops, band, row, c.pages);
      forall p: nat | 1 <= p < l.cursor.pages
        ensures OpsOn(l.ops, p) == HeaderBand(p, Top)
      {
        if p == c.pages {
          assert BreakNeeded(c.y) && band == HeaderBand(p, Top);
        }
      }
    }
  }

  /** The first page receives every row, at the cursor heights of the closed form. */
  lemma {:induction false} FirstPageHoldsRows(items: seq<LineItem>)
    ensures OpsOn(LayoutRows(items, FirstPageRef).ops, 0) == RowsOn(items, FirstPageRef)
  {
    if items != [] {
      var n := |items| - 1;
      FirstPageHoldsRows(items[..n]);
      RowsStayOnPages(items[..n]);
      StepOfRows(items);
      var prev := LayoutRows(items[..n], FirstPageRef);
      AppendExtendsFirstPage(prev.ops, StepBand(prev.cursor), Row(0, items[n], RowY(n)), prev.cursor.pages);
    }
  }

  /** As the handler draws: every instruction of the row loop targets an
      existing page; each page opened by a break receives exactly one header
      band at its top and nothing else; and the first page receives every
      row, at the cursor heights of the closed form. */
  lemma FirstPageKeepsRows(items: seq<LineItem>)
    ensures var l := LayoutRows(items, FirstPageRef);
      && 1 <= l.cursor.pages && PagesBelow(l.ops, l.cursor.pages)
      && (forall p: nat :: 1 <= p < l.cursor.pages ==> OpsOn(l.ops, p) == HeaderBand(p, Top))
      && OpsOn(l.ops, 0) == RowsOn(items, FirstPageRef)
  {
    RowsStayOnPages(items);
    ContinuationPagesHoldBands(items);
    FirstPageHoldsRows(items);
  }

  /** The highest cursor a row may be drawn at on `page`: just below the
      band that heads that page. */
  function RowTop(page: nat): int {
    if page == 0 then FirstRowY else ContinuationRowY
  }

  /** An instruction is in its place when it belongs to the band heading a
      page opened by a break, or reaches no higher than the first row slot
      of its page. */
  predicate Placed(op: DrawOp) {
    (op.page >= 1 && op in HeaderBand(op.page, Top)) || TopY(op.shape) <= RowTop(op.page)
  }

  predicate AllPlaced(ops: seq<DrawOp>) {
    forall i :: 0 <= i < |ops| ==> Placed(ops[i])
  }

  lemma AllPlacedAppend(a: seq<DrawOp>, b: seq<DrawOp>)
    requires AllPlaced(a) && AllPlaced(b)
    ensures AllPlaced(a + b)
  {
  }

  /** A row drawn no higher than its page's first row slot is in its place. */
  lemma RowPlaced(page: nat, item: LineItem, y: int)
    requires y <= RowTop(page)
    ensures AllPlaced(Row(page, item, y))
  {
  }

  /** A band on a page opened by a break is in its place. */
  lemma BandPlaced(page: nat)
    requires page >= 1
    ensures AllPlaced(HeaderBand(page, Top))
  {
    var band := HeaderBand(page, Top);
    forall i | 0 <= i < |band|
      ensures Placed(band[i])
    {
      assert band[i] in band;
    }
  }

  /** The cursor never rises above the first row slot of the newest page. */
  lemma CursorBelowRowTop(n: nat)
    ensures 1 <= PagesAfter(n) && YAfter(n) <= RowTop(PagesAfter(n) - 1)
  {
  }

  /** As the handler draws, the 27th row (index 26) goes to the first page
      at the top row slot of a continuation page: 30 pt below the top
      margin, on the baseline of the company contact line, far above the
      first page's band. */
  lemma {:induction false} StaleRowAboveBand(items: seq<LineItem>)
    requires |items| >= FirstPageRows + 1
    ensures var before := LayoutRows(items[..FirstPageRows], FirstPageRef).ops;
      var row := DrawOp(0, Text(Plain(items[FirstPageRows].partNo), ColPositions[0] + CellInset, Top - 3000, 10, Helvetica, Black));
      && |before| + 6 < |LayoutRows(items, FirstPageRef).ops|
      && LayoutRows(items, FirstPageRef).ops[|before| + 6] == row
      && !Placed(row)
      && Top - 3000 == HeaderBlockContactY && Top - 3000 > BandY + 500
  {
    var k := FirstPageRows;
    LayoutRowsPrefix(items, k + 1, FirstPageRef);
    LayoutRowsStep(items, k, FirstPageRef);
    var prev := LayoutRows(items[..k], FirstPageRef);
    CursorAfterRows(items[..k], FirstPageRef);
    BreakSchedule(k);
    var step := StepOps(prev.cursor, items[k], FirstPageRef);
    assert step == HeaderBand(prev.cursor.pages, Top) + Row(0, items[k], ContinuationRowY);
    var l := LayoutRows(items[..k + 1], FirstPageRef);
    assert l.ops[|prev.ops| + 6] == step[6];
  }

  /** One iteration that draws its row on the newest page, from a cursor
      no higher than that page's first row slot, draws in place and on
      existing pages. */
  lemma CorrectedStepPlaced(c: Cursor, item: LineItem)
    requires 1 <= c.pages && c.y <= RowTop(c.pages - 1)
    ensures var s := ItemStep(c, item, CurrentPageRef);
      c.pages <= s.cursor.pages && PagesBelow(s.ops, s.cursor.pages) && AllPlaced(s.ops)
  {
    var broke := BreakNeeded(c.y);
    var band := if broke then HeaderBand(c.pages, Top) else [];
    var page: nat := if broke then c.pages else c.pages - 1;
    var y := if broke then ContinuationRowY else c.y;
    var row := Row(page, item, y);
    var n := if broke then c.pages + 1 else c.pages;
    assert StepOps(c, item, CurrentPageRef) == band + row;
    if broke {
      BandPlaced(c.pages);
      AllOnBelow(band, c.pages, n);
    }
    RowPlaced(page, item, y);
    AllOnBelow(row, page, n);
    PagesBelowAppend(band, row, n);
    AllPlacedAppend(band, row);
  }

  /** A row loop that draws each row on the page it has just opened puts
      every instruction on an existing page and in its place: rows never
      rise into a band, on any page. */
  lemma {:induction false} CorrectedRowsPlaced(items: seq<LineItem>)
    ensures var l := LayoutRows(items, CurrentPageRef);
      PagesBelow(l.ops, l.cursor.pages) && AllPlaced(l.ops)
  {
    if items != [] {
      var n := |items| - 1;
      CorrectedRowsPlaced(items[..n]);
      LayoutRowsStep(items, n, CurrentPageRef);
      assert items[..n + 1] == items;
      var prev := LayoutRows(items[..n], CurrentPageRef);
      var c := prev.cursor;
      CursorAfterRows(items[..n], CurrentPageRef);
      CursorBelowRowTop(n);
      CorrectedStepPlaced(c, items[n]);
      var s := ItemStep(c, items[n], CurrentPageRef);
      PagesBelowGrow(prev.ops, c.pages, s.cursor.pages);
      PagesBelowAppend(prev.ops, s.ops, s.cursor.pages);
      AllPlacedAppend(prev.ops, s.ops);
    }
  }

  /** The instructions of a shorter run of the row loop are a prefix of a
      longer run's. */
  lemma {:induction false} LayoutRowsPrefix(items: seq<LineItem>, k: nat, ref: PageRef)
    requires k <= |items|
    ensures LayoutRows(items[..k], ref).ops <= LayoutRows(items, ref).ops
    decreases |items| - k
  {
    if k < |items| {
      LayoutRowsPrefix(items, k + 1, ref);
      LayoutRowsStep(items, k, ref);
    } else {
      assert items[..k] == items;
    }
  }
}
