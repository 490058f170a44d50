/** The POST handler of the invoice route: checks the request's `items`,
    draws the invoice into a fresh document and returns it. The document is
    handed to the PDF serializer, which is not modelled. */
module InvoiceRoute {
  import opened Drawing
  import opened InvoiceGeometry
  import opened InvoicePagination
  import InvoiceNumber

  /** The `items` field of the request body: absent (or any falsy value),
      present but not an array, or an array of line items. */
  datatype ItemsField = Missing | NotAnArray | Items(items: seq<LineItem>)

  /** What the handler produces: the 400 error, or the pages and instructions
      of the document it serializes. */
  datatype Outcome = Rejected(status: int, error: string) | Rendered(pages: seq<PageSize>, ops: seq<DrawOp>)

  /** The reply of the imperative handler. */
  datatype Response = JsonError(status: int, error: string) | PdfBody(doc: PdfDocument)

  const NoItems: string := "No items provided"

  predicate Accepted(field: ItemsField) {
    field.Items? && |field.items| > 0
  }

  function A4Pages(n: nat): (pages: seq<PageSize>)
    ensures |pages| == n && forall i :: 0 <= i < n ==> pages[i] == A4
  {
    seq(n, _ => A4)
  }

  /** Everything drawn before the row loop: the header block and the first band. */
  function Preamble(invoiceNumber: string, dateText: string): (pre: seq<DrawOp>)
    ensures |pre| == 13 && AllOn(pre, 0)
  {
    AllOnAppend(HeaderBlock(0, invoiceNumber, dateText), HeaderBand(0, BandY), 0);
    HeaderBlock(0, invoiceNumber, dateText) + HeaderBand(0, BandY)
  }

  /** The preamble, the row loop's instructions, the totals at the loop's
      final cursor and the footer, in drawing order. */
  function Assemble(preamble: seq<DrawOp>, rows: Layout): seq<DrawOp> {
    preamble + rows.ops + Totals(0, rows.cursor.total, rows.cursor.y) + Footer(0)
  }

  /** The instructions of the whole invoice, in drawing order. */
  function DocumentOps(items: seq<LineItem>, invoiceNumber: string, dateText: string): seq<DrawOp> {
    Assemble(Preamble(invoiceNumber, dateText), LayoutRows(items, FirstPageRef))
  }

  /** The last five instructions are the totals and the footer. */
  lemma AssembleEnds(preamble: seq<DrawOp>, rows: Layout)
    ensures var ops := Assemble(preamble, rows);
      |ops| >= 5 && ops[|ops| - 5..] == Totals(0, rows.cursor.total, rows.cursor.y) + Footer(0)
  {
  }

  /** Framing the row loop's instructions with the first-page preamble,
      totals and footer keeps every instruction on an existing page... */
  lemma AssembleStaysOnPages(preamble: seq<DrawOp>, rows: Layout)
    requires AllOn(preamble, 0) && 1 <= rows.cursor.pages && PagesBelow(rows.ops, rows.cursor.pages)
    ensures PagesBelow(Assemble(preamble, rows), rows.cursor.pages)
  {
    var n := rows.cursor.pages;
    var totals := Totals(0, rows.cursor.total, rows.cursor.y);
    AllOnBelow(preamble, 0, n);
    AllOnBelow(totals, 0, n);
    AllOnBelow(Footer(0), 0, n);
    PagesBelowAppend(preamble, rows.ops, n);
    PagesBelowAppend(preamble + rows.ops, totals, n);
    PagesBelowAppend(preamble + rows.ops + totals, Footer(0), n);
  }

  /** ... leaves the other pages as the row loop left them ... */
  lemma AssembleOtherPage(preamble: seq<DrawOp>, rows: Layout, p: nat)
    requires AllOn(preamble, 0) && p != 0
    ensures OpsOn(Assemble(preamble, rows), p) == OpsOn(rows.ops, p)
  {
    var totals := Totals(0, rows.cursor.total, rows.cursor.y);
    OpsOnAppend(preamble + rows.ops + totals, Footer(0), p);
    OpsOnAppend(preamble + rows.ops, totals, p);
    OpsOnAppend(preamble, rows.ops, p);
    OpsOnNone(preamble, p);
    OpsOnNone(totals, p);
    OpsOnNone(Footer(0), p);
  }

  /** ... and puts the preamble before, and the totals and footer after, the
      first page's rows. */
  lemma AssembleFirstPage(preamble: seq<DrawOp>, rows: Layout)
    requires AllOn(preamble, 0)
    ensures OpsOn(Assemble(preamble, rows), 0) ==
            preamble + OpsOn(rows.ops, 0) + Totals(0, rows.cursor.total, rows.cursor.y) + Footer(0)
  {
    var totals := Totals(0, rows.cursor.total, rows.cursor.y);
    OpsOnAppend(preamble + rows.ops + totals, Footer(0), 0);
    OpsOnAppend(preamble + rows.ops, totals, 0);
    OpsOnAppend(preamble, rows.ops, 0);
    OpsOnAll(preamble, 0);
    OpsOnAll(totals, 0);
    OpsOnAll(Footer(0), 0);
  }

  /** The grand total is printed bold in the Total column, 30 pt below the
      cursor the row loop stopped at, third from last. */
  lemma AssembleShowsTotal(preamble: seq<DrawOp>, rows: Layout)
    ensures var ops := Assemble(preamble, rows);
      |ops| >= 5 &&
      ops[|ops| - 3] == DrawOp(0, Text(Fixed2(rows.cursor.total), ColPositions[3] + CellInset, rows.cursor.y - 3000, 12, HelveticaBold, Black))
  {
    var ops := Assemble(preamble, rows);
    AssembleEnds(preamble, rows);
    assert ops[|ops| - 3] == ops[|ops| - 5..][2];
  }

  /** The handler's result for a request, a clock reading (`today` and its
      locale date text) and a random number in [0, 1). */
  function Render(field: ItemsField, today: InvoiceNumber.Date, rand: real, dateText: string): Outcome
    requires InvoiceNumber.ValidDate(today) && 0.0 <= rand < 1.0
  {
    if !Accepted(field) then Rejected(400, NoItems)
    else
      var number := InvoiceNumber.Format(today, InvoiceNumber.Suffix(rand));
      var rows := LayoutRows(field.items, FirstPageRef);
      Rendered(A4Pages(rows.cursor.pages), DocumentOps(field.items, number, dateText))
  }

  /** A missing, non-array or empty `items` yields the 400 error and no
      document; anything else yields a document. */
  lemma InputCheck(field: ItemsField, today: InvoiceNumber.Date, rand: real, dateText: string)
    requires InvoiceNumber.ValidDate(today) && 0.0 <= rand < 1.0
    ensures Render(field, today, rand, dateText).Rejected? <==>
      field.Missing? || field.NotAnArray? || (field.Items? && field.items == [])
    ensures Render(field, today, rand, dateText).Rejected? ==>
      Render(field, today, rand, dateText) == Rejected(400, NoItems)
  {
  }

  /** The page-by-page content of an invoice: every instruction targets one
      of the PagesAfter(n) pages; every page after the first holds one
      header band at its top and nothing else; the first page holds the
      header block, the first band, every row, the totals and the footer. */
  lemma DocumentByPage(items: seq<LineItem>, invoiceNumber: string, dateText: string)
    ensures var ops := DocumentOps(items, invoiceNumber, dateText);
      && PagesBelow(ops, PagesAfter(|items|))
      && (forall p: nat :: 1 <= p < PagesAfter(|items|) ==> OpsOn(ops, p) == HeaderBand(p, Top))
      && OpsOn(ops, 0) == Preamble(invoiceNumber, dateText) + RowsOn(items, FirstPageRef)
                          + Totals(0, SumOfTotals(items), YAfter(|items|)) + Footer(0)
  {
    var pre := Preamble(invoiceNumber, dateText);
    var rows := LayoutRows(items, FirstPageRef);
    CursorAfterRows(items, FirstPageRef);
    FirstPageKeepsRows(items);
    AssembleStaysOnPages(pre, rows);
    forall p: nat | 1 <= p < PagesAfter(|items|)
      ensures OpsOn(Assemble(pre, rows), p) == HeaderBand(p, Top)
    {
      AssembleOtherPage(pre, rows, p);
    }
    AssembleFirstPage(pre, rows);
  }

  /** The printed grand total is the in-order sum of the supplied totals. */
  lemma GrandTotalPrinted(items: seq<LineItem>, invoiceNumber: string, dateText: string)
    ensures var ops := DocumentOps(items, invoiceNumber, dateText);
      |ops| >= 5 &&
      ops[|ops| - 3] == DrawOp(0, Text(Fixed2(SumOfTotals(items)), ColPositions[3] + CellInset, YAfter(|items|) - 3000, 12, HelveticaBold, Black))
  {
    CursorAfterRows(items, FirstPageRef);
    AssembleShowsTotal(Preamble(invoiceNumber, dateText), LayoutRows(items, FirstPageRef));
  }

  /** The grand total depends on the supplied totals alone: lists that agree
      on every `totalPrice` print the same total whatever their quantities
      and unit prices. */
  lemma {:induction false} TotalIgnoresQtyAndUnitPrice(a: seq<LineItem>, b: seq<LineItem>)
    requires |a| == |b|
    requires forall i :: 0 <= i < |a| ==> a[i].totalPrice == b[i].totalPrice
    ensures SumOfTotals(a) == SumOfTotals(b)
  {
    if a != [] {
      TotalIgnoresQtyAndUnitPrice(a[..|a| - 1], b[..|b| - 1]);
    }
  }

  /** The footer is the last thing drawn, on the first page, at a fixed
      height above the bottom margin whatever the items. */
  lemma FooterFixed(a: seq<LineItem>, b: seq<LineItem>, invoiceNumber: string, dateText: string)
    ensures var opsA := DocumentOps(a, invoiceNumber, dateText);
      var opsB := DocumentOps(b, invoiceNumber, dateText);
      && opsA[|opsA| - 2..] == opsB[|opsB| - 2..] == Footer(0)
      && Footer(0)[0].shape.y == Margin + 5000 && Footer(0)[1].shape.y == Margin + 3500
  {
    var pre := Preamble(invoiceNumber, dateText);
    var rowsA := LayoutRows(a, FirstPageRef);
    var rowsB := LayoutRows(b, FirstPageRef);
    AssembleEnds(pre, rowsA);
    AssembleEnds(pre, rowsB);
    var opsA := Assemble(pre, rowsA);
    var opsB := Assemble(pre, rowsB);
    assert opsA[|opsA| - 2..] == opsA[|opsA| - 5..][3..];
    assert opsB[|opsB| - 2..] == opsB[|opsB| - 5..][3..];
  }

  /** Draws the brand, the invoice number, the date and the company block;
      returns the cursor left below the date. */
  method DrawHeaderBlock(doc: PdfDocument, page: nat, invoiceNumber: string, dateText: string) returns (currentY: int)
    requires doc.Valid() && page < |doc.pages|
    modifies doc
    ensures doc.Valid()
    ensures doc.pages == old(doc.pages) && doc.ops == old(doc.ops) + HeaderBlock(page, invoiceNumber, dateText)
    ensures currentY == Top - 6500
  {
    currentY := PageHeight - Margin;
    doc.Draw(page, Text(Plain(BrandTitle), Margin, currentY, 24, HelveticaBold, Brand));
    currentY := currentY - 2000;
    doc.Draw(page, Text(Plain(InvoiceTitle), Margin, currentY, 16, HelveticaBold, Black));
    currentY := currentY - 3000;
    doc.Draw(page, Text(Labelled(NumberLabel, invoiceNumber), Margin, currentY, 10, Helvetica, Black));
    currentY := currentY - 1500;
    doc.Draw(page, Text(Labelled(DateLabel, dateText), Margin, currentY, 10, Helvetica, Black));
    var rightColumnX := PageWidth - Margin - 20000;
    doc.Draw(page, Text(Plain(CompanyName), rightColumnX, PageHeight - Margin, 12, HelveticaBold, Black));
    doc.Draw(page, Text(Plain(CompanyAddress), rightColumnX, PageHeight - Margin - 1500, 10, Helvetica, Black));
    doc.Draw(page, Text(Plain(CompanyContact), rightColumnX, PageHeight - Margin - 3000, 10, Helvetica, Black));
  }

  /** Draws the shaded band of column titles with the cursor at `y`. */
  method DrawHeaderBand(doc: PdfDocument, page: nat, y: int)
    requires doc.Valid() && page < |doc.pages|
    modifies doc
    ensures doc.Valid()
    ensures doc.pages == old(doc.pages) && doc.ops == old(doc.ops) + HeaderBand(page, y)
  {
    doc.Draw(page, Rectangle(Margin, y - 1500, PageWidth - Margin * 2, 2000, BandGrey));
    doc.Draw(page, Text(Plain(PartNoTitle), ColPositions[0] + CellInset, y - 1000, 10, HelveticaBold, Black));
    doc.Draw(page, Text(Plain(QuantityTitle), ColPositions[1] + CellInset, y - 1000, 10, HelveticaBold, Black));
    doc.Draw(page, Text(Plain(PriceTitle), ColPositions[2] + CellInset, y - 1000, 10, HelveticaBold, Black));
    doc.Draw(page, Text(Plain(TotalTitle), ColPositions[3] + CellInset, y - 1000, 10, HelveticaBold, Black));
    doc.Draw(page, Line(Margin, y - 1500, PageWidth - Margin, y - 1500, 100, Black));
  }

  /** Draws the cells of one item at cursor `y` and the rule below them;
      returns the cursor one row height lower. */
  method DrawRow(doc: PdfDocument, page: nat, item: LineItem, y: int) returns (nextY: int)
    requires doc.Valid() && page < |doc.pages|
    modifies doc
    ensures doc.Valid()
    ensures doc.pages == old(doc.pages) && doc.ops == old(doc.ops) + Row(page, item, y)
    ensures nextY == y - RowHeight
  {
    doc.Draw(page, Text(Plain(item.partNo), ColPositions[0] + CellInset, y, 10, Helvetica, Black));
    doc.Draw(page, Text(Plain(Text.IntToDecimal(item.qty)), ColPositions[1] + CellInset, y, 10, Helvetica, Black));
    doc.Draw(page, Text(Fixed2(item.unitPrice), ColPositions[2] + CellInset, y, 10, Helvetica, Black));
    doc.Draw(page, Text(Fixed2(item.totalPrice), ColPositions[3] + CellInset, y, 10, Helvetica, Black));
    nextY := y - RowHeight;
    doc.Draw(page, Line(Margin, nextY + 1000, PageWidth - Margin, nextY + 1000, 50, RuleGrey));
  }

  /** One iteration of the row loop with the cursor at `y` and the running
      total `total`: opens a page and redraws the band when the cursor is
      below the bottom reserve, then draws the row and adds the item's
      total. The row goes to the page the handler opened first (index 0),
      whichever page was opened last. */
  method DrawItem(doc: PdfDocument, item: LineItem, y: int, total: real) returns (nextY: int, nextTotal: real)
    requires doc.Valid() && 1 <= |doc.pages|
    modifies doc
    ensures doc.Valid()
    ensures var c := Cursor(|old(doc.pages)|, y, total);
      && Cursor(|doc.pages|, nextY, nextTotal) == Advance(c, item)
      && doc.ops == old(doc.ops) + StepOps(c, item, FirstPageRef)
    ensures doc.pages == old(doc.pages) + (if BreakNeeded(y) then [A4] else [])
  {
    ghost var before := doc.ops;
    ghost var band: seq<DrawOp> := [];
    var currentY := y;
    if currentY < Margin + ReservedSpace {
      var newPage := doc.AddPage(A4);
      currentY := PageHeight - Margin;
      DrawHeaderBand(doc, newPage, currentY);
      band := HeaderBand(newPage, currentY);
      currentY := currentY - 3000;
    }
    nextY := DrawRow(doc, 0, item, currentY);
    nextTotal := total + item.totalPrice;
    AppendAssociates(before, band, Row(0, item, currentY));
  }

  /** Draws the rule, the label and the grand total below the cursor `y`. */
  method DrawTotals(doc: PdfDocument, page: nat, total: real, y: int)
    requires doc.Valid() && page < |doc.pages|
    modifies doc
    ensures doc.Valid()
    ensures doc.pages == old(doc.pages) && doc.ops == old(doc.ops) + Totals(page, total, y)
  {
    var currentY := y - 2000;
    doc.Draw(page, Line(Margin, currentY + 1000, PageWidth - Margin, currentY + 1000, 100, Black));
    doc.Draw(page, Text(Plain(TotalLabel), ColPositions[2] + CellInset, currentY - 1000, 12, HelveticaBold, Black));
    doc.Draw(page, Text(Fixed2(total), ColPositions[3] + CellInset, currentY - 1000, 12, HelveticaBold, Black));
  }

  /** Draws the two footer lines at their fixed height. */
  method DrawFooter(doc: PdfDocument, page: nat)
    requires doc.Valid() && page < |doc.pages|
    modifies doc
    ensures doc.Valid()
    ensures doc.pages == old(doc.pages) && doc.ops == old(doc.ops) + Footer(page)
  {
    var currentY := Margin + 5000;
    doc.Draw(page, Text(Plain(ThankYou), Margin, currentY, 12, HelveticaBold, Black));
    currentY := currentY - 1500;
    doc.Draw(page, Text(Plain(PaymentTerms), Margin, currentY, 10, Helvetica, Black));
  }

  /** The handler. `today` and `dateText` stand for the clock reading and
      its locale date text, `rand` for Math.random(). Rows, totals and footer
      are all drawn on the page opened first. */
  method Post(field: ItemsField, today: InvoiceNumber.Date, rand: real, dateText: string) returns (response: Response)
    requires InvoiceNumber.ValidDate(today) && 0.0 <= rand < 1.0
    ensures var outcome := Render(field, today, rand, dateText);
      && (response.JsonError? <==> outcome.Rejected?)
      && (response.JsonError? ==> response.status == outcome.status && response.error == outcome.error)
      && (response.PdfBody? ==> fresh(response.doc) && response.doc.Valid() &&
                                response.doc.pages == outcome.pages && response.doc.ops == outcome.ops)
  {
    if field.Missing? || field.NotAnArray? || |field.items| == 0 {
      return JsonError(400, NoItems);
    }
    var items := field.items;
    var doc := new PdfDocument();
    var page := doc.AddPage(A4);

    var invoiceNumber := InvoiceNumber.Format(today, InvoiceNumber.Suffix(rand));
    var currentY := DrawHeaderBlock(doc, page, invoiceNumber, dateText);
    currentY := currentY - 4000;
    DrawHeaderBand(doc, page, currentY);
    currentY := currentY - 3000;
    var totalAmount := 0.0;

    ghost var preamble := Preamble(invoiceNumber, dateText);
    ghost var rowOps: seq<DrawOp> := [];
    assert doc.ops == preamble + rowOps;
    var i := 0;
    while i < |items|
      invariant 0 <= i <= |items| && page == 0
      invariant doc.Valid() && 1 <= |doc.pages|
      invariant forall k :: 0 <= k < |doc.pages| ==> doc.pages[k] == A4
      invariant doc.ops == preamble + rowOps
      invariant LayoutRows(items[..i], FirstPageRef) == Layout(Cursor(|doc.pages|, currentY, totalAmount), rowOps)
    {
      ghost var c := Cursor(|doc.pages|, currentY, totalAmount);
      currentY, totalAmount := DrawItem(doc, items[i], currentY, totalAmount);
      AppendAssociates(preamble, rowOps, StepOps(c, items[i], FirstPageRef));
      rowOps := rowOps + StepOps(c, items[i], FirstPageRef);
      LayoutRowsStep(items, i, FirstPageRef);
      i := i + 1;
    }
    assert items[..i] == items;

    DrawTotals(doc, page, totalAmount, currentY);
    DrawFooter(doc, page);
    assert doc.pages == A4Pages(|doc.pages|);
    response := PdfBody(doc);
  }
}
