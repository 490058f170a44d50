/** Fixed geometry of the invoice and the groups of draw instructions the
    invoice handler emits: the header block, the shaded header band, one
    table row, the totals and the footer. Lengths are hundredths of a point. */
module InvoiceGeometry {
  import opened Drawing
  import Text

  /** One line item as the invoice handler receives it. `totalPrice` is taken
      as supplied and is never recomputed from `qty` and `unitPrice`. */
  datatype LineItem = LineItem(partNo: string, qty: int, unitPrice: real, totalPrice: real)

  const PageWidth: int := 59528    // 595.28 pt, A4
  const PageHeight: int := 84189   // 841.89 pt, A4
  const A4: PageSize := PageSize(PageWidth, PageHeight)
  const Margin: int := 5000
  /** Space kept free at the bottom of a page for the totals and the footer:
      a row is only started while the cursor is at or above Margin + ReservedSpace. */
  const ReservedSpace: int := 10000
  const RowHeight: int := 2000
  /** Widths of the Part No, Quantity, Price and Total columns. */
  const ColWidths: seq<int> := [20000, 6000, 8000, 10000]
  /** Column titles and cell texts start this far right of their column. */
  const CellInset: int := 500

  /** The fixed texts of the invoice. */
  const BrandTitle: string := "PARTS CORNER"
  const InvoiceTitle: string := "Invoice"
  const NumberLabel: string := "Invoice Number: "
  const DateLabel: string := "Date: "
  const CompanyName: string := "Parts Corner Pvt. Ltd."
  const CompanyAddress: string := "Beside Sanabil Supar Market, Gangachara, Rangpur 5410"
  const CompanyContact: string := "md.utshab85696@amail.com | 01792-703854"
  const PartNoTitle: string := "Part No"
  const QuantityTitle: string := "Quantity"
  const PriceTitle: string := "Price"
  const TotalTitle: string := "Total"
  const TotalLabel: string := "Total Amount:"
  const ThankYou: string := "Thank you for your business!"
  const PaymentTerms: string := "Payment Terms: Net 30 days"

  const Black: Color := Rgb(0.0, 0.0, 0.0)
  const Brand: Color := Rgb(0.0, 0.3, 0.6)
  const BandGrey: Color := Rgb(0.9, 0.9, 0.9)
  const RuleGrey: Color := Rgb(0.8, 0.8, 0.8)

  /** The top of the writable area of a page; the cursor starts here on every page. */
  const Top: int := PageHeight - Margin

  /** The x-position of each column: the margin plus the widths of the
      columns before it. */
  const ColPositions: seq<int> := [
    Margin,
    Margin + ColWidths[0],
    Margin + ColWidths[0] + ColWidths[1],
    Margin + ColWidths[0] + ColWidths[1] + ColWidths[2]]

  /** Each column starts where the previous one ends; the Total column ends
      55.28 pt short of the right margin. */
  lemma ColumnPositions()
    ensures ColPositions == [5000, 25000, 31000, 39000]
    ensures forall i :: 0 < i < |ColPositions| ==> ColPositions[i] == ColPositions[i - 1] + ColWidths[i - 1]
    ensures ColPositions[3] + ColWidths[3] == PageWidth - Margin - 5528
  {
  }

  /** The shaded band of column titles, drawn with the cursor at `y`. */
  function HeaderBand(page: nat, y: int): (band: seq<DrawOp>)
    ensures |band| == 6
    ensures AllOn(band, page)
  {
    [ DrawOp(page, Rectangle(Margin, y - 1500, PageWidth - 2 * Margin, 2000, BandGrey)),
      DrawOp(page, Text(Plain(PartNoTitle), ColPositions[0] + CellInset, y - 1000, 10, HelveticaBold, Black)),
      DrawOp(page, Text(Plain(QuantityTitle), ColPositions[1] + CellInset, y - 1000, 10, HelveticaBold, Black)),
      DrawOp(page, Text(Plain(PriceTitle), ColPositions[2] + CellInset, y - 1000, 10, HelveticaBold, Black)),
      DrawOp(page, Text(Plain(TotalTitle), ColPositions[3] + CellInset, y - 1000, 10, HelveticaBold, Black)),
      DrawOp(page, Line(Margin, y - 1500, PageWidth - Margin, y - 1500, 100, Black)) ]
  }

  /** A shape moved down by `d`. */
  function Lowered(s: Shape, d: int): Shape {
    match s
    case Text(c, x, y, size, f, col) => Text(c, x, y - d, size, f, col)
    case Rectangle(x, y, w, h, col) => Rectangle(x, y - d, w, h, col)
    case Line(x1, y1, x2, y2, t, col) => Line(x1, y1 - d, x2, y2 - d, t, col)
  }

  /** The band drawn at cursor `y` is the band drawn at cursor `y0`, moved
      down by `y0 - y` and retargeted to another page: instruction for
      instruction the same relative to the cursor. */
  lemma HeaderBandRelative(page0: nat, y0: int, page: nat, y: int)
    ensures forall i :: 0 <= i < 6 ==>
      HeaderBand(page, y)[i] == DrawOp(page, Lowered(HeaderBand(page0, y0)[i].shape, y0 - y))
  {
  }

  /** The band's geometry: a rectangle 20 pt tall across the usable width with
      its base 15 pt below the cursor, the four titles 5 pt into their
      columns 10 pt below the cursor, and a rule 15 pt below the cursor. */
  lemma HeaderBandGeometry(page: nat, y: int)
    ensures HeaderBand(page, y)[0].shape == Rectangle(Margin, y - 1500, PageWidth - 2 * Margin, 2000, BandGrey)
    ensures forall i :: 0 <= i < 4 ==>
      HeaderBand(page, y)[i + 1].shape.Text? &&
      HeaderBand(page, y)[i + 1].shape.x == ColPositions[i] + CellInset &&
      HeaderBand(page, y)[i + 1].shape.y == y - 1000
    ensures HeaderBand(page, y)[5].shape == Line(Margin, y - 1500, PageWidth - Margin, y - 1500, 100, Black)
  {
  }

  /** The baseline of the company contact line, the lowest line of the
      company block. */
  const HeaderBlockContactY: int := Top - 3000

  /** The brand, invoice number, date and company block at the top of the first page. */
  function HeaderBlock(page: nat, invoiceNumber: string, dateText: string): (block: seq<DrawOp>)
    ensures |block| == 7
    ensures AllOn(block, page)
  {
    var right := PageWidth - Margin - 20000;
    [ DrawOp(page, Text(Plain(BrandTitle), Margin, Top, 24, HelveticaBold, Brand)),
      DrawOp(page, Text(Plain(InvoiceTitle), Margin, Top - 2000, 16, HelveticaBold, Black)),
      DrawOp(page, Text(Labelled(NumberLabel, invoiceNumber), Margin, Top - 5000, 10, Helvetica, Black)),
      DrawOp(page, Text(Labelled(DateLabel, dateText), Margin, Top - 6500, 10, Helvetica, Black)),
      DrawOp(page, Text(Plain(CompanyName), right, Top, 12, HelveticaBold, Black)),
      DrawOp(page, Text(Plain(CompanyAddress), right, Top - 1500, 10, Helvetica, Black)),
      DrawOp(page, Text(Plain(CompanyContact), right, HeaderBlockContactY, 10, Helvetica, Black)) ]
  }

  /** One table row drawn at cursor `y`: the four cells, then a light rule
      halfway into the row height below them. */
  function Row(page: nat, item: LineItem, y: int): (row: seq<DrawOp>)
    ensures |row| == 5
    ensures AllOn(row, page)
  {
    [ DrawOp(page, Text(Plain(item.partNo), ColPositions[0] + CellInset, y, 10, Helvetica, Black)),
      DrawOp(page, Text(Plain(Text.IntToDecimal(item.qty)), ColPositions[1] + CellInset, y, 10, Helvetica, Black)),
      DrawOp(page, Text(Fixed2(item.unitPrice), ColPositions[2] + CellInset, y, 10, Helvetica, Black)),
      DrawOp(page, Text(Fixed2(item.totalPrice), ColPositions[3] + CellInset, y, 10, Helvetica, Black)),
      DrawOp(page, Line(Margin, y - RowHeight + 1000, PageWidth - Margin, y - RowHeight + 1000, 50, RuleGrey)) ]
  }

  /** The totals drawn when the cursor, after the last row, is at `y`. */
  function Totals(page: nat, total: real, y: int): (totals: seq<DrawOp>)
    ensures |totals| == 3
    ensures AllOn(totals, page)
  {
    var y' := y - 2000;
    [ DrawOp(page, Line(Margin, y' + 1000, PageWidth - Margin, y' + 1000, 100, Black)),
      DrawOp(page, Text(Plain(TotalLabel), ColPositions[2] + CellInset, y' - 1000, 12, HelveticaBold, Black)),
      DrawOp(page, Text(Fixed2(total), ColPositions[3] + CellInset, y' - 1000, 12, HelveticaBold, Black)) ]
  }

  /** The footer, at a fixed height above the bottom margin. */
  function Footer(page: nat): (footer: seq<DrawOp>)
    ensures |footer| == 2
    ensures AllOn(footer, page)
  {
    [ DrawOp(page, Text(Plain(ThankYou), Margin, Margin + 5000, 12, HelveticaBold, Black)),
      DrawOp(page, Text(Plain(PaymentTerms), Margin, Margin + 3500, 10, Helvetica, Black)) ]
  }
}
