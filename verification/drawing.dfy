/** The document being drawn: an ordered list of pages and an ordered list of
    draw instructions, each naming the page it is drawn on. The byte encoding
    of the document is not modelled; drawing a text, rectangle or line simply
    appends an instruction record. */
module Drawing {
  import Seqs

  datatype Font = Helvetica | HelveticaBold

  /** An RGB colour, each component in 0..1. */
  datatype Color = Rgb(r: real, g: real, b: real)

  /** What a text instruction prints: a literal string, a caption followed by
      a value printed right after it, or an amount printed
      with two decimals (toFixed(2), whose rounding is not modelled). */
  datatype Content = Plain(s: string) | Labelled(caption: string, value: string) | Fixed2(amount: real)

  /** Coordinates, sizes and thicknesses are in hundredths of a point,
      measured from the bottom-left corner of the page; font sizes are in
      points. */
  datatype Shape =
    | Text(content: Content, x: int, y: int, size: int, font: Font, color: Color)
    | Rectangle(x: int, y: int, width: int, height: int, color: Color)
    | Line(startX: int, startY: int, endX: int, endY: int, thickness: int, color: Color)

  /** A draw instruction and the index of the page it targets. */
  datatype DrawOp = DrawOp(page: nat, shape: Shape)

  datatype PageSize = PageSize(width: int, height: int)

  /** The highest point a shape reaches. */
  function TopY(s: Shape): (top: int)
    ensures s.Text? ==> top == s.y
    ensures s.Rectangle? && s.height >= 0 ==> top == s.y + s.height
    ensures s.Line? ==> top >= s.startY && top >= s.endY
  {
    match s
    case Text(_, _, y, _, _, _) => y
    case Rectangle(_, y, _, h, _) => if h >= 0 then y + h else y
    case Line(_, y1, _, y2, _, _) => if y1 >= y2 then y1 else y2
  }

  /** Every instruction of `ops` targets `page`. */
  predicate AllOn(ops: seq<DrawOp>, page: nat) {
    forall i :: 0 <= i < |ops| ==> ops[i].page == page
  }

  /** Every instruction of `ops` targets one of the first `n` pages. */
  predicate PagesBelow(ops: seq<DrawOp>, n: nat) {
    forall i :: 0 <= i < |ops| ==> ops[i].page < n
  }

  lemma AllOnAppend(a: seq<DrawOp>, b: seq<DrawOp>, page: nat)
    requires AllOn(a, page) && AllOn(b, page)
    ensures AllOn(a + b, page)
  {
  }

  lemma PagesBelowAppend(a: seq<DrawOp>, b: seq<DrawOp>, n: nat)
    requires PagesBelow(a, n) && PagesBelow(b, n)
    ensures PagesBelow(a + b, n)
  {
  }

  lemma AllOnBelow(ops: seq<DrawOp>, page: nat, n: nat)
    requires AllOn(ops, page) && page < n
    ensures PagesBelow(ops, n)
  {
  }

  lemma PagesBelowGrow(ops: seq<DrawOp>, n: nat, m: nat)
    requires PagesBelow(ops, n) && n <= m
    ensures PagesBelow(ops, m)
  {
  }

  lemma AppendAssociates(a: seq<DrawOp>, b: seq<DrawOp>, c: seq<DrawOp>)
    ensures a + (b + c) == a + b + c
  {
  }

  function OnPage(page: nat): DrawOp -> bool {
    (op: DrawOp) => op.page == page
  }

  /** The instructions that target `page`, in drawing order. */
  function OpsOn(ops: seq<DrawOp>, page: nat): seq<DrawOp> {
    Seqs.Filter(ops, OnPage(page))
  }

  lemma OpsOnAppend(a: seq<DrawOp>, b: seq<DrawOp>, page: nat)
    ensures OpsOn(a + b, page) == OpsOn(a, page) + OpsOn(b, page)
  {
    Seqs.FilterAppend(a, b, OnPage(page));
  }

  lemma OpsOnAll(ops: seq<DrawOp>, page: nat)
    requires AllOn(ops, page)
    ensures OpsOn(ops, page) == ops
  {
    Seqs.FilterAll(ops, OnPage(page));
  }

  lemma OpsOnNone(ops: seq<DrawOp>, page: nat)
    requires forall i :: 0 <= i < |ops| ==> ops[i].page != page
    ensures OpsOn(ops, page) == []
  {
    Seqs.FilterNone(ops, OnPage(page));
  }

  /** The document under construction (a pdf-lib PDFDocument): pages are
      appended by AddPage and instructions by Draw. A page object of the
      library is modelled by its index in `pages`. */
  class PdfDocument {
    var pages: seq<PageSize>
    var ops: seq<DrawOp>

    /** Every instruction targets a page that exists. */
    ghost predicate Valid()
      reads this
    {
      PagesBelow(ops, |pages|)
    }

    constructor ()
      ensures Valid()
      ensures pages == [] && ops == []
    {
      pages := [];
      ops := [];
    }

    /** Appends a page of the given size and returns its index. */
    method AddPage(size: PageSize) returns (index: nat)
      requires Valid()
      modifies this
      ensures Valid()
      ensures index == |old(pages)| && pages == old(pages) + [size] && ops == old(ops)
    {
      index := |pages|;
      pages := pages + [size];
    }

    /** Draws `shape` on the page with index `page`. */
    method Draw(page: nat, shape: Shape)
      requires Valid() && page < |pages|
      modifies this
      ensures Valid()
      ensures pages == old(pages) && ops == old(ops) + [DrawOp(page, shape)]
    {
      ops := ops + [DrawOp(page, shape)];
    }
  }
}
