# Parts Corner invoice and inventory list — a Dafny model

Parts Corner is a small inventory application. This project models three parts of it:

- **The invoice route** (`app/api/invoice/route.ts`). Its POST handler checks the request's `items`, then draws an A4 invoice with pdf-lib. The invoice has:
  - a header block with the brand, an `INV-YYYYMMDD-NNN` number, the date and the company address;
  - a shaded band of column titles;
  - one row per item, with a page break whenever the cursor falls below the bottom reserve;
  - the grand total;
  - a footer.

  The document is a `Drawing.PdfDocument`: a sequence of pages plus a sequence of draw instructions, each naming its target page. The handler is `InvoiceRoute.Post`. It is an imperative method whose row loop is proved against the specification function `InvoicePagination.LayoutRows`. The whole document is `InvoiceRoute.DocumentOps`.
- **The items route's POST handler** (`app/api/items/route.ts`). It builds a new stored item and appends it to the stored list. The list is the `items` field of `ItemsRoute.ItemStore`.
- **The inventory page's list operations** (`app/page.tsx`). These are selecting, highlighting and deleting by id, the table's search and filter, the invoice button, and the add-item form check. Each is a function from the page state (and the server's reply) to the next page state.

Units:

- Lengths are integers in hundredths of a point, so A4 is 59528 × 84189 and the margin is 5000.
- Money is an exact `real`.

How the code behaves, as modelled:

- **Rows, totals and footer stay on the first page.** On a page break the handler opens the new page in a `const` local scoped to the `if` block (route.ts:172). Only the repeated header band is drawn on that page. Every row, the totals and the footer still go to the page opened at route.ts:14. The model keeps this behaviour (`InvoiceRoute.Post`, `InvoiceRoute.DocumentByPage`). "## Findings" shows its consequence and proves a corrected variant.
- **Delete leaves the selection alone.** The page's delete removes the item from the list but not from `selectedItems` (`InventoryPage.DeleteItemKeepsOthers`).
- **Two id schemes.** The page keys every operation on a string `_id` (page.tsx:59-60, 506, 526, 576). The items route stores a numeric `id` and no `_id` (items/route.ts:64-77). The page appends the route's reply unchanged (page.tsx:177-178). So an item it adds has an undefined `_id`.
  - The model writes the page's `_id` as `Option<string>`, with `None` for undefined. `InventoryPage.FromStored` turns the route's `ItemsRoute.StoredItem` into a page item with `None`.
  - `undefined === undefined` holds, so toggling the selection of one id-less item flips every id-less item (`InventoryPage.IdlessToggleFlipsAllIdless`, `InventoryPage.AddedItemSharesToggle`).
  - Highlight and delete for an id-less item send the request to `/api/items/undefined`. The server's answer is the `responseOk` parameter.

## Model

| member | source | states |
|---|---|---|
| InvoiceRoute.InputCheck | app/api/invoice/route.ts:8-10 | A missing, non-array or empty `items` gives exactly the 400 reply "No items provided" and no document. Every other input gives a document. |
| InvoiceRoute.Post | app/api/invoice/route.ts:4-316 | The handler's reply equals `Render`: the 400 reply for a rejected input, otherwise a fresh document whose pages and instructions are those of `DocumentOps`. The loop keeps the document in step with `LayoutRows` over the items drawn so far. |
| InvoiceGeometry.ColumnPositions | app/api/invoice/route.ts:106-112 | The columns start at 50, 250, 310 and 390 pt. Each column starts where the previous one ends. The last column ends 55.28 pt short of the right margin. |
| InvoiceGeometry.HeaderBandGeometry | app/api/invoice/route.ts:115-162 | The band is a 20 pt rectangle across the usable width with its base 15 pt below the cursor. The four titles sit 5 pt into their columns, 10 pt below the cursor. A rule lies 15 pt below the cursor. |
| InvoiceGeometry.HeaderBandRelative | app/api/invoice/route.ts:176-221 | The band drawn after a break matches the first band instruction for instruction, moved by the cursor difference and retargeted to the new page. |
| InvoiceRoute.DrawHeaderBand | app/api/invoice/route.ts:115-162 | Drawing the band appends exactly `HeaderBand(page, y)` and adds no page. |
| InvoiceRoute.DrawHeaderBlock | app/api/invoice/route.ts:24-101 | The header block appends the brand, title, number, date and company lines on the given page. It leaves the cursor 65 pt below the top margin. |
| InvoiceRoute.DrawRow | app/api/invoice/route.ts:227-268 | A row appends the four cells at the cursor and the separator, and lowers the cursor by exactly 20 pt. |
| InvoiceRoute.DrawItem | app/api/invoice/route.ts:168-269 | One loop iteration adds a page exactly when the cursor is below margin + 100. It moves the cursor and total as `Advance` does, and appends `StepOps` with rows on page 0. |
| InvoiceRoute.DrawTotals | app/api/invoice/route.ts:272-295 | The totals append the rule, the label and the grand total below the cursor. |
| InvoiceRoute.DrawFooter | app/api/invoice/route.ts:297-316 | The footer appends its two lines at the fixed heights margin + 50 and margin + 35. |
| InvoicePagination.BreakSchedule | app/api/invoice/route.ts:165-173 | The first row sits 135 pt below the top. A break comes after `n` rows exactly when `n` ≥ 26 and `n − 26` is a multiple of 31. So the first break precedes the 27th item and each continuation page takes 31 rows. |
| InvoicePagination.StepCounts | app/api/invoice/route.ts:170-173 | After `n` rows, a break adds exactly one page and resets the cursor to the continuation row. Otherwise the page count is unchanged and the cursor drops one row. |
| InvoicePagination.StepEffect | app/api/invoice/route.ts:170-268 | An iteration that breaks opens one page and draws the band at the top first. The row's cells are at the row cursor, the separator is 10 pt above the new cursor, and the total grows by the item's `totalPrice`. |
| InvoicePagination.CursorAfterRows | app/api/invoice/route.ts:168-269 | After the loop, the page count, cursor and running total are the closed forms `PagesAfter(n)` and `YAfter(n)` and the in-order sum of `totalPrice`. |
| InvoicePagination.FirstPageKeepsRows | app/api/invoice/route.ts:172 | With the page bound at line 14, every row goes to page 0. Each continuation page holds one header band and nothing else. Every instruction targets an existing page. |
| InvoicePagination.StaleRowAboveBand | app/api/invoice/route.ts:172 | With 27 items, the 27th row's part number lands on page 0 at the height of the company contact line, above the first header band. |
| InvoicePagination.CorrectedRowsPlaced | app/api/invoice/route.ts:172 | If each row goes to the page opened last, every instruction targets an existing page. Every instruction is then either a continuation page's band or below its page's first row slot. |
| InvoicePagination.LayoutRowsPrefix | app/api/invoice/route.ts:168-269 | The instructions drawn for a prefix of the items are a prefix of those drawn for all of them. |
| InvoiceRoute.DocumentByPage | app/api/invoice/route.ts:14 | Every instruction of the invoice targets one of its `PagesAfter(n)` pages, and each continuation page holds only a header band. The first page holds the header block, the first band, every row, the totals at the final cursor and the footer. |
| InvoiceRoute.GrandTotalPrinted | app/api/invoice/route.ts:166 | The third-from-last instruction prints the in-order sum of the items' `totalPrice`, bold in the Total column, 30 pt below the final cursor. |
| InvoiceRoute.TotalIgnoresQtyAndUnitPrice | app/api/invoice/route.ts:259 | The grand total depends only on the supplied `totalPrice` values, never on `qty` or `unitPrice`. |
| InvoiceRoute.FooterFixed | app/api/invoice/route.ts:297-316 | For any two item lists, the last two instructions are the same footer on page 0, at margin + 50 and margin + 35. |
| InvoiceNumber.Suffix | app/api/invoice/route.ts:54 | The suffix is the floor of rand × 1000, so it lies in 0..999. |
| InvoiceNumber.FormatRoundTrip | app/api/invoice/route.ts:49-56 | `Format` builds the number. For a 4-digit year it has 16 characters. It reads back to the year, the month counted from 1 (zero-padded to 2), the day (padded to 2) and the suffix (padded to 3). |
| InvoiceNumber.RandomSuffixParses | app/api/invoice/route.ts:54-56 | Every random draw yields a well-formed number whose suffix is the drawn one. |
| InvoiceNumber.ParseShape | app/api/invoice/route.ts:49-56 | Any string of the `INV-YYYYMMDD-NNN` shape has 16 characters and reads back to its digit groups. |
| Drawing.PdfDocument.AddPage | app/api/invoice/route.ts:172 | Adding a page appends one page of the given size, returns its index and draws nothing. |
| Drawing.PdfDocument.Draw | app/api/invoice/route.ts:227-233 | Drawing appends exactly one instruction for the given page, which must exist. |
| ItemsRoute.MaxId | app/api/items/route.ts:67 | The maximum is some stored id and is at least every stored id. |
| ItemsRoute.NextIdFresh | app/api/items/route.ts:65-68 | The next id exceeds every stored id. It is 1 for an empty list, otherwise exactly one more than some stored id. |
| ItemsRoute.NewItemFields | app/api/items/route.ts:58-77 | The item `NewItem` builds has a fresh id and serial number `length + 1`. Its total is `qty × unitPrice` from the parsed values. It is never selected, and it is highlighted only when the request says so. |
| ItemsRoute.NewItemKeepsIdsUnique | app/api/items/route.ts:64-79 | Appending the new item keeps stored ids pairwise distinct. |
| ItemsRoute.ItemStore.Push | app/api/items/route.ts:79 | Push appends exactly one item after the unchanged earlier ones. |
| ItemsRoute.Post | app/api/items/route.ts:52-82 | The reply is the item built from the old list, and the list becomes the old list plus that item. Unique ids are preserved. |
| InventoryPage.ToggleSelectChanges | app/page.tsx:144-148 | `ToggleSelect` flips `selected` exactly on the items with the given `_id`. Length, order and every other field and page value are unchanged. |
| InventoryPage.ToggleSelectTwice | app/page.tsx:144-148 | Toggling the same id twice restores the list. |
| InventoryPage.SelectionFollowsItems | app/page.tsx:151-152 | After `ToggleSelect`, the selection holds exactly the selected items of the updated list, each as many times as the list holds it, as a subsequence in list order. |
| InventoryPage.Find | app/page.tsx:114-115 | `find` returns the first item with the id, and nothing exactly when no item has it. |
| InventoryPage.ToggleHighlightChanges | app/page.tsx:112-133 | In `ToggleHighlight`, a request is sent exactly when some item has the id. An accepted request flips `highlighted` only on the matching items. A refused request or a missing id changes nothing. |
| InventoryPage.DeleteItemKeepsOthers | app/page.tsx:207-214 | An accepted `DeleteItem` keeps exactly the items with another `_id`, in order and each as many times as before, so none with the target id remains. A refused one changes nothing, and neither touches the selection. |
| InventoryPage.FilteredItemsSpec | app/page.tsx:292-302 | `FilteredItems` is an order-preserving subsequence of the items. An item appears, as many times as the list holds it, exactly when its lowercased part number contains the lowercased search term and, under "highlighted" or "selected", it has that flag. |
| InventoryPage.UnknownFilterIsAll | app/page.tsx:297-301 | Any filter value other than "highlighted" or "selected" shows the same items as "all". |
| InventoryPage.EmptySearchShowsAll | app/page.tsx:292-297 | An empty search under "all" shows every item. |
| InventoryPage.EmptySelectionDoesNothing | app/page.tsx:239-247 | In `GenerateInvoice`, with nothing selected, no request is sent and the state is unchanged. |
| InventoryPage.InvoiceClearsSelection | app/page.tsx:277-280 | After an accepted `GenerateInvoice`, no item is selected, the selection is empty and the dialog is closed. Every other field and the order are unchanged. |
| InventoryPage.InvoiceRequestAccepted | app/page.tsx:249-258 | Every invoice request the page sends passes the invoice route's input check and carries the selection's totals in order. |
| InventoryPage.AddItemNeedsAllFields | app/page.tsx:155-204 | In `HandleAddItem`, an incomplete form changes nothing. An accepted complete form appends exactly the created item, without an `_id` and with the server's other fields, and clears all four fields. |
| InventoryPage.IdlessToggleFlipsAllIdless | app/page.tsx:144-148 | Toggling the undefined `_id` flips `selected` on exactly the items without an `_id`. |
| InventoryPage.AddedItemSharesToggle | app/page.tsx:176-178 | An item added from the items route's reply has no `_id`. Toggling it flips both itself and any earlier item without one. |

## Left out

- PDF byte encoding, font embedding and `pdfDoc.save()` are not modelled. Draw calls append abstract instruction records to `Drawing.PdfDocument`.
- HTTP plumbing is not modelled: `request.json()`, response headers, the file name and the catch-all 500 replies of both routes. The items route's GET handler returns the stored list unchanged and is not modelled.
- The items route's file persistence (`ensureDataDir`, `getItems`, `saveItems`) is I/O. The stored list is the `ItemStore` field instead.
- React state hooks, `fetch`, toasts, the blob download and all JSX are not modelled. Each page operation takes the server's reply as a parameter: `responseOk`, or the created item as `Some`.
- The page's initial load, `fetchItems`, is not modelled. It replaces the list with the server's reply.
- Money is exact arithmetic on `real`, so floating-point rounding is not modelled. This covers `totalAmount +=`, `qty * unitPrice` on doubles, and the page's `.reduce` totals (which are display only).
- `toFixed(2)` formatting is not modelled: an amount is printed as the abstract `Fixed2(amount)`.
- `parseInt`/`parseFloat` parsing of the request and form fields is not modelled. The parsed values are inputs (`ItemsRoute.ItemData`).
- ItemsRoute.NewItem: `highlighted` is true only for a supplied `true`. The source's `data.highlighted || false` would also copy any other truthy value.
- `Math.random()`, `new Date()` and `toLocaleDateString()` become parameters: `rand` in [0, 1), a `Date`, and the date text.
- Request items whose `partNo`, `qty`, `unitPrice` or `totalPrice` is missing or of the wrong type cannot be written as a `LineItem`. In the source such an item makes the drawing calls at invoice/route.ts:227-257 throw, and the handler answers with the catch-all 500.
- app/api/items/[id]/route.ts is not part of this model. For `/api/items/undefined` it finds no item and answers 404. In the page model that reply is `responseOk` = false.
- `Math.max` over ids that are not numbers (which gives NaN) cannot arise, because stored ids are integers.
- `toLowerCase` and `includes` are modelled on ASCII letters only. There is no Unicode case mapping.
- components/LoginModal.tsx, components/EditItemModal.tsx and app/layout.tsx are not part of this model. They are authentication and form UI only.
- InvoiceRoute.Post draws rows, totals and footer on the first page, as written. The corrected page choice is used only by `InvoicePagination.CorrectedRowsPlaced`.

## Findings

| source | as written | input that shows it | evidently intended | confidence | as-written member | corrected member |
|---|---|---|---|---|---|---|
| app/api/invoice/route.ts:172 | The page opened on a break is a block-local `const`. Rows, totals and footer keep drawing on the first page: row 27 is printed on the first page at y = 761.89 pt, over the company contact line and above the header band. | Any request with 27 or more items | Rows after a break go to the newly opened page, below its header band. | not executed | InvoicePagination.StaleRowAboveBand | InvoicePagination.CorrectedRowsPlaced |
