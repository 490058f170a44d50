/** The inventory page's list operations: each takes the page state (and,
    where the page waits for the server, whether the reply was OK) and gives
    the next state, as the page's map and filter expressions compute it. */
module InventoryPage {
  import Seqs
  import Text
  import InvoiceGeometry
  import InvoiceRoute
  import opened ItemsRoute

  /** An item as the page holds it, identified by its `_id`: None when the
      record has no `_id` (undefined), as every record the items route
      stores. */
  datatype RequisitionItem = RequisitionItem(
    id: Option<string>, selected: bool, highlighted: bool, slNo: int, partNo: string,
    qty: int, unitPrice: real, totalPrice: real, stock: int)

  /** The four text fields of the add-item form. */
  datatype NewItemForm = NewItemForm(partNo: string, qty: string, unitPrice: string, stock: string)

  const EmptyForm: NewItemForm := NewItemForm("", "", "", "")

  datatype PageState = PageState(
    items: seq<RequisitionItem>,
    searchTerm: string,
    filterType: string,
    selectedItems: seq<RequisitionItem>,
    invoiceOpen: bool,
    newItem: NewItemForm)

  /** The item with `selected` flipped when it carries `id`. */
  function SelectToggled(id: Option<string>): RequisitionItem -> RequisitionItem {
    (item: RequisitionItem) => if item.id == id then item.(selected := !item.selected) else item
  }

  function IsSelected(): RequisitionItem -> bool {
    (item: RequisitionItem) => item.selected
  }

  /** Selecting or unselecting an item: flips `selected` on the items with
      `id` and recomputes the selection from the updated list. */
  function ToggleSelect(s: PageState, id: Option<string>): PageState {
    var updated := Seqs.Map(s.items, SelectToggled(id));
    s.(items := updated, selectedItems := Seqs.Filter(updated, IsSelected()))
  }

  /** Only the items carrying `id` change, and only in `selected`; the list
      keeps its length and order, and the search, filter, dialog and form
      are untouched. */
  lemma ToggleSelectChanges(s: PageState, id: Option<string>)
    ensures var t := ToggleSelect(s, id);
      && |t.items| == |s.items|
      && (forall i :: 0 <= i < |s.items| ==>
            (t.items[i].selected <==> (s.items[i].selected != (s.items[i].id == id))) &&
            t.items[i].(selected := s.items[i].selected) == s.items[i])
      && t.(items := s.items, selectedItems := s.selectedItems) == s
  {
  }

  /** Toggling the same id twice restores the list. */
  lemma ToggleSelectTwice(s: PageState, id: Option<string>)
    ensures ToggleSelect(ToggleSelect(s, id), id).items == s.items
  {
    var t := ToggleSelect(ToggleSelect(s, id), id);
    ToggleSelectChanges(s, id);
    ToggleSelectChanges(ToggleSelect(s, id), id);
    assert forall i :: 0 <= i < |s.items| ==> t.items[i] == s.items[i];
  }

  /** After a toggle the selection is exactly the selected items of the
      updated list, in list order, each as many times as the list holds it. */
  lemma SelectionFollowsItems(s: PageState, id: Option<string>)
    ensures var t := ToggleSelect(s, id);
      && (forall x :: x in t.selectedItems <==> x in t.items && x.selected)
      && (forall x :: multiset(t.selectedItems)[x] == if x.selected then multiset(t.items)[x] else 0)
      && Seqs.IsSubsequence(t.selectedItems, t.items)
  {
    var t := ToggleSelect(s, id);
    forall x
      ensures x in t.selectedItems <==> x in t.items && x.selected
      ensures multiset(t.selectedItems)[x] == if x.selected then multiset(t.items)[x] else 0
    {
      Seqs.FilterMembership(t.items, IsSelected(), x);
      Seqs.FilterCount(t.items, IsSelected(), x);
    }
    Seqs.FilterIsSubsequence(t.items, IsSelected());
  }

  /** Array.prototype.find: the first item carrying `id`. */
  function Find(items: seq<RequisitionItem>, id: Option<string>): (r: Option<RequisitionItem>)
    ensures r.None? <==> forall i :: 0 <= i < |items| ==> items[i].id != id
    ensures r.Some? ==> exists i :: 0 <= i < |items| && items[i] == r.value && r.value.id == id &&
                                    forall j :: 0 <= j < i ==> items[j].id != id
  {
    if items == [] then None
    else if items[0].id == id then Some(items[0])
    else
      var r := Find(items[1..], id);
      assert forall i :: 1 <= i < |items| ==> items[i] == items[1..][i - 1];
      if r.Some? then
        var k :| 0 <= k < |items[1..]| && items[1..][k] == r.value && r.value.id == id &&
                 forall j :: 0 <= j < k ==> items[1..][j].id != id;
        assert items[k + 1] == r.value;
        r
      else r
  }

  /** The value sent in the highlight request for `id`: the negation of the
      first matching item's flag, or no request when no item matches. */
  function HighlightRequest(items: seq<RequisitionItem>, id: Option<string>): Option<bool> {
    match Find(items, id)
    case None => None
    case Some(item) => Some(!item.highlighted)
  }

  function HighlightToggled(id: Option<string>): RequisitionItem -> RequisitionItem {
    (item: RequisitionItem) => if item.id == id then item.(highlighted := !item.highlighted) else item
  }

  /** Highlighting or unhighlighting: with no matching item nothing is sent
      and nothing changes; otherwise, when the server accepts, the items
      carrying `id` have `highlighted` flipped. */
  function ToggleHighlight(s: PageState, id: Option<string>, responseOk: bool): PageState {
    if HighlightRequest(s.items, id).None? || !responseOk then s
    else s.(items := Seqs.Map(s.items, HighlightToggled(id)))
  }

  /** A request is sent exactly when some item carries `id`; after an
      accepted request only the matching items change, and only in
      `highlighted`; a refused request or a missing id changes nothing. */
  lemma ToggleHighlightChanges(s: PageState, id: Option<string>, responseOk: bool)
    ensures HighlightRequest(s.items, id).Some? <==> exists i :: 0 <= i < |s.items| && s.items[i].id == id
    ensures var t := ToggleHighlight(s, id, responseOk);
      && (HighlightRequest(s.items, id).None? || !responseOk ==> t == s)
      && |t.items| == |s.items|
      && (HighlightRequest(s.items, id).Some? && responseOk ==>
            forall i :: 0 <= i < |s.items| ==>
              (t.items[i].highlighted <==> (s.items[i].highlighted != (s.items[i].id == id))) &&
              t.items[i].(highlighted := s.items[i].highlighted) == s.items[i])
      && t.(items := s.items) == s
  {
  }

  function WithoutId(id: Option<string>): RequisitionItem -> bool {
    (item: RequisitionItem) => item.id != id
  }

  /** Deleting an item: when the server accepts, the items carrying `id`
      are dropped; the selection is left as it was. */
  function DeleteItem(s: PageState, id: Option<string>, responseOk: bool): PageState {
    if responseOk then s.(items := Seqs.Filter(s.items, WithoutId(id))) else s
  }

  /** An accepted delete keeps exactly the items with another id, in their
      original order and each as many times as before, so no item with `id`
      remains; a refused one changes nothing. Neither touches the selection. */
  lemma DeleteItemKeepsOthers(s: PageState, id: Option<string>, responseOk: bool)
    ensures var t := DeleteItem(s, id, responseOk);
      && (responseOk ==> (forall x :: x in t.items <==> x in s.items && x.id != id) &&
                         (forall x :: multiset(t.items)[x] == if x.id != id then multiset(s.items)[x] else 0) &&
                         Seqs.IsSubsequence(t.items, s.items) &&
                         forall i :: 0 <= i < |t.items| ==> t.items[i].id != id)
      && (!responseOk ==> t == s)
      && t.(items := s.items) == s
  {
    if responseOk {
      var t := DeleteItem(s, id, responseOk);
      forall x
        ensures x in t.items <==> x in s.items && x.id != id
        ensures multiset(t.items)[x] == if x.id != id then multiset(s.items)[x] else 0
      {
        Seqs.FilterMembership(s.items, WithoutId(id), x);
        Seqs.FilterCount(s.items, WithoutId(id), x);
      }
      Seqs.FilterIsSubsequence(s.items, WithoutId(id));
      forall i | 0 <= i < |t.items|
        ensures t.items[i].id != id
      {
        assert t.items[i] in t.items;
      }
    }
  }

  /** The part number contains the search term, both lowercased. */
  predicate MatchesSearch(item: RequisitionItem, searchTerm: string) {
    Text.Contains(Text.Lower(item.partNo), Text.Lower(searchTerm))
  }

  /** The list filter's predicate: "highlighted" and "selected" also require
      that flag; "all" and any other value require the search match only. */
  function Shown(searchTerm: string, filterType: string): RequisitionItem -> bool {
    (item: RequisitionItem) =>
      if filterType == "all" then MatchesSearch(item, searchTerm)
      else if filterType == "highlighted" then MatchesSearch(item, searchTerm) && item.highlighted
      else if filterType == "selected" then MatchesSearch(item, searchTerm) && item.selected
      else MatchesSearch(item, searchTerm)
  }

  /** The items the table shows. */
  function FilteredItems(items: seq<RequisitionItem>, searchTerm: string, filterType: string): seq<RequisitionItem> {
    Seqs.Filter(items, Shown(searchTerm, filterType))
  }

  /** Whether the table shows `x`, spelled out. */
  predicate ShownSpec(x: RequisitionItem, searchTerm: string, filterType: string) {
    MatchesSearch(x, searchTerm) &&
    (filterType == "highlighted" ==> x.highlighted) &&
    (filterType == "selected" ==> x.selected)
  }

  /** The table shows, in list order and as many times as the list holds
      them, exactly the items that match the search and, under
      "highlighted" or "selected", carry that flag. */
  lemma FilteredItemsSpec(items: seq<RequisitionItem>, searchTerm: string, filterType: string)
    ensures var r := FilteredItems(items, searchTerm, filterType);
      && Seqs.IsSubsequence(r, items)
      && (forall x :: x in r <==> x in items && ShownSpec(x, searchTerm, filterType))
      && (forall x :: multiset(r)[x] == if ShownSpec(x, searchTerm, filterType) then multiset(items)[x] else 0)
  {
    var r := FilteredItems(items, searchTerm, filterType);
    Seqs.FilterIsSubsequence(items, Shown(searchTerm, filterType));
    forall x
      ensures x in r <==> x in items && ShownSpec(x, searchTerm, filterType)
      ensures multiset(r)[x] == if ShownSpec(x, searchTerm, filterType) then multiset(items)[x] else 0
    {
      Seqs.FilterMembership(items, Shown(searchTerm, filterType), x);
      Seqs.FilterCount(items, Shown(searchTerm, filterType), x);
    }
  }

  /** An unknown filter value behaves as "all". */
  lemma UnknownFilterIsAll(items: seq<RequisitionItem>, searchTerm: string, filterType: string)
    requires filterType != "highlighted" && filterType != "selected"
    ensures FilteredItems(items, searchTerm, filterType) == FilteredItems(items, searchTerm, "all")
  {
    Seqs.FilterCongruent(items, Shown(searchTerm, filterType), Shown(searchTerm, "all"));
  }

  /** With an empty search under "all" the table shows every item. */
  lemma EmptySearchShowsAll(items: seq<RequisitionItem>)
    ensures FilteredItems(items, "", "all") == items
  {
    assert Text.Lower("") == "";
    forall i | 0 <= i < |items|
      ensures Shown("", "all")(items[i])
    {
      Text.ContainsEmpty(Text.Lower(items[i].partNo));
    }
    Seqs.FilterAll(items, Shown("", "all"));
  }

  /** The request body of the invoice button: the selection, or no request
      when nothing is selected. */
  function InvoiceRequest(s: PageState): Option<seq<RequisitionItem>> {
    if |s.selectedItems| == 0 then None else Some(s.selectedItems)
  }

  function Deselected(item: RequisitionItem): RequisitionItem {
    item.(selected := false)
  }

  /** The invoice button: with an empty selection nothing happens; after an
      accepted request every item is unselected, the selection is emptied
      and the invoice dialog is closed. */
  function GenerateInvoice(s: PageState, responseOk: bool): PageState {
    if |s.selectedItems| == 0 || !responseOk then s
    else s.(items := Seqs.Map(s.items, Deselected), selectedItems := [], invoiceOpen := false)
  }

  /** An empty selection sends no request and changes nothing, whatever the
      reply would have been. */
  lemma EmptySelectionDoesNothing(s: PageState, responseOk: bool)
    requires |s.selectedItems| == 0
    ensures InvoiceRequest(s).None? && GenerateInvoice(s, responseOk) == s
  {
  }

  /** After an accepted invoice no item is selected and the selection is
      empty; every other field of every item, and the list's order, are
      unchanged, as are the search, filter and form. */
  lemma InvoiceClearsSelection(s: PageState)
    requires |s.selectedItems| > 0
    ensures var t := GenerateInvoice(s, true);
      && |t.items| == |s.items|
      && (forall i :: 0 <= i < |t.items| ==> !t.items[i].selected && t.items[i].(selected := s.items[i].selected) == s.items[i])
      && t.selectedItems == [] && !t.invoiceOpen
      && t.(items := s.items, selectedItems := s.selectedItems, invoiceOpen := s.invoiceOpen) == s
  {
  }

  /** The line the invoice route reads from a page item. */
  function ToLineItem(item: RequisitionItem): InvoiceGeometry.LineItem {
    InvoiceGeometry.LineItem(item.partNo, item.qty, item.unitPrice, item.totalPrice)
  }

  /** Every invoice request the page sends passes the route's input check,
      and the route prints the selection's totals in order. */
  lemma InvoiceRequestAccepted(s: PageState)
    requires InvoiceRequest(s).Some?
    ensures var lines := Seqs.Map(InvoiceRequest(s).value, ToLineItem);
      && InvoiceRoute.Accepted(InvoiceRoute.Items(lines))
      && forall i :: 0 <= i < |lines| ==> lines[i].totalPrice == s.selectedItems[i].totalPrice
  {
  }

  /** The add-item form is sent only when all four fields are filled in. */
  predicate FormComplete(form: NewItemForm) {
    form.partNo != "" && form.qty != "" && form.unitPrice != "" && form.stock != ""
  }

  /** The created item as the page stores the reply body: the items
      route's record has a numeric `id` and no `_id`, so the page's `_id`
      is undefined; every other field is copied. */
  function FromStored(created: StoredItem): RequisitionItem {
    RequisitionItem(None, created.selected, created.highlighted, created.slNo, created.partNo,
                    created.qty, created.unitPrice, created.totalPrice, created.stock)
  }

  /** The add button: an incomplete form sends nothing; otherwise, when the
      server replies with the created item, it is appended to the list and
      the form is cleared. `reply` is None when the request failed. */
  function HandleAddItem(s: PageState, reply: Option<StoredItem>): PageState {
    if !FormComplete(s.newItem) then s
    else match reply
      case None => s
      case Some(created) => s.(items := s.items + [FromStored(created)], newItem := EmptyForm)
  }

  /** An incomplete form changes nothing whatever the reply; an accepted
      complete form appends exactly the created item after the existing ones
      (without an `_id`, its other fields as the server sent them) and clears
      every field of the form. */
  lemma AddItemNeedsAllFields(s: PageState, reply: Option<StoredItem>)
    ensures var t := HandleAddItem(s, reply);
      && (!FormComplete(s.newItem) || reply.None? ==> t == s)
      && (FormComplete(s.newItem) && reply.Some? ==>
            var added := t.items[|s.items|];
            |t.items| == |s.items| + 1 && t.items[..|s.items|] == s.items &&
            added.id.None? && added.partNo == reply.value.partNo && added.qty == reply.value.qty &&
            added.unitPrice == reply.value.unitPrice && added.totalPrice == reply.value.totalPrice &&
            added.stock == reply.value.stock && added.slNo == reply.value.slNo &&
            added.selected == reply.value.selected && added.highlighted == reply.value.highlighted &&
            t.newItem == EmptyForm && !FormComplete(t.newItem) &&
            t.(items := s.items, newItem := s.newItem) == s)
  {
  }

  /** Items without an `_id` all answer to the same (undefined) id: toggling
      any one of them flips `selected` on every one of them, and on no item
      that has an `_id`. */
  lemma IdlessToggleFlipsAllIdless(s: PageState)
    ensures var t := ToggleSelect(s, None);
      forall i :: 0 <= i < |s.items| ==>
        (t.items[i].selected != s.items[i].selected <==> s.items[i].id.None?)
  {
    ToggleSelectChanges(s, None);
  }

  /** An item the page added from the items route's reply has no `_id`, so
      toggling it also toggles every earlier item without one. */
  lemma AddedItemSharesToggle(s: PageState, created: StoredItem, i: nat)
    requires FormComplete(s.newItem)
    requires i < |s.items| && s.items[i].id.None?
    ensures var t := HandleAddItem(s, Some(created));
      var n := |s.items|;
      && t.items[n].id.None?
      && ToggleSelect(t, t.items[n].id).items[i].selected != s.items[i].selected
      && ToggleSelect(t, t.items[n].id).items[n].selected != created.selected
  {
    var t := HandleAddItem(s, Some(created));
    IdlessToggleFlipsAllIdless(t);
  }
}
