/** The POST handler of the items route: builds the new item from the
    request's fields and the stored list, appends it and replies with it.
    Reading and writing the JSON file is not modelled: the stored list is the
    `items` field of an ItemStore. */
module ItemsRoute {

  datatype Option<T> = None | Some(value: T)

  /** A stored inventory item. */
  datatype StoredItem = StoredItem(
    id: int, selected: bool, highlighted: bool, slNo: int, partNo: string,
    qty: int, unitPrice: real, totalPrice: real, stock: int)

  /** The request body after parsing: `qty` and `stock` as integers,
      `unitPrice` as a number, and `highlighted` absent or given. */
  datatype ItemData = ItemData(partNo: string, qty: int, unitPrice: real, stock: int, highlighted: Option<bool>)

  /** The largest id of a non-empty list. */
  function MaxId(items: seq<StoredItem>): (m: int)
    requires items != []
    ensures exists i :: 0 <= i < |items| && items[i].id == m
    ensures forall i :: 0 <= i < |items| ==> items[i].id <= m
  {
    if |items| == 1 then items[0].id
    else
      var rest := MaxId(items[1..]);
      assert forall i :: 1 <= i < |items| ==> items[i] == items[1..][i - 1];
      if items[0].id >= rest then items[0].id else rest
  }

  /** The id given to the next item: 1 for an empty list, otherwise one more
      than the largest stored id. */
  function NextId(items: seq<StoredItem>): int {
    if |items| > 0 then MaxId(items) + 1 else 1
  }

  /** The next id exceeds every stored id, and it is the smallest id that
      does so: either the list is empty and it is 1, or some stored id is
      exactly one less. */
  lemma NextIdFresh(items: seq<StoredItem>)
    ensures forall i :: 0 <= i < |items| ==> items[i].id < NextId(items)
    ensures items == [] ==> NextId(items) == 1
    ensures items != [] ==> exists i :: 0 <= i < |items| && items[i].id == NextId(items) - 1
  {
    if items != [] {
      var i :| 0 <= i < |items| && items[i].id == MaxId(items);
      assert items[i].id == NextId(items) - 1;
    }
  }

  /** The item the handler builds for `data` when `items` are stored. */
  function NewItem(items: seq<StoredItem>, data: ItemData): StoredItem {
    StoredItem(
      NextId(items), false,
      data.highlighted == Some(true),
      |items| + 1, data.partNo,
      data.qty, data.unitPrice, data.qty as real * data.unitPrice, data.stock)
  }

  /** What the new item's fields mean: a fresh id, the next serial number, a
      total computed from the parsed quantity and unit price, never
      selected, highlighted only when the request says so, and the
      request's part number, quantity, price and stock. */
  lemma NewItemFields(items: seq<StoredItem>, data: ItemData)
    ensures var item := NewItem(items, data);
      && (forall i :: 0 <= i < |items| ==> items[i].id < item.id)
      && item.slNo == |items| + 1
      && item.totalPrice == item.qty as real * item.unitPrice
      && !item.selected
      && (item.highlighted <==> data.highlighted.Some? && data.highlighted.value)
      && item.partNo == data.partNo && item.qty == data.qty && item.unitPrice == data.unitPrice && item.stock == data.stock
  {
    NextIdFresh(items);
  }

  /** No two stored items share an id. */
  predicate UniqueIds(items: seq<StoredItem>) {
    forall i, j :: 0 <= i < j < |items| ==> items[i].id != items[j].id
  }

  /** Appending the new item keeps ids unique. */
  lemma NewItemKeepsIdsUnique(items: seq<StoredItem>, data: ItemData)
    requires UniqueIds(items)
    ensures UniqueIds(items + [NewItem(items, data)])
  {
    NextIdFresh(items);
    var all := items + [NewItem(items, data)];
    forall i, j | 0 <= i < j < |all|
      ensures all[i].id != all[j].id
    {
      if j == |items| {
        assert all[i] == items[i];
      } else {
        assert all[i] == items[i] && all[j] == items[j];
      }
    }
  }

  /** The stored list of items. */
  class ItemStore {
    var items: seq<StoredItem>

    constructor (initial: seq<StoredItem>)
      ensures items == initial
    {
      items := initial;
    }

    /** Array.prototype.push: appends one item. */
    method Push(item: StoredItem)
      modifies this
      ensures items == old(items) + [item]
    {
      items := items + [item];
    }
  }

  /** The handler: builds the new item from the stored list, appends it and
      returns it as the response body. */
  method Post(store: ItemStore, data: ItemData) returns (created: StoredItem)
    modifies store
    ensures created == NewItem(old(store.items), data)
    ensures store.items == old(store.items) + [created]
    ensures UniqueIds(old(store.items)) ==> UniqueIds(store.items)
  {
    var items := store.items;
    if UniqueIds(items) {
      NewItemKeepsIdsUnique(items, data);
    }
    var id := if |items| > 0 then MaxId(items) + 1 else 1;
    var qty := data.qty;
    var unitPrice := data.unitPrice;
    var totalPrice := qty as real * unitPrice;
    created := StoredItem(
      id, false,
      data.highlighted == Some(true),
      |items| + 1, data.partNo,
      qty, unitPrice, totalPrice, data.stock);
    store.Push(created);
  }
}
