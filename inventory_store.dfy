/** The client-side inventory store: one list of items that every action
    replaces with a new list (`set({ inventory: ... })`), and three
    selectors that read it. */
module InventoryStore {
  import opened Collections
  import opened InventoryTypes

  /** The ids of a list of items, in order. */
  function Ids(items: seq<Item>): (r: seq<string>)
    ensures |r| == |items|
    ensures forall i :: 0 <= i < |items| ==> r[i] == items[i].id
  {
    if items == [] then [] else [items[0].id] + Ids(items[1..])
  }

  /** `items.map(item => item.id === id ? f(item) : item)` */
  function MapMatching(items: seq<Item>, id: string, f: Item -> Item): (r: seq<Item>)
    ensures |r| == |items|
    ensures forall i :: 0 <= i < |items| ==> r[i] == if items[i].id == id then f(items[i]) else items[i]
  {
    if items == [] then []
    else [if items[0].id == id then f(items[0]) else items[0]] + MapMatching(items[1..], id, f)
  }

  /** The list after `removeItem(id)`: every item with that id is gone, all
      others stay in their order, and an unknown id changes nothing. */
  function Removed(items: seq<Item>, id: string): (r: seq<Item>)
    ensures forall i :: 0 <= i < |r| ==> r[i].id != id
    ensures forall x :: x in items && x.id != id ==> x in r
    ensures IsSubseq(r, items)
    ensures forall x :: multiset(r)[x] == if x.id != id then multiset(items)[x] else 0
    ensures (forall i :: 0 <= i < |items| ==> items[i].id != id) ==> r == items
  {
    var keep := (item: Item) => item.id != id;
    FilterMultiset(items, keep);
    if forall i :: 0 <= i < |items| ==> items[i].id != id then
      FilterAll(items, keep);
      Filter(items, keep)
    else Filter(items, keep)
  }

  /** The list after `updateItem(id, updates)`: same length, same ids, every
      item with that id patched and every other item untouched. */
  function Updated(items: seq<Item>, id: string, updates: ItemPatch): (r: seq<Item>)
    ensures Ids(r) == Ids(items)
    ensures forall i :: 0 <= i < |items| && items[i].id != id ==> r[i] == items[i]
    ensures forall i :: 0 <= i < |items| && items[i].id == id ==> r[i] == ApplyPatch(items[i], updates)
  {
    MapMatching(items, id, (item: Item) => ApplyPatch(item, updates))
  }

  /** The list after `updateStock(id, newStock)`. */
  function StockSet(items: seq<Item>, id: string, newStock: int): (r: seq<Item>)
    ensures Ids(r) == Ids(items)
    ensures forall i :: 0 <= i < |items| && items[i].id != id ==> r[i] == items[i]
    ensures forall i :: 0 <= i < |items| && items[i].id == id ==> r[i] == items[i].(stock := newStock)
  {
    MapMatching(items, id, (item: Item) => item.(stock := newStock))
  }

  /** The list after a positive `incrementStock(id, quantity)`. */
  function StockIncremented(items: seq<Item>, id: string, quantity: int): (r: seq<Item>)
    ensures Ids(r) == Ids(items)
    ensures forall i :: 0 <= i < |items| && items[i].id != id ==> r[i] == items[i]
    ensures forall i :: 0 <= i < |items| && items[i].id == id ==>
              r[i] == items[i].(stock := items[i].stock + quantity)
  {
    MapMatching(items, id, (item: Item) => item.(stock := item.stock + quantity))
  }

  /** The list after a positive `decrementStock(id, quantity)`: the stock of
      every matching item becomes `max(0, stock - quantity)`, never negative. */
  function StockDecremented(items: seq<Item>, id: string, quantity: int): (r: seq<Item>)
    ensures Ids(r) == Ids(items)
    ensures forall i :: 0 <= i < |items| && items[i].id != id ==> r[i] == items[i]
    ensures forall i :: 0 <= i < |items| && items[i].id == id ==>
              r[i] == items[i].(stock := Max(0, items[i].stock - quantity)) && r[i].stock >= 0
  {
    MapMatching(items, id, (item: Item) => item.(stock := Max(0, item.stock - quantity)))
  }

  class Store {
    var inventory: seq<Item>

    constructor ()
      ensures inventory == []
    {
      inventory := [];
    }

    method SetInventory(items: seq<Item>)
      modifies this
      ensures inventory == items
    {
      inventory := items;
    }

    /** Appends one item carrying the given fields and a new id; `freshId`
        stands for `crypto.randomUUID()`, which never repeats an id. */
    method AddItem(itemData: ItemData, freshId: string) returns (newItem: Item)
      requires freshId !in Ids(inventory)
      modifies this
      ensures newItem == WithId(itemData, freshId)
      ensures newItem.id !in Ids(old(inventory))
      ensures inventory == old(inventory) + [newItem]
    {
      newItem := WithId(itemData, freshId);
      inventory := inventory + [newItem];
    }

    method RemoveItem(id: string)
      modifies this
      ensures inventory == Removed(old(inventory), id)
    {
      inventory := Removed(inventory, id);
    }

    method UpdateItem(id: string, updates: ItemPatch)
      modifies this
      ensures inventory == Updated(old(inventory), id, updates)
    {
      inventory := Updated(inventory, id, updates);
    }

    method UpdateStock(id: string, newStock: int)
      modifies this
      ensures inventory == StockSet(old(inventory), id, newStock)
    {
      inventory := StockSet(inventory, id, newStock);
    }

    method IncrementStock(id: string, quantity: int)
      modifies this
      ensures quantity <= 0 ==> inventory == old(inventory)
      ensures quantity > 0 ==> inventory == StockIncremented(old(inventory), id, quantity)
    {
      if quantity <= 0 {
        return;
      }
      inventory := StockIncremented(inventory, id, quantity);
    }

    method DecrementStock(id: string, quantity: int)
      modifies this
      ensures quantity <= 0 ==> inventory == old(inventory)
      ensures quantity > 0 ==> inventory == StockDecremented(old(inventory), id, quantity)
    {
      if quantity <= 0 {
        return;
      }
      inventory := StockDecremented(inventory, id, quantity);
    }
  }

  /** `getItemById(id)`: the first item with that id, or none when no item
      has it. */
  function GetItemById(inventory: seq<Item>, id: string): (r: Option<Item>)
    ensures r.None? <==> forall i :: 0 <= i < |inventory| ==> inventory[i].id != id
    ensures r.Some? ==> exists k :: 0 <= k < |inventory| && inventory[k] == r.value && r.value.id == id &&
                                    forall j :: 0 <= j < k ==> inventory[j].id != id
  {
    Find(inventory, (item: Item) => item.id == id)
  }

  /** `getLowStockItems()`: exactly the items with `stock <= minStock`, in
      store order. */
  function GetLowStockItems(inventory: seq<Item>): (r: seq<Item>)
    ensures forall x :: x in r <==> x in inventory && x.stock <= x.minStock
    ensures forall x :: multiset(r)[x] == if x.stock <= x.minStock then multiset(inventory)[x] else 0
    ensures IsSubseq(r, inventory)
  {
    var low := (item: Item) => item.stock <= item.minStock;
    FilterMultiset(inventory, low);
    Filter(inventory, low)
  }

  /** `getItemsByCategory(category)`: the whole inventory for 'Todas',
      otherwise exactly the items of that category, in store order. */
  function GetItemsByCategory(inventory: seq<Item>, category: string): (r: seq<Item>)
    ensures category == "Todas" ==> r == inventory
    ensures category != "Todas" ==> forall x :: x in r <==> x in inventory && x.category == category
    ensures category != "Todas" ==>
              forall x :: multiset(r)[x] == if x.category == category then multiset(inventory)[x] else 0
    ensures IsSubseq(r, inventory)
  {
    if category == "Todas" then
      FilterAll(inventory, (item: Item) => true);
      inventory
    else
      var ofCategory := (item: Item) => item.category == category;
      FilterMultiset(inventory, ofCategory);
      Filter(inventory, ofCategory)
  }

  /** A store whose stocks are all non-negative keeps them so under
      decrements, whatever the quantity. */
  lemma DecrementKeepsStockNonNegative(items: seq<Item>, id: string, quantity: int)
    requires forall i :: 0 <= i < |items| ==> items[i].stock >= 0
    ensures forall i :: 0 <= i < |items| ==> StockDecremented(items, id, quantity)[i].stock >= 0
  {
  }

  /** After `addItem`, looking the new id up finds exactly the new item, and
      every earlier lookup answers as before. */
  lemma {:induction false} AddThenFind(items: seq<Item>, newItem: Item, id: string)
    requires newItem.id !in Ids(items)
    ensures GetItemById(items + [newItem], newItem.id) == Some(newItem)
    ensures id != newItem.id ==> GetItemById(items + [newItem], id) == GetItemById(items, id)
  {
    assert forall i :: 0 <= i < |items| ==> items[i].id != newItem.id by {
      forall i | 0 <= i < |items| ensures items[i].id != newItem.id {
        assert Ids(items)[i] == items[i].id;
      }
    }
    FindAppend(items, newItem, (item: Item) => item.id == newItem.id);
    FindAppend(items, newItem, (item: Item) => item.id == id);
  }

  /** Removing an id and then looking it up finds nothing. */
  lemma RemoveThenFind(items: seq<Item>, id: string)
    ensures GetItemById(Removed(items, id), id) == None
  {
  }
}
