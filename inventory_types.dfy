/** The records the application stores: inventory items, transaction log
    entries and loans, with the partial update (`{ ...item, ...updates }`)
    that both the local store and the document database apply to items. */
module InventoryTypes {
  import opened Collections

  /** An inventory item. The optional descriptive fields (name, code,
      location, supplier, ...) are not read by any modelled operation. */
  datatype Item = Item(
    id: string,
    description: string,
    category: string,
    stock: int,
    minStock: int,
    unit: string)

  /** An item without its identifier (`Omit<InventoryItem, 'id'>`). */
  datatype ItemData = ItemData(
    description: string,
    category: string,
    stock: int,
    minStock: int,
    unit: string)

  function WithId(data: ItemData, id: string): (r: Item)
    ensures r.id == id
    ensures r.description == data.description && r.category == data.category && r.unit == data.unit
    ensures r.stock == data.stock && r.minStock == data.minStock
  {
    Item(id, data.description, data.category, data.stock, data.minStock, data.unit)
  }

  /** `Partial<Omit<InventoryItem, 'id'>>`: a field set to None is absent. */
  datatype ItemPatch = ItemPatch(
    description: Option<string>,
    category: Option<string>,
    stock: Option<int>,
    minStock: Option<int>,
    unit: Option<string>)

  /** The patch `{ stock: n }`. */
  function StockPatch(n: int): ItemPatch {
    ItemPatch(None, None, Some(n), None, None)
  }

  /** `{ ...item, ...patch }`: every field the patch carries replaces the
      item's, every other field and the id are kept. */
  function ApplyPatch(item: Item, patch: ItemPatch): (r: Item)
    ensures r.id == item.id
    ensures r.description == patch.description.GetOr(item.description)
    ensures r.category == patch.category.GetOr(item.category)
    ensures r.stock == patch.stock.GetOr(item.stock)
    ensures r.minStock == patch.minStock.GetOr(item.minStock)
    ensures r.unit == patch.unit.GetOr(item.unit)
  {
    Item(item.id,
         patch.description.GetOr(item.description),
         patch.category.GetOr(item.category),
         patch.stock.GetOr(item.stock),
         patch.minStock.GetOr(item.minStock),
         patch.unit.GetOr(item.unit))
  }

  /** A transaction log entry. `timestamp` is the server time in seconds;
      `notes` is optional in the stored shape. */
  datatype Transaction = Transaction(
    itemId: string,
    itemDescription: string,
    txType: string,
    quantity: int,
    user: string,
    notes: Option<string>,
    timestamp: int)

  /** A loan record. Dates are milliseconds since the epoch. */
  datatype Loan = Loan(
    itemId: string,
    itemDescription: string,
    quantity: int,
    borrower: string,
    loanDate: int,
    expectedReturnDate: Option<int>,
    notes: string,
    isReturned: bool)

  // The transaction types the handlers write and the pages recognise.
  const Entrada: string := "Entrada"
  const Salida: string := "Salida"
  const Prestamo: string := "Préstamo"
  const Devolucion: string := "Devolución"
  const AjustePositivo: string := "Ajuste Positivo"
  const AjusteNegativo: string := "Ajuste Negativo"
  const AjusteMas: string := "Ajuste +"
  const AjusteMenos: string := "Ajuste -"
  const Creacion: string := "Creación"
  const Eliminacion: string := "Eliminación"
  const Modificacion: string := "Modificación"
}
