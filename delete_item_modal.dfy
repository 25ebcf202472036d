/** The delete dialog: it logs an 'Eliminación' entry for the item's whole
    stock and only then deletes the item. */
module DeleteItem {
  import opened Collections
  import opened InventoryTypes
  import opened Services

  const DeleteError: string := "Error al eliminar artículo"
  const DeletionNote: string := "Artículo eliminado del inventario"

  /** The log entry of a deletion: 'Eliminación', for the stock the item has
      when it is deleted, with a fixed note. */
  function DeletionEntry(item: Item, user: string): (e: LogEntry)
    ensures e.itemId == item.id && e.itemDescription == item.description && e.user == user
    ensures e.txType == Eliminacion && e.quantity == item.stock && e.notes == DeletionNote
  {
    LogEntry(item.id, item.description, Eliminacion, item.stock, user, DeletionNote)
  }

  class DeleteItemModal {
    var errorMessage: string
    /** Whether `onClose` has been called. */
    var closed: bool

    constructor ()
      ensures errorMessage == "" && !closed
    {
      errorMessage := "";
      closed := false;
    }

    /** `handleDelete()`. With no item it does nothing. Otherwise it writes
        the log entry and then deletes: a failed log write leaves the item in
        place, a failed delete leaves the entry in the log, either shows the
        error, and only both succeeding closes the dialog. */
    method HandleDelete(db: Database, item: Option<Item>, currentUser: string, serverTime: int,
                        logOutcome: Outcome, deleteOutcome: Outcome)
      requires db.Valid()
      modifies this, db
      ensures db.Valid()
      ensures db.loans == old(db.loans)
      ensures item.None? ==>
                db.items == old(db.items) && db.log == old(db.log) &&
                errorMessage == old(errorMessage) && closed == old(closed)
      ensures item.Some? && logOutcome.Throws? ==>
                db.items == old(db.items) && db.log == old(db.log) &&
                errorMessage == ErrorText(logOutcome, DeleteError) && closed == old(closed)
      ensures item.Some? && logOutcome.Completes? ==>
                db.log == old(db.log) + [Stamp(DeletionEntry(item.value, currentUser), serverTime)]
      ensures item.Some? && logOutcome.Completes? && deleteOutcome.Throws? ==>
                db.items == old(db.items) &&
                errorMessage == ErrorText(deleteOutcome, DeleteError) && closed == old(closed)
      ensures item.Some? && logOutcome.Completes? && deleteOutcome.Completes? ==>
                db.items == old(db.items) - {item.value.id} && item.value.id !in db.items &&
                errorMessage == "" && closed
    {
      if item.None? {
        return;
      }
      var it := item.value;
      errorMessage := "";
      var r := db.AppendTransaction(DeletionEntry(it, currentUser), serverTime, logOutcome);
      if r.Throws? {
        errorMessage := ErrorText(r, DeleteError);
        return;
      }
      r := db.Delete(it.id, deleteOutcome);
      if r.Throws? {
        errorMessage := ErrorText(r, DeleteError);
        return;
      }
      closed := true;
    }
  }
}
