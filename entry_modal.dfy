/** The stock-entry dialog: it raises an item's stock by the entered
    quantity and logs one 'Entrada' entry. The handler itself checks nothing
    about the quantity; only the input field's `min="1"` bounds it. */
module Entry {
  import opened Collections
  import opened Text
  import opened InventoryTypes
  import opened Services

  const EntryError: string := "Error al registrar entrada"

  /** The log entry of an entry: 'Entrada' with the same quantity, blank
      notes replaced by 'Entrada de stock'. */
  function EntryLog(item: Item, quantity: int, notes: string, user: string): (e: LogEntry)
    ensures e.itemId == item.id && e.itemDescription == item.description && e.user == user
    ensures e.txType == Entrada && e.quantity == quantity
    ensures IsBlank(notes) ==> e.notes == "Entrada de stock"
    ensures !IsBlank(notes) ==> e.notes == Trim(notes)
  {
    LogEntry(item.id, item.description, Entrada, quantity, user, TrimOr(notes, "Entrada de stock"))
  }

  datatype Form = Form(quantity: int, notes: string)

  const InitialForm: Form := Form(1, "")

  class EntryModal {
    var quantity: int
    var notes: string
    var errorMessage: string
    /** Whether `onClose` has been called. */
    var closed: bool

    function Fields(): Form
      reads this
    {
      Form(quantity, notes)
    }

    constructor ()
      ensures Fields() == InitialForm && errorMessage == "" && !closed
    {
      quantity, notes := 1, "";
      errorMessage := "";
      closed := false;
    }

    /** `resetForm()` */
    method ResetForm()
      modifies this
      ensures Fields() == InitialForm && errorMessage == ""
      ensures closed == old(closed)
    {
      quantity, notes := 1, "";
      errorMessage := "";
    }

    /** `handleClose()`: reset the form, then close. */
    method HandleClose()
      modifies this
      ensures Fields() == InitialForm && errorMessage == "" && closed
    {
      ResetForm();
      closed := true;
    }

    /** `handleSubmit()`. With no item it does nothing. Otherwise it writes
        `stock + quantity`, whatever the quantity, then the log entry; a
        failure stops the sequence, keeps the stock already written and shows
        the error; success closes the dialog with a reset form. */
    method HandleSubmit(db: Database, item: Option<Item>, currentUser: string, serverTime: int,
                        updateOutcome: Outcome, logOutcome: Outcome)
      requires db.Valid()
      modifies this, db
      ensures db.Valid()
      ensures db.loans == old(db.loans)
      ensures item.None? ==>
                db.items == old(db.items) && db.log == old(db.log) &&
                Fields() == old(Fields()) && errorMessage == old(errorMessage) && closed == old(closed)
      ensures item.Some? ==>
                var it := item.value;
                var u := UpdateResult(old(db.items), it.id, updateOutcome);
                (u.Throws? ==>
                   db.items == old(db.items) && db.log == old(db.log) &&
                   errorMessage == ErrorText(u, EntryError) && Fields() == old(Fields()) && closed == old(closed)) &&
                (u.Completes? ==>
                   db.items == old(db.items)[it.id := old(db.items)[it.id].(stock := it.stock + old(quantity))]) &&
                (u.Completes? && logOutcome.Completes? ==>
                   db.log == old(db.log) + [Stamp(EntryLog(it, old(quantity), old(notes), currentUser), serverTime)] &&
                   Fields() == InitialForm && errorMessage == "" && closed) &&
                (u.Completes? && logOutcome.Throws? ==>
                   db.log == old(db.log) &&
                   errorMessage == ErrorText(logOutcome, EntryError) && Fields() == old(Fields()) && closed == old(closed))
    {
      if item.None? {
        return;
      }
      var it := item.value;
      errorMessage := "";
      var newStock := it.stock + quantity;
      var r := db.Update(it.id, StockPatch(newStock), updateOutcome);
      if r.Throws? {
        errorMessage := ErrorText(r, EntryError);
        return;
      }
      r := db.AppendTransaction(EntryLog(it, quantity, notes, currentUser), serverTime, logOutcome);
      if r.Throws? {
        errorMessage := ErrorText(r, EntryError);
        return;
      }
      HandleClose();
    }
  }
}
