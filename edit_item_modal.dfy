/** The edit dialog: it changes an item's description, category, minimum
    stock and unit, never its stock, and logs one 'Modificación' entry. */
module EditItem {
  import opened Collections
  import opened Text
  import opened InventoryTypes
  import opened Services

  const UpdateError: string := "Error al actualizar artículo"

  /** The patch the form sends: the trimmed description, the category, the
      minimum stock and the unit, and no stock. */
  function MetadataPatch(description: string, category: string, minStock: int, unit: string): (p: ItemPatch)
    ensures p.stock.None?
    ensures p.description == Some(Trim(description)) && p.category == Some(category)
    ensures p.minStock == Some(minStock) && p.unit == Some(unit)
  {
    ItemPatch(Some(Trim(description)), Some(category), None, Some(minStock), Some(unit))
  }

  /** Applying the edit never touches the stock or the id, and sets every
      other field to the form's value. */
  lemma MetadataPatchKeepsStock(item: Item, description: string, category: string, minStock: int, unit: string)
    ensures var r := ApplyPatch(item, MetadataPatch(description, category, minStock, unit));
            r.id == item.id && r.stock == item.stock &&
            r.description == Trim(description) && r.category == category && r.minStock == minStock && r.unit == unit
  {
  }

  /** The log entry of an edit: 'Modificación' with quantity 0 and the new,
      trimmed description; blank notes replaced by 'Artículo modificado'. */
  function ModificationEntry(item: Item, description: string, notes: string, user: string): (e: LogEntry)
    ensures e.itemId == item.id && e.itemDescription == Trim(description) && e.user == user
    ensures e.txType == Modificacion && e.quantity == 0
    ensures IsBlank(notes) ==> e.notes == "Artículo modificado"
    ensures !IsBlank(notes) ==> e.notes == Trim(notes)
  {
    LogEntry(item.id, Trim(description), Modificacion, 0, user, TrimOr(notes, "Artículo modificado"))
  }

  datatype Form = Form(description: string, category: string, minStock: int, unit: string, notes: string)

  const InitialForm: Form := Form("", "Electrónica", 0, "pza", "")

  /** The form seeded from an item, with empty notes. */
  function SeededForm(item: Item): (f: Form)
    ensures f.description == item.description && f.category == item.category
    ensures f.minStock == item.minStock && f.unit == item.unit && f.notes == ""
  {
    Form(item.description, item.category, item.minStock, item.unit, "")
  }

  class EditItemModal {
    var description: string
    var category: string
    var minStock: int
    var unit: string
    var notes: string
    var errorMessage: string
    /** Whether `onClose` has been called. */
    var closed: bool

    function Fields(): Form
      reads this
    {
      Form(description, category, minStock, unit, notes)
    }

    constructor ()
      ensures Fields() == InitialForm && errorMessage == "" && !closed
    {
      description, category, minStock, unit, notes := "", "Electrónica", 0, "pza", "";
      errorMessage := "";
      closed := false;
    }

    /** The effect run whenever the selected item changes: a selected item
        seeds the form and clears notes and error; none leaves it alone. */
    method SeedFrom(item: Option<Item>)
      modifies this
      ensures item.Some? ==> Fields() == SeededForm(item.value) && errorMessage == ""
      ensures item.None? ==> Fields() == old(Fields()) && errorMessage == old(errorMessage)
      ensures closed == old(closed)
    {
      if item.Some? {
        var it := item.value;
        description, category, minStock, unit := it.description, it.category, it.minStock, it.unit;
        notes := "";
        errorMessage := "";
      }
    }

    /** `handleClose()`: close only; the form is kept. */
    method HandleClose()
      modifies this
      ensures Fields() == old(Fields()) && errorMessage == old(errorMessage) && closed
    {
      closed := true;
    }

    /** `handleSubmit()`. With no item it does nothing. Otherwise it sends
        the metadata patch, then the log entry; a failure stops the sequence,
        keeps what was written and shows the error; success closes the dialog
        without resetting the form. */
    method HandleSubmit(db: Database, item: Option<Item>, currentUser: string, serverTime: int,
                        updateOutcome: Outcome, logOutcome: Outcome)
      requires db.Valid()
      modifies this, db
      ensures db.Valid()
      ensures db.loans == old(db.loans)
      ensures Fields() == old(Fields())
      ensures item.None? ==>
                db.items == old(db.items) && db.log == old(db.log) &&
                errorMessage == old(errorMessage) && closed == old(closed)
      ensures item.Some? ==>
                var it := item.value;
                var u := UpdateResult(old(db.items), it.id, updateOutcome);
                var patch := MetadataPatch(old(description), old(category), old(minStock), old(unit));
                (u.Throws? ==>
                   db.items == old(db.items) && db.log == old(db.log) &&
                   errorMessage == ErrorText(u, UpdateError) && closed == old(closed)) &&
                (u.Completes? ==>
                   db.items == old(db.items)[it.id := ApplyPatch(old(db.items)[it.id], patch)] &&
                   db.items[it.id].stock == old(db.items)[it.id].stock) &&
                (u.Completes? && logOutcome.Completes? ==>
                   db.log == old(db.log) +
                             [Stamp(ModificationEntry(it, old(description), old(notes), currentUser), serverTime)] &&
                   errorMessage == "" && closed) &&
                (u.Completes? && logOutcome.Throws? ==>
                   db.log == old(db.log) && errorMessage == ErrorText(logOutcome, UpdateError) && closed == old(closed))
    {
      if item.None? {
        return;
      }
      var it := item.value;
      errorMessage := "";
      var r := db.Update(it.id, MetadataPatch(description, category, minStock, unit), updateOutcome);
      if r.Throws? {
        errorMessage := ErrorText(r, UpdateError);
        return;
      }
      r := db.AppendTransaction(ModificationEntry(it, description, notes, currentUser), serverTime, logOutcome);
      if r.Throws? {
        errorMessage := ErrorText(r, UpdateError);
        return;
      }
      HandleClose();
    }
  }
}
