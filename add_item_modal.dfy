/** The new-item dialog: it creates an item from the form, with a trimmed
    description, and logs one 'Creación' entry under the id the database
    assigned. */
module AddItem {
  import opened Collections
  import opened Text
  import opened InventoryTypes
  import opened Services

  const CreateError: string := "Error al crear artículo"


  /** The log entry of a creation: 'Creación' under the assigned id, for the
      initial stock, blank notes replaced by 'Artículo creado'. */
  function CreationEntry(id: string, data: ItemData, notes: string, user: string): (e: LogEntry)
    ensures e.itemId == id && e.itemDescription == data.description && e.user == user
    ensures e.txType == Creacion && e.quantity == data.stock
    ensures IsBlank(notes) ==> e.notes == "Artículo creado"
    ensures !IsBlank(notes) ==> e.notes == Trim(notes)
  {
    LogEntry(id, data.description, Creacion, data.stock, user, TrimOr(notes, "Artículo creado"))
  }

  datatype Form = Form(description: string, category: string, stock: int, minStock: int, unit: string,
                       notes: string)

  const InitialForm: Form := Form("", "Electrónica", 0, 0, "pza", "")

  /** The item the form describes: the description trimmed, every other
      field as entered. */
  function NewItemData(form: Form): (d: ItemData)
    ensures d.description == Trim(form.description) && d.category == form.category
    ensures d.stock == form.stock && d.minStock == form.minStock && d.unit == form.unit
  {
    ItemData(Trim(form.description), form.category, form.stock, form.minStock, form.unit)
  }

  class AddItemModal {
    var description: string
    var category: string
    var stock: int
    var minStock: int
    var unit: string
    var notes: string
    var errorMessage: string
    /** Whether `onClose` has been called. */
    var closed: bool

    function Fields(): Form
      reads this
    {
      Form(description, category, stock, minStock, unit, notes)
    }

    constructor ()
      ensures Fields() == InitialForm && errorMessage == "" && !closed
    {
      description, category, stock, minStock, unit, notes := "", "Electrónica", 0, 0, "pza", "";
      errorMessage := "";
      closed := false;
    }

    /** `resetForm()` */
    method ResetForm()
      modifies this
      ensures Fields() == InitialForm && errorMessage == ""
      ensures closed == old(closed)
    {
      description, category, stock, minStock, unit, notes := "", "Electrónica", 0, 0, "pza", "";
      errorMessage := "";
    }

    /** `handleClose()`: reset the form, then close. */
    method HandleClose()
      modifies this
      ensures Fields() == InitialForm && errorMessage == "" && closed
    {
      ResetForm();
      closed := true;
    }

    /** `handleSubmit()`. It creates the item, then logs its creation under
        the returned id; `newId` is the id the database assigns, which no
        stored item has. A failure stops the sequence, keeps the item if it
        was created and shows the error with the form as it was; success
        closes the dialog with a reset form. */
    method HandleSubmit(db: Database, currentUser: string, newId: string, serverTime: int,
                        createOutcome: Outcome, logOutcome: Outcome)
      requires db.Valid() && newId !in db.items
      modifies this, db
      ensures db.Valid()
      ensures db.loans == old(db.loans)
      ensures createOutcome.Throws? ==>
                db.items == old(db.items) && db.log == old(db.log) &&
                errorMessage == ErrorText(createOutcome, CreateError) && Fields() == old(Fields()) &&
                closed == old(closed)
      ensures createOutcome.Completes? ==>
                var data := NewItemData(old(Fields()));
                db.items == old(db.items)[newId := WithId(data, newId)] &&
                (logOutcome.Completes? ==>
                   db.log == old(db.log) + [Stamp(CreationEntry(newId, data, old(notes), currentUser), serverTime)] &&
                   Fields() == InitialForm && errorMessage == "" && closed) &&
                (logOutcome.Throws? ==>
                   db.log == old(db.log) &&
                   errorMessage == ErrorText(logOutcome, CreateError) && Fields() == old(Fields()) &&
                   closed == old(closed))
    {
      errorMessage := "";
      var form := Fields();
      var newItem := NewItemData(form);
      var r, id := db.Create(newItem, newId, createOutcome);
      if r.Throws? {
        errorMessage := ErrorText(r, CreateError);
        return;
      }
      var entry := CreationEntry(id, newItem, form.notes, currentUser);
      r := db.AppendTransaction(entry, serverTime, logOutcome);
      if r.Throws? {
        errorMessage := ErrorText(r, CreateError);
        return;
      }
      HandleClose();
    }
  }
}
