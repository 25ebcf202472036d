/** The stock-adjustment dialog: it sets, adds to or subtracts from an item's
    stock, rejects a negative result, writes the new stock and then logs one
    'Ajuste +' or 'Ajuste -' entry for the difference. */
module EditStock {
  import opened Collections
  import opened Text
  import opened InventoryTypes
  import opened Services

  datatype Adjustment = Set | Add | Subtract

  const NegativeStockMessage: string := "El stock no puede ser negativo"
  const AdjustError: string := "Error al ajustar stock"

  /** `calculateNewStock()`: the stock the adjustment asks for; 0 when no
      item is selected. */
  function CalculateNewStock(item: Option<Item>, adjustment: Adjustment, amount: int): (r: int)
    ensures item.None? ==> r == 0
    ensures item.Some? && adjustment.Set? ==> r == amount
    ensures item.Some? && adjustment.Add? ==> r - item.value.stock == amount
    ensures item.Some? && adjustment.Subtract? ==> r >= 0 && r >= item.value.stock - amount
    ensures item.Some? && adjustment.Subtract? && amount <= item.value.stock ==> r == item.value.stock - amount
    ensures item.Some? && adjustment.Subtract? && amount > item.value.stock ==> r == 0
  {
    match item
    case None => 0
    case Some(it) =>
      match adjustment
      case Set => amount
      case Add => it.stock + amount
      case Subtract => Max(0, it.stock - amount)
  }

  /** Only 'set' and 'add' can produce the negative stock the handler
      rejects: subtracting is clamped at zero. */
  lemma OnlySetOrAddGoNegative(item: Item, adjustment: Adjustment, amount: int)
    ensures CalculateNewStock(Some(item), adjustment, amount) < 0 <==>
              (adjustment.Set? && amount < 0) || (adjustment.Add? && item.stock + amount < 0)
  {
  }

  /** The default note: "Ajuste manual de stock: <old> → <new>". */
  function AdjustmentNote(oldStock: int, newStock: int): string {
    "Ajuste manual de stock: " + IntToString(oldStock) + " → " + IntToString(newStock)
  }

  /** The log entry for moving `item` from its stock to `newStock`: its
      quantity is the size of the change and its type says whether the stock
      went up ('Ajuste +') or not ('Ajuste -', a zero change included). */
  function AdjustmentEntry(item: Item, newStock: int, notes: string, user: string): (e: LogEntry)
    ensures e.itemId == item.id && e.itemDescription == item.description && e.user == user
    ensures e.txType == AjusteMas || e.txType == AjusteMenos
    ensures e.txType == AjusteMas <==> newStock > item.stock
    ensures e.quantity >= 0
    ensures e.quantity == newStock - item.stock || e.quantity == item.stock - newStock
    ensures IsBlank(notes) ==> e.notes == AdjustmentNote(item.stock, newStock)
    ensures !IsBlank(notes) ==> e.notes == Trim(notes)
  {
    var difference := newStock - item.stock;
    LogEntry(item.id, item.description, if difference > 0 then AjusteMas else AjusteMenos,
             if difference < 0 then -difference else difference, user,
             TrimOr(notes, AdjustmentNote(item.stock, newStock)))
  }

  /** The entry records the change exactly: replaying it, with '+' adding
      and '-' subtracting its quantity, turns the old stock into the new. */
  lemma AdjustmentEntryReplays(item: Item, newStock: int, notes: string, user: string)
    ensures var e := AdjustmentEntry(item, newStock, notes, user);
            item.stock + (if e.txType == AjusteMas then e.quantity else -e.quantity) == newStock
  {
  }

  /** The form's editable fields. */
  datatype Form = Form(adjustmentType: Adjustment, amount: int, notes: string)

  const InitialForm: Form := Form(Set, 0, "")

  class EditStockModal {
    var adjustmentType: Adjustment
    var amount: int
    var notes: string
    var errorMessage: string
    /** Whether `onClose` has been called. */
    var closed: bool

    function Fields(): Form
      reads this
    {
      Form(adjustmentType, amount, notes)
    }

    constructor ()
      ensures Fields() == InitialForm && errorMessage == "" && !closed
    {
      adjustmentType, amount, notes := Set, 0, "";
      errorMessage := "";
      closed := false;
    }

    /** `resetForm()` */
    method ResetForm()
      modifies this
      ensures Fields() == InitialForm && errorMessage == ""
      ensures closed == old(closed)
    {
      adjustmentType, amount, notes := Set, 0, "";
      errorMessage := "";
    }

    /** `handleClose()`: reset the form, then close. */
    method HandleClose()
      modifies this
      ensures Fields() == InitialForm && errorMessage == "" && closed
    {
      ResetForm();
      closed := true;
    }

    /** `handleSubmit()`. With no item it does nothing. A negative new stock
        is reported and nothing is written. Otherwise the stock is written
        first and the log entry second; a failure stops the sequence, keeps
        what was already written and shows the error, and success closes the
        dialog with a reset form. */
    method HandleSubmit(db: Database, item: Option<Item>, currentUser: string, serverTime: int,
                        updateOutcome: Outcome, logOutcome: Outcome)
      requires db.Valid()
      modifies this, db
      ensures db.Valid()
      ensures db.loans == old(db.loans)
      ensures item.None? ==>
                db.items == old(db.items) && db.log == old(db.log) &&
                Fields() == old(Fields()) && errorMessage == old(errorMessage) && closed == old(closed)
      ensures item.Some? && CalculateNewStock(item, old(adjustmentType), old(amount)) < 0 ==>
                db.items == old(db.items) && db.log == old(db.log) &&
                errorMessage == NegativeStockMessage && Fields() == old(Fields()) && closed == old(closed)
      ensures item.Some? && CalculateNewStock(item, old(adjustmentType), old(amount)) >= 0 ==>
                var it := item.value;
                var newStock := CalculateNewStock(item, old(adjustmentType), old(amount));
                var u := UpdateResult(old(db.items), it.id, updateOutcome);
                (u.Throws? ==>
                   db.items == old(db.items) && db.log == old(db.log) &&
                   errorMessage == ErrorText(u, AdjustError) && Fields() == old(Fields()) && closed == old(closed)) &&
                (u.Completes? ==>
                   db.items == old(db.items)[it.id := old(db.items)[it.id].(stock := newStock)]) &&
                (u.Completes? && logOutcome.Completes? ==>
                   db.log == old(db.log) + [Stamp(AdjustmentEntry(it, newStock, old(notes), currentUser), serverTime)] &&
                   Fields() == InitialForm && errorMessage == "" && closed) &&
                (u.Completes? && logOutcome.Throws? ==>
                   db.log == old(db.log) &&
                   errorMessage == ErrorText(logOutcome, AdjustError) && Fields() == old(Fields()) && closed == old(closed))
    {
      if item.None? {
        return;
      }
      var it := item.value;
      var newStock := CalculateNewStock(item, adjustmentType, amount);
      if newStock < 0 {
        errorMessage := NegativeStockMessage;
        return;
      }
      errorMessage := "";
      var r := db.Update(it.id, StockPatch(newStock), updateOutcome);
      if r.Throws? {
        errorMessage := ErrorText(r, AdjustError);
        return;
      }
      var entry := AdjustmentEntry(it, newStock, notes, currentUser);
      r := db.AppendTransaction(entry, serverTime, logOutcome);
      if r.Throws? {
        errorMessage := ErrorText(r, AdjustError);
        return;
      }
      HandleClose();
    }
  }
}
