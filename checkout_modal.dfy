/** The checkout dialog: a plain withdrawal ('salida') or a loan
    ('prestamo'). It rejects a quantity above the stock and a loan without a
    borrower, then writes the lowered stock, the loan record (loans only) and
    one log entry, in that order. */
module Checkout {
  import opened Collections
  import opened Text
  import opened InventoryTypes
  import opened Services

  datatype CheckoutType = Withdrawal | Lending

  const ExceedsStockMessage: string := "La cantidad excede el stock disponible"
  const NoBorrowerMessage: string := "Debes especificar quién recibe el préstamo"
  const CheckoutError: string := "Error al registrar salida"

  /** The guards of `handleSubmit`, in order: the message of the first one
      that fails, or None when the checkout may proceed. */
  function Rejection(item: Item, checkoutType: CheckoutType, quantity: int, borrower: string): (r: Option<string>)
    ensures quantity > item.stock ==> r == Some(ExceedsStockMessage)
    ensures quantity <= item.stock && checkoutType.Lending? && IsBlank(borrower) ==> r == Some(NoBorrowerMessage)
    ensures r.None? <==> quantity <= item.stock && !(checkoutType.Lending? && IsBlank(borrower))
  {
    if quantity > item.stock then Some(ExceedsStockMessage)
    else if checkoutType.Lending? && Trim(borrower) == [] then Some(NoBorrowerMessage)
    else None
  }

  /** The loan record a lending writes: the trimmed borrower and notes, the
      same quantity, the current time as loan date, no return yet. */
  function LoanRecord(item: Item, quantity: int, borrower: string, now: int, returnDate: Option<int>,
                      notes: string): (l: Loan)
    ensures l.itemId == item.id && l.itemDescription == item.description
    ensures l.quantity == quantity && l.borrower == Trim(borrower) && l.notes == Trim(notes)
    ensures l.loanDate == now && l.expectedReturnDate == returnDate
    ensures !l.isReturned
  {
    Loan(item.id, item.description, quantity, Trim(borrower), now, returnDate, Trim(notes), false)
  }

  /** The log entry of a lending: 'Préstamo', noted "Préstamo a <borrower>". */
  function LendingEntry(item: Item, quantity: int, borrower: string, user: string): (e: LogEntry)
    ensures e.itemId == item.id && e.itemDescription == item.description && e.user == user
    ensures e.txType == Prestamo && e.quantity == quantity
    ensures e.notes == "Préstamo a " + Trim(borrower)
  {
    LogEntry(item.id, item.description, Prestamo, quantity, user, "Préstamo a " + Trim(borrower))
  }

  /** The log entry of a withdrawal: 'Salida', with blank notes replaced by
      'Salida de stock'. */
  function WithdrawalEntry(item: Item, quantity: int, notes: string, user: string): (e: LogEntry)
    ensures e.itemId == item.id && e.itemDescription == item.description && e.user == user
    ensures e.txType == Salida && e.quantity == quantity
    ensures IsBlank(notes) ==> e.notes == "Salida de stock"
    ensures !IsBlank(notes) ==> e.notes == Trim(notes)
  {
    LogEntry(item.id, item.description, Salida, quantity, user, TrimOr(notes, "Salida de stock"))
  }

  /** The "Stock restante" figure the form shows while typing. */
  function RemainingStock(stock: int, quantity: int): (r: int)
    ensures r >= 0 && r >= stock - quantity
    ensures quantity <= stock ==> r == stock - quantity
    ensures quantity > stock ==> r == 0
  {
    Max(0, stock - quantity)
  }

  /** Once the guards pass, the figure shown is exactly the stock that will
      be written, and it is not negative. */
  lemma RemainingStockIsWritten(item: Item, checkoutType: CheckoutType, quantity: int, borrower: string)
    requires Rejection(item, checkoutType, quantity, borrower).None?
    ensures RemainingStock(item.stock, quantity) == item.stock - quantity >= 0
  {
  }

  /** The form's editable fields; `returnDate` is None for the empty date. */
  datatype Form = Form(checkoutType: CheckoutType, quantity: int, borrower: string, returnDate: Option<int>,
                       notes: string)

  const InitialForm: Form := Form(Withdrawal, 1, "", None, "")

  class CheckoutModal {
    var checkoutType: CheckoutType
    var quantity: int
    var borrower: string
    var returnDate: Option<int>
    var notes: string
    var errorMessage: string
    /** Whether `onClose` has been called. */
    var closed: bool

    function Fields(): Form
      reads this
    {
      Form(checkoutType, quantity, borrower, returnDate, notes)
    }

    constructor ()
      ensures Fields() == InitialForm && errorMessage == "" && !closed
    {
      checkoutType, quantity, borrower, returnDate, notes := Withdrawal, 1, "", None, "";
      errorMessage := "";
      closed := false;
    }

    /** `resetForm()` */
    method ResetForm()
      modifies this
      ensures Fields() == InitialForm && errorMessage == ""
      ensures closed == old(closed)
    {
      checkoutType, quantity, borrower, returnDate, notes := Withdrawal, 1, "", None, "";
      errorMessage := "";
    }

    /** `handleClose()`: reset the form, then close. */
    method HandleClose()
      modifies this
      ensures Fields() == InitialForm && errorMessage == "" && closed
    {
      ResetForm();
      closed := true;
    }

    /** `handleSubmit()`. With no item it does nothing; a failed guard shows
        its message and writes nothing. Otherwise the writes run in order
        (stock, loan for a lending, log entry); the first failure stops the
        sequence, keeps the earlier writes and shows the error; success closes
        the dialog with a reset form. `now` is the client clock in
        milliseconds, `serverTime` the server's in seconds. */
    method HandleSubmit(db: Database, item: Option<Item>, currentUser: string, now: int, serverTime: int,
                        updateOutcome: Outcome, loanOutcome: Outcome, logOutcome: Outcome)
      requires db.Valid()
      modifies this, db
      ensures db.Valid()
      ensures item.None? ==>
                db.items == old(db.items) && db.log == old(db.log) && db.loans == old(db.loans) &&
                Fields() == old(Fields()) && errorMessage == old(errorMessage) && closed == old(closed)
      ensures item.Some? && Rejection(item.value, old(checkoutType), old(quantity), old(borrower)).Some? ==>
                db.items == old(db.items) && db.log == old(db.log) && db.loans == old(db.loans) &&
                errorMessage == Rejection(item.value, old(checkoutType), old(quantity), old(borrower)).value &&
                Fields() == old(Fields()) && closed == old(closed)
      ensures item.Some? && Rejection(item.value, old(checkoutType), old(quantity), old(borrower)).None? ==>
                var it := item.value;
                var u := UpdateResult(old(db.items), it.id, updateOutcome);
                (u.Throws? ==>
                   db.items == old(db.items) && db.log == old(db.log) && db.loans == old(db.loans) &&
                   errorMessage == ErrorText(u, CheckoutError) && Fields() == old(Fields()) && closed == old(closed)) &&
                (u.Completes? ==>
                   db.items == old(db.items)[it.id := old(db.items)[it.id].(stock := it.stock - old(quantity))] &&
                   db.items[it.id].stock >= 0)
      ensures item.Some? && Rejection(item.value, old(checkoutType), old(quantity), old(borrower)).None? &&
              UpdateResult(old(db.items), item.value.id, updateOutcome).Completes? && old(checkoutType).Withdrawal? ==>
                var it := item.value;
                db.loans == old(db.loans) &&
                (logOutcome.Completes? ==>
                   db.log == old(db.log) + [Stamp(WithdrawalEntry(it, old(quantity), old(notes), currentUser), serverTime)] &&
                   Fields() == InitialForm && errorMessage == "" && closed) &&
                (logOutcome.Throws? ==>
                   db.log == old(db.log) &&
                   errorMessage == ErrorText(logOutcome, CheckoutError) && Fields() == old(Fields()) && closed == old(closed))
      ensures item.Some? && Rejection(item.value, old(checkoutType), old(quantity), old(borrower)).None? &&
              UpdateResult(old(db.items), item.value.id, updateOutcome).Completes? && old(checkoutType).Lending? ==>
                var it := item.value;
                (loanOutcome.Throws? ==>
                   db.loans == old(db.loans) && db.log == old(db.log) &&
                   errorMessage == ErrorText(loanOutcome, CheckoutError) && Fields() == old(Fields()) && closed == old(closed)) &&
                (loanOutcome.Completes? ==>
                   db.loans == old(db.loans) +
                               [LoanRecord(it, old(quantity), old(borrower), now, old(returnDate), old(notes))]) &&
                (loanOutcome.Completes? && logOutcome.Completes? ==>
                   db.log == old(db.log) + [Stamp(LendingEntry(it, old(quantity), old(borrower), currentUser), serverTime)] &&
                   Fields() == InitialForm && errorMessage == "" && closed) &&
                (loanOutcome.Completes? && logOutcome.Throws? ==>
                   db.log == old(db.log) &&
                   errorMessage == ErrorText(logOutcome, CheckoutError) && Fields() == old(Fields()) && closed == old(closed))
    {
      if item.None? {
        return;
      }
      var it := item.value;
      // The records a completed checkout writes, built from the form as submitted.
      var loan := LoanRecord(it, quantity, borrower, now, returnDate, notes);
      var lendingEntry := LendingEntry(it, quantity, borrower, currentUser);
      var withdrawalEntry := WithdrawalEntry(it, quantity, notes, currentUser);
      var rejection := Rejection(it, checkoutType, quantity, borrower);
      if rejection.Some? {
        errorMessage := rejection.value;
        return;
      }
      errorMessage := "";
      var newStock := it.stock - quantity;
      var r := db.Update(it.id, StockPatch(newStock), updateOutcome);
      if r.Throws? {
        errorMessage := ErrorText(r, CheckoutError);
        return;
      }
      if checkoutType.Lending? {
        RecordLending(db, loan, lendingEntry, serverTime, loanOutcome, logOutcome);
      } else {
        RecordLog(db, withdrawalEntry, serverTime, logOutcome);
      }
    }

    /** The writes that follow the stock update of a lending: the loan record,
        then the log entry; the first failure stops them and shows the error,
        success closes the dialog. */
    method RecordLending(db: Database, loan: Loan, entry: LogEntry, serverTime: int,
                         loanOutcome: Outcome, logOutcome: Outcome)
      requires db.Valid()
      modifies this, db
      ensures db.Valid() && db.items == old(db.items)
      ensures loanOutcome.Throws? ==>
                db.loans == old(db.loans) && db.log == old(db.log) &&
                errorMessage == ErrorText(loanOutcome, CheckoutError) && Fields() == old(Fields()) && closed == old(closed)
      ensures loanOutcome.Completes? ==> db.loans == old(db.loans) + [loan]
      ensures loanOutcome.Completes? && logOutcome.Completes? ==>
                db.log == old(db.log) + [Stamp(entry, serverTime)] && Fields() == InitialForm && errorMessage == "" && closed
      ensures loanOutcome.Completes? && logOutcome.Throws? ==>
                db.log == old(db.log) &&
                errorMessage == ErrorText(logOutcome, CheckoutError) && Fields() == old(Fields()) && closed == old(closed)
    {
      var r := db.AddLoan(loan, loanOutcome);
      if r.Throws? {
        errorMessage := ErrorText(r, CheckoutError);
      } else {
        RecordLog(db, entry, serverTime, logOutcome);
      }
    }

    /** The log write that ends a checkout: success closes the dialog,
        failure shows the error. */
    method RecordLog(db: Database, entry: LogEntry, serverTime: int, logOutcome: Outcome)
      requires db.Valid()
      modifies this, db
      ensures db.Valid() && db.items == old(db.items) && db.loans == old(db.loans)
      ensures logOutcome.Completes? ==>
                db.log == old(db.log) + [Stamp(entry, serverTime)] && Fields() == InitialForm && errorMessage == "" && closed
      ensures logOutcome.Throws? ==>
                db.log == old(db.log) &&
                errorMessage == ErrorText(logOutcome, CheckoutError) && Fields() == old(Fields()) && closed == old(closed)
    {
      var r := db.AppendTransaction(entry, serverTime, logOutcome);
      if r.Throws? {
        errorMessage := ErrorText(r, CheckoutError);
      } else {
        HandleClose();
      }
    }
  }
}
