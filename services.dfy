/** The document database the modals write to, reduced to its state: the
    inventory collection (id to item), the append-only transaction log and
    the loans collection. Every call either completes or throws; what it does
    is chosen by an `Outcome` parameter, since network and permission
    failures are outside the program. */
module Services {
  import opened Collections
  import opened InventoryTypes

  /** What a call does: it completes, or it throws. A thrown `Error` carries
      its message; any other thrown value carries none. */
  datatype Outcome = Completes | Throws(message: Option<string>)

  /** The message a handler's `catch` shows: the error's own message, or the
      handler's fallback when the thrown value is not an `Error`. */
  function ErrorText(o: Outcome, fallback: string): (r: string)
    requires o.Throws?
    ensures o.message.Some? ==> r == o.message.value
    ensures o.message.None? ==> r == fallback
  {
    o.message.GetOr(fallback)
  }

  /** What `updateDoc` throws when the document does not exist. */
  const NoDocumentMessage: string := "No document to update"

  /** A transaction as the handlers submit it: everything but the
      server-assigned timestamp. */
  datatype LogEntry = LogEntry(
    itemId: string,
    itemDescription: string,
    txType: string,
    quantity: int,
    user: string,
    notes: string)

  /** `{ ...transaction, timestamp: serverTimestamp() }` */
  function Stamp(e: LogEntry, serverTime: int): (t: Transaction)
    ensures t.itemId == e.itemId && t.itemDescription == e.itemDescription && t.txType == e.txType
    ensures t.quantity == e.quantity && t.user == e.user && t.notes == Some(e.notes)
    ensures t.timestamp == serverTime
  {
    Transaction(e.itemId, e.itemDescription, e.txType, e.quantity, e.user, Some(e.notes), serverTime)
  }

  /** What `inventoryService.update(id, patch)` returns: the environment's
      outcome, except that a completed call on a missing document throws. */
  function UpdateResult(items: map<string, Item>, id: string, outcome: Outcome): (r: Outcome)
    ensures r.Completes? <==> outcome.Completes? && id in items
    ensures outcome.Throws? ==> r == outcome
  {
    if outcome.Throws? then outcome
    else if id in items then Completes
    else Throws(Some(NoDocumentMessage))
  }

  /** Every stored item carries the id it is stored under. */
  predicate KeyedById(items: map<string, Item>) {
    forall k :: k in items ==> items[k].id == k
  }

  class Database {
    var items: map<string, Item>
    var log: seq<Transaction>
    var loans: seq<Loan>

    ghost predicate Valid()
      reads this
    {
      KeyedById(items)
    }

    constructor (initial: map<string, Item>)
      requires KeyedById(initial)
      ensures Valid()
      ensures items == initial && log == [] && loans == []
    {
      items := initial;
      log := [];
      loans := [];
    }

    /** `inventoryService.update(id, patch)`: patches the stored item; the
        log and the loans are untouched. */
    method Update(id: string, patch: ItemPatch, outcome: Outcome) returns (r: Outcome)
      requires Valid()
      modifies this
      ensures Valid()
      ensures r == UpdateResult(old(items), id, outcome)
      ensures r.Completes? ==> items == old(items)[id := ApplyPatch(old(items)[id], patch)]
      ensures r.Throws? ==> items == old(items)
      ensures log == old(log) && loans == old(loans)
    {
      r := UpdateResult(items, id, outcome);
      if r.Completes? {
        items := items[id := ApplyPatch(items[id], patch)];
      }
    }

    /** `inventoryService.create(item)`: stores the item under the id the
        server assigns, which no stored item has yet, and returns that id. */
    method Create(data: ItemData, newId: string, outcome: Outcome) returns (r: Outcome, id: string)
      requires Valid() && newId !in items
      modifies this
      ensures Valid()
      ensures r == outcome
      ensures r.Completes? ==> id == newId && items == old(items)[newId := WithId(data, newId)]
      ensures r.Throws? ==> items == old(items)
      ensures log == old(log) && loans == old(loans)
    {
      r := outcome;
      id := newId;
      if r.Completes? {
        items := items[newId := WithId(data, newId)];
      }
    }

    /** `inventoryService.delete(id)`: removes the document; removing a
        missing one completes too. */
    method Delete(id: string, outcome: Outcome) returns (r: Outcome)
      requires Valid()
      modifies this
      ensures Valid()
      ensures r == outcome
      ensures r.Completes? ==> items == old(items) - {id}
      ensures r.Throws? ==> items == old(items)
      ensures log == old(log) && loans == old(loans)
    {
      r := outcome;
      if r.Completes? {
        items := items - {id};
      }
    }

    /** `transactionService.create(entry)`: appends one stamped entry. */
    method AppendTransaction(entry: LogEntry, serverTime: int, outcome: Outcome) returns (r: Outcome)
      requires Valid()
      modifies this
      ensures Valid()
      ensures r == outcome
      ensures r.Completes? ==> log == old(log) + [Stamp(entry, serverTime)]
      ensures r.Throws? ==> log == old(log)
      ensures items == old(items) && loans == old(loans)
    {
      r := outcome;
      if r.Completes? {
        log := log + [Stamp(entry, serverTime)];
      }
    }

    /** `loanService.create(loan)`: appends one loan record. */
    method AddLoan(loan: Loan, outcome: Outcome) returns (r: Outcome)
      requires Valid()
      modifies this
      ensures Valid()
      ensures r == outcome
      ensures r.Completes? ==> loans == old(loans) + [loan]
      ensures r.Throws? ==> loans == old(loans)
      ensures items == old(items) && log == old(log)
    {
      r := outcome;
      if r.Completes? {
        loans := loans + [loan];
      }
    }
  }
}
