/** The history page: the transaction log newest first, the type and text
    filter, the sign shown next to each quantity, and the per-type counters
    over the filtered list. Timestamps are server times in seconds. */
module HistoryPage {
  import opened Collections
  import opened Text
  import opened InventoryTypes
  import opened Services
  import Entry
  import Checkout
  import EditStock

  /** The type filter value that keeps every transaction. */
  const AllTypes: string := "Todos"

  /** The subscription's ordering: by timestamp seconds, newest first. */
  function SortTransactions(data: seq<Transaction>): (r: seq<Transaction>)
    ensures SortedDesc(r, (t: Transaction) => t.timestamp)
    ensures multiset(r) == multiset(data)
  {
    SortDesc(data, (t: Transaction) => t.timestamp)
  }

  /** 'Todos' keeps every type; any other value only that exact type. */
  predicate MatchesType(t: Transaction, filterType: string) {
    filterType == AllTypes || t.txType == filterType
  }

  /** A blank query keeps everything; otherwise the lower-cased query, not
      trimmed, must occur in the lower-cased description, user or notes. A
      transaction without notes matches on notes never. */
  predicate MatchesQuery(t: Transaction, searchQuery: string) {
    IsBlank(searchQuery) ||
    Contains(Lower(t.itemDescription), Lower(searchQuery)) ||
    Contains(Lower(t.user), Lower(searchQuery)) ||
    (t.notes.Some? && Contains(Lower(t.notes.value), Lower(searchQuery)))
  }

  /** What the page lists: the transactions passing both tests. */
  predicate Shown(t: Transaction, filterType: string, searchQuery: string) {
    MatchesType(t, filterType) && MatchesQuery(t, searchQuery)
  }

  /** The filter effect: start from the sorted list, drop other types unless
      the filter is 'Todos', then, for a non-blank query, drop the
      transactions the query does not match. The result is the list filtered
      by both tests at once, so it keeps the order of the input. */
  method FilterTransactions(transactions: seq<Transaction>, filterType: string, searchQuery: string)
    returns (filtered: seq<Transaction>)
    ensures filtered == Filter(transactions, (t: Transaction) => Shown(t, filterType, searchQuery))
    ensures forall t :: t in filtered <==> t in transactions && Shown(t, filterType, searchQuery)
    ensures IsSubseq(filtered, transactions)
    ensures filterType == AllTypes && IsBlank(searchQuery) ==> filtered == transactions
  {
    var byType := (t: Transaction) => MatchesType(t, filterType);
    var byQuery := (t: Transaction) => MatchesQuery(t, searchQuery);
    var shown := (t: Transaction) => Shown(t, filterType, searchQuery);
    filtered := transactions;
    if filterType != AllTypes {
      filtered := Filter(filtered, byType);
    } else {
      FilterAll(transactions, byType);
    }
    if !IsBlank(searchQuery) {
      filtered := Filter(filtered, byQuery);
    } else {
      FilterAll(filtered, byQuery);
    }
    FilterTwice(transactions, byType, byQuery, shown);
    if filterType == AllTypes && IsBlank(searchQuery) {
      FilterAll(transactions, shown);
    }
  }

  /** The sign printed before a quantity. */
  datatype Sign = Plus | Minus | NoSign

  /** '+' for 'Entrada', 'Ajuste Positivo' and 'Devolución'; '-' for
      'Salida', 'Ajuste Negativo' and 'Préstamo'; nothing otherwise. */
  function SignOf(txType: string): (s: Sign)
    ensures s.Plus? <==> txType in {Entrada, AjustePositivo, Devolucion}
    ensures s.Minus? <==> txType in {Salida, AjusteNegativo, Prestamo}
  {
    if txType == Entrada || txType == AjustePositivo || txType == Devolucion then Plus
    else if txType == Salida || txType == AjusteNegativo || txType == Prestamo then Minus
    else NoSign
  }

  /** What the dialogs write is shown as follows: an entry with '+', a
      withdrawal and a loan with '-', and a stock adjustment, whose types are
      'Ajuste +' and 'Ajuste -', with no sign at all. */
  lemma LoggedSigns(item: Item, quantity: int, newStock: int, notes: string, borrower: string, user: string)
    ensures SignOf(Entry.EntryLog(item, quantity, notes, user).txType) == Plus
    ensures SignOf(Checkout.WithdrawalEntry(item, quantity, notes, user).txType) == Minus
    ensures SignOf(Checkout.LendingEntry(item, quantity, borrower, user).txType) == Minus
    ensures SignOf(EditStock.AdjustmentEntry(item, newStock, notes, user).txType) == NoSign
  {
    EntrySign(item, quantity, notes, user);
    WithdrawalSign(item, quantity, notes, user);
    LendingSign(item, quantity, borrower, user);
    AdjustmentSign(item, newStock, notes, user);
  }

  lemma EntrySign(item: Item, quantity: int, notes: string, user: string)
    ensures SignOf(Entry.EntryLog(item, quantity, notes, user).txType) == Plus
  {
  }

  lemma WithdrawalSign(item: Item, quantity: int, notes: string, user: string)
    ensures SignOf(Checkout.WithdrawalEntry(item, quantity, notes, user).txType) == Minus
  {
    OutflowsHaveMinus();
  }

  lemma LendingSign(item: Item, quantity: int, borrower: string, user: string)
    ensures SignOf(Checkout.LendingEntry(item, quantity, borrower, user).txType) == Minus
  {
    OutflowsHaveMinus();
  }

  lemma AdjustmentSign(item: Item, newStock: int, notes: string, user: string)
    ensures SignOf(EditStock.AdjustmentEntry(item, newStock, notes, user).txType) == NoSign
  {
    AdjustmentsHaveNoSign();
  }

  lemma OutflowsHaveMinus()
    ensures SignOf(Salida) == Minus && SignOf(Prestamo) == Minus
  {
    assert |Salida| == 6 && |Prestamo| == 8;
    assert |Entrada| == 7 && |AjustePositivo| == 15 && |Devolucion| == 10;
  }

  lemma AdjustmentsHaveNoSign()
    ensures SignOf(AjusteMas) == NoSign && SignOf(AjusteMenos) == NoSign
  {
    assert |AjusteMas| == 8 && |AjusteMenos| == 8 && |Prestamo| == 8;
    assert |Entrada| == 7 && |Salida| == 6 && |Devolucion| == 10;
    assert |AjustePositivo| == 15 && |AjusteNegativo| == 15;
    assert AjusteMas[0] != Prestamo[0] && AjusteMenos[0] != Prestamo[0];
  }

  /** The number of listed transactions of one type. */
  function TypeCount(filtered: seq<Transaction>, txType: string): (n: nat)
    ensures n <= |filtered|
  {
    Count(filtered, (t: Transaction) => t.txType == txType)
  }

  /** The counters 'Entradas', 'Salidas' and 'Préstamos' count different
      transactions, so together they never exceed 'Total Transacciones'. */
  lemma {:induction false} TypeCountsWithinTotal(filtered: seq<Transaction>)
    ensures TypeCount(filtered, Entrada) + TypeCount(filtered, Salida) + TypeCount(filtered, Prestamo) <= |filtered|
  {
    var isEntry := (t: Transaction) => t.txType == Entrada;
    var isOut := (t: Transaction) => t.txType == Salida;
    var isLoan := (t: Transaction) => t.txType == Prestamo;
    var entryOrOut := (t: Transaction) => t.txType == Entrada || t.txType == Salida;
    var any := (t: Transaction) => t.txType == Entrada || t.txType == Salida || t.txType == Prestamo;
    CountDisjoint(filtered, isEntry, isOut, entryOrOut);
    CountDisjoint(filtered, entryOrOut, isLoan, any);
  }

  /** With the type filter on one type, that counter equals the total and
      the counters of the other types show zero. */
  lemma {:induction false} TypeFilterCounts(transactions: seq<Transaction>, filterType: string, searchQuery: string)
    requires filterType != AllTypes
    ensures var filtered := Filter(transactions, (t: Transaction) => Shown(t, filterType, searchQuery));
            TypeCount(filtered, filterType) == |filtered| &&
            forall other :: other != filterType ==> TypeCount(filtered, other) == 0
  {
    var filtered := Filter(transactions, (t: Transaction) => Shown(t, filterType, searchQuery));
    FilterAll(filtered, (t: Transaction) => t.txType == filterType);
    forall other | other != filterType
      ensures TypeCount(filtered, other) == 0
    {
      FilterNone(filtered, (t: Transaction) => t.txType == other);
    }
  }
}
