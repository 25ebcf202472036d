/** The loans page: loans newest first, a status and text filter, the
    overdue test, the days-overdue figure and the three counters. `now` is
    the clock in milliseconds; dates are milliseconds since the epoch. */
module LoansPage {
  import opened Collections
  import opened Text
  import opened InventoryTypes

  datatype StatusFilter = Active | Returned | All

  /** The subscription's ordering: by loan date, newest first. */
  function SortLoans(loans: seq<Loan>): (r: seq<Loan>)
    ensures SortedDesc(r, (l: Loan) => l.loanDate)
    ensures multiset(r) == multiset(loans)
  {
    SortDesc(loans, (l: Loan) => l.loanDate)
  }

  predicate MatchesStatus(loan: Loan, filter: StatusFilter) {
    match filter
    case All => true
    case Active => !loan.isReturned
    case Returned => loan.isReturned
  }

  /** A blank query matches every loan; otherwise the lower-cased query, not
      trimmed, must occur in the lower-cased description or borrower. */
  predicate MatchesSearch(loan: Loan, searchQuery: string) {
    IsBlank(searchQuery) ||
    Contains(Lower(loan.itemDescription), Lower(searchQuery)) ||
    Contains(Lower(loan.borrower), Lower(searchQuery))
  }

  /** `filteredLoans`: the loans passing both tests, in the given order. */
  function FilteredLoans(loans: seq<Loan>, filter: StatusFilter, searchQuery: string): (r: seq<Loan>)
    ensures forall x :: x in r <==> x in loans && MatchesStatus(x, filter) && MatchesSearch(x, searchQuery)
    ensures IsSubseq(r, loans)
    ensures forall x :: multiset(r)[x] ==
              if MatchesStatus(x, filter) && MatchesSearch(x, searchQuery) then multiset(loans)[x] else 0
    ensures filter.All? && IsBlank(searchQuery) ==> r == loans
  {
    var keep := (loan: Loan) => MatchesStatus(loan, filter) && MatchesSearch(loan, searchQuery);
    FilterMultiset(loans, keep);
    if filter.All? && IsBlank(searchQuery) then
      FilterAll(loans, keep);
      Filter(loans, keep)
    else Filter(loans, keep)
  }

  /** `isOverdue(loan)` */
  predicate IsOverdue(loan: Loan, now: int) {
    !loan.isReturned && loan.expectedReturnDate.Some? && loan.expectedReturnDate.value < now
  }

  const DayMs: int := 1000 * 60 * 60 * 24

  /** `Math.ceil(a / b)` for a positive `b`. */
  function CeilDiv(a: int, b: int): (r: int)
    requires b > 0
    ensures (r - 1) * b < a <= r * b
  {
    -((-a) / b)
  }

  /** `getDaysOverdue(loan)`: 0 without an expected date; otherwise the
      elapsed time since that date in days, rounded up, and 0 when not
      positive. Whether the loan was returned is not consulted. */
  function DaysOverdue(loan: Loan, now: int): (r: nat)
    ensures loan.expectedReturnDate.None? ==> r == 0
    ensures loan.expectedReturnDate.Some? && now - loan.expectedReturnDate.value > 0 ==>
              (r - 1) * DayMs < now - loan.expectedReturnDate.value <= r * DayMs
    ensures loan.expectedReturnDate.Some? && now - loan.expectedReturnDate.value <= 0 ==> r == 0
  {
    if loan.expectedReturnDate.None? then 0
    else
      var diffDays := CeilDiv(now - loan.expectedReturnDate.value, DayMs);
      if diffDays > 0 then diffDays else 0
  }

  /** For a loan still out, it is overdue exactly when the page shows a
      positive number of days overdue. */
  lemma OverdueIffDaysPositive(loan: Loan, now: int)
    requires !loan.isReturned
    ensures IsOverdue(loan, now) <==> DaysOverdue(loan, now) > 0
  {
    if loan.expectedReturnDate.Some? {
      var diff := now - loan.expectedReturnDate.value;
      var d := CeilDiv(diff, DayMs);
      assert d <= 0 ==> d * DayMs <= 0;
      assert d > 0 ==> (d - 1) * DayMs >= 0;
    }
  }

  /** `activeLoans` */
  function ActiveCount(loans: seq<Loan>): (n: nat)
    ensures n <= |loans|
  {
    Count(loans, (l: Loan) => !l.isReturned)
  }

  /** `returnedLoans` */
  function ReturnedCount(loans: seq<Loan>): (n: nat)
    ensures n <= |loans|
  {
    Count(loans, (l: Loan) => l.isReturned)
  }

  /** `overdueLoans` */
  function OverdueCount(loans: seq<Loan>, now: int): (n: nat)
    ensures n <= |loans|
  {
    Count(loans, (l: Loan) => IsOverdue(l, now))
  }

  /** Every loan is active or returned, never both, and only active loans
      can be overdue. */
  lemma {:induction false} CountsAreConsistent(loans: seq<Loan>, now: int)
    ensures ActiveCount(loans) + ReturnedCount(loans) == |loans|
    ensures OverdueCount(loans, now) <= ActiveCount(loans)
  {
    CountComplement(loans, (l: Loan) => l.isReturned, (l: Loan) => !l.isReturned);
    CountMonotone(loans, (l: Loan) => IsOverdue(l, now), (l: Loan) => !l.isReturned);
  }

  /** With a blank query, 'active' and 'returned' split the list between
      them, and 'active' lists as many loans as the active counter shows. */
  lemma {:induction false} StatusFiltersSplit(loans: seq<Loan>, searchQuery: string)
    requires IsBlank(searchQuery)
    ensures |FilteredLoans(loans, Active, searchQuery)| + |FilteredLoans(loans, Returned, searchQuery)| == |loans|
    ensures |FilteredLoans(loans, Active, searchQuery)| == ActiveCount(loans)
  {
    var active := (loan: Loan) => MatchesStatus(loan, Active) && MatchesSearch(loan, searchQuery);
    var returned := (loan: Loan) => MatchesStatus(loan, Returned) && MatchesSearch(loan, searchQuery);
    CountComplement(loans, returned, active);
    FilterSameFor(loans, active, (l: Loan) => !l.isReturned);
  }
}
