/** The dashboard: the ten most recent transactions, the four stat counters,
    the category histogram (five largest categories) with its bar widths,
    and the relative-time labels. `now` is the clock in milliseconds;
    transaction timestamps are in seconds. */
module DashboardPage {
  import opened Collections
  import opened Text
  import opened InventoryTypes
  import opened InventoryStore

  // ---------------------------------------------------------------------
  // Recent activity
  // ---------------------------------------------------------------------

  /** The subscription's list: sorted by timestamp, newest first, cut to 10. */
  function RecentActivity(transactions: seq<Transaction>): (r: seq<Transaction>)
    ensures |r| == Min(10, |transactions|)
    ensures SortedDesc(r, (t: Transaction) => t.timestamp)
    ensures multiset(r) <= multiset(transactions)
  {
    var sorted := SortDesc(transactions, (t: Transaction) => t.timestamp);
    var r := Take(sorted, 10);
    TakeOfSortedIsTop(sorted, 10, (t: Transaction) => t.timestamp);
    assert sorted == r + sorted[|r|..];
    r
  }

  /** Nothing left out of the recent list is newer than anything in it. */
  lemma RecentActivityIsNewest(transactions: seq<Transaction>, t: Transaction)
    requires multiset(transactions)[t] > multiset(RecentActivity(transactions))[t]
    ensures forall i :: 0 <= i < |RecentActivity(transactions)| ==> RecentActivity(transactions)[i].timestamp >= t.timestamp
  {
    var key := (x: Transaction) => x.timestamp;
    var sorted := SortDesc(transactions, key);
    var r := RecentActivity(transactions);
    TakeOfSortedIsTop(sorted, 10, key);
    assert sorted == r + sorted[|r|..];
    assert t in multiset(sorted[|r|..]);
    var j :| 0 <= j < |sorted[|r|..]| && sorted[|r|..][j] == t;
    assert sorted[|r| + j] == t;
  }

  // ---------------------------------------------------------------------
  // Stat counters
  // ---------------------------------------------------------------------

  /** The distinct categories of a list of items. */
  function Categories(items: seq<Item>): (r: set<string>)
    ensures |r| <= |items|
    ensures items != [] ==> |r| >= 1
  {
    if items == [] then {} else Categories(items[..|items| - 1]) + {items[|items| - 1].category}
  }

  /** A category is listed exactly when some item carries it. */
  lemma {:induction false} CategoriesMembers(items: seq<Item>, c: string)
    ensures c in Categories(items) <==> exists i :: 0 <= i < |items| && items[i].category == c
  {
    if items != [] {
      var init := items[..|items| - 1];
      CategoriesMembers(init, c);
      assert forall i :: 0 <= i < |init| ==> init[i] == items[i];
    }
  }

  /** How many items carry category `c`. */
  function Frequency(items: seq<Item>, c: string): (n: nat)
    ensures n <= |items|
  {
    if items == [] then 0
    else Frequency(items[..|items| - 1], c) + (if items[|items| - 1].category == c then 1 else 0)
  }

  /** A category occurs in the list exactly when its frequency is positive. */
  lemma {:induction false} FrequencyPositive(items: seq<Item>, c: string)
    ensures Frequency(items, c) >= 1 <==> c in Categories(items)
  {
    if items != [] {
      FrequencyPositive(items[..|items| - 1], c);
    }
  }

  datatype Stats = Stats(totalItems: nat, lowStockItems: nat, activeLoans: nat, categoriesCount: nat)

  /** The four counters: items, items strictly below their minimum, loans
      not returned, distinct categories. */
  function DashboardStats(inventory: seq<Item>, loans: seq<Loan>): (s: Stats)
    ensures s.totalItems == |inventory|
    ensures s.lowStockItems <= s.totalItems && s.categoriesCount <= s.totalItems
    ensures s.categoriesCount == 0 <==> s.totalItems == 0
    ensures s.activeLoans <= |loans|
    ensures s.categoriesCount == |Categories(inventory)|
    ensures s.lowStockItems + Count(inventory, (i: Item) => i.stock == i.minStock) == |GetLowStockItems(inventory)|
    ensures s.activeLoans + Count(loans, (l: Loan) => l.isReturned) == |loans|
  {
    var strict := (item: Item) => item.stock < item.minStock;
    var atMinimum := (i: Item) => i.stock == i.minStock;
    var loose := (i: Item) => i.stock <= i.minStock;
    var active := (loan: Loan) => !loan.isReturned;
    CountDisjoint(inventory, strict, atMinimum, loose);
    FilterSameFor(inventory, loose, (item: Item) => item.stock <= item.minStock);
    CountComplement(loans, (l: Loan) => l.isReturned, active);
    Stats(|inventory|, Count(inventory, strict), Count(loans, active), |Categories(inventory)|)
  }

  /** The dashboard counts items strictly below their minimum, the store's
      low-stock selector those at or below it: never more, and an item
      exactly at its minimum shows the difference. */
  lemma {:induction false} LowStockStricterThanSelector(inventory: seq<Item>, loans: seq<Loan>, item: Item)
    ensures DashboardStats(inventory, loans).lowStockItems <= |GetLowStockItems(inventory)|
    ensures item.stock == item.minStock ==>
              DashboardStats([item], loans).lowStockItems == 0 && |GetLowStockItems([item])| == 1
  {
    var strict := (i: Item) => i.stock < i.minStock;
    var loose := (i: Item) => i.stock <= i.minStock;
    CountMonotone(inventory, strict, loose);
    FilterSameFor(inventory, loose, (i: Item) => i.stock <= i.minStock);
    if item.stock == item.minStock {
      FilterNone([item], strict);
      FilterAll([item], loose);
    }
  }

  // ---------------------------------------------------------------------
  // Category histogram
  // ---------------------------------------------------------------------

  type Entry = (string, int)

  /** The sort key of the histogram: an entry's count. */
  function CountOf(e: Entry): int {
    e.1
  }

  /** The histogram is ordered by count, largest first. */
  predicate ByCountDesc(data: seq<Entry>) {
    SortedDesc(data, CountOf)
  }

  /** What the counting loop knows after a prefix of the inventory: the
      keys are exactly the prefix's categories, listed once each in `order`,
      and each key counts its category's items. */
  ghost predicate CountsOf(prefix: seq<Item>, counts: map<string, int>, order: seq<string>) {
    (forall c :: c in counts <==> c in order) &&
    (forall c :: c in order <==> c in Categories(prefix)) &&
    Distinct(order) &&
    |order| == |Categories(prefix)| &&
    (forall c :: c in counts ==> counts[c] == Frequency(prefix, c))
  }

  /** The map the counting loop builds over `items`: each category seen,
      with one more for every item carrying it. */
  function Tally(items: seq<Item>): map<string, int> {
    if items == [] then map[]
    else
      var counts := Tally(items[..|items| - 1]);
      var c := items[|items| - 1].category;
      counts[c := (if c in counts then counts[c] else 0) + 1]
  }

  /** The order in which the loop first inserts each category as a key. */
  function FirstSeen(items: seq<Item>): seq<string> {
    if items == [] then []
    else
      var order := FirstSeen(items[..|items| - 1]);
      var c := items[|items| - 1].category;
      if c in Tally(items[..|items| - 1]) then order else order + [c]
  }

  /** The map's keys are exactly the categories of the items. */
  lemma {:induction false} TallyKeys(items: seq<Item>)
    ensures forall c :: c in Tally(items) <==> c in Categories(items)
  {
    if items != [] {
      TallyKeys(items[..|items| - 1]);
    }
  }

  /** Each key counts exactly the items of its category. */
  lemma {:induction false} TallyFrequency(items: seq<Item>)
    ensures forall c :: c in Tally(items) ==> Tally(items)[c] == Frequency(items, c)
  {
    if items != [] {
      var init := items[..|items| - 1];
      TallyFrequency(init);
      TallyKeys(init);
      FrequencyPositive(init, items[|items| - 1].category);
    }
  }

  /** The insertion order lists exactly the keys of the map, each once, so
      it is as long as there are categories. */
  lemma {:induction false} FirstSeenKeys(items: seq<Item>)
    ensures forall c :: c in FirstSeen(items) <==> c in Tally(items)
    ensures Distinct(FirstSeen(items))
    ensures |FirstSeen(items)| == |Categories(items)|
  {
    if items != [] {
      var init := items[..|items| - 1];
      var c := items[|items| - 1].category;
      FirstSeenKeys(init);
      TallyKeys(init);
      var cats := Categories(init);
      if c in Tally(init) {
        assert cats + {c} == cats;
      } else {
        assert |cats + {c}| == |cats| + 1;
      }
    }
  }

  /** The map holds every category once, in first-seen order, with its
      exact frequency. */
  lemma TallyCounts(items: seq<Item>)
    ensures CountsOf(items, Tally(items), FirstSeen(items))
  {
    TallyKeys(items);
    TallyFrequency(items);
    FirstSeenKeys(items);
  }

  /** The counting loop of `getCategoryData()`: a map from category to
      count, and the order in which the map's keys were first inserted. */
  method CountByCategory(inventory: seq<Item>) returns (counts: map<string, int>, order: seq<string>)
    ensures counts == Tally(inventory) && order == FirstSeen(inventory)
  {
    counts := map[];
    order := [];
    var k := 0;
    while k < |inventory|
      invariant 0 <= k <= |inventory|
      invariant counts == Tally(inventory[..k]) && order == FirstSeen(inventory[..k])
    {
      var item := inventory[k];
      assert inventory[..k + 1][..k] == inventory[..k];
      var count := if item.category in counts then counts[item.category] else 0;
      if item.category !in counts {
        order := order + [item.category];
      }
      counts := counts[item.category := count + 1];
      k := k + 1;
    }
    assert inventory[..k] == inventory;
  }

  /** The map's entries in insertion order. */
  function Entries(counts: map<string, int>, order: seq<string>): (r: seq<Entry>)
    requires forall c :: c in order ==> c in counts
    ensures |r| == |order|
    ensures forall i :: 0 <= i < |r| ==> r[i] == (order[i], counts[order[i]])
  {
    seq(|order|, i requires 0 <= i < |order| => (order[i], counts[order[i]]))
  }

  /** Sort by count, largest first, and keep five. */
  function TopFive(entries: seq<Entry>): (r: seq<Entry>)
    ensures ByCountDesc(r)
    ensures |r| == Min(5, |entries|)
    ensures multiset(r) <= multiset(entries)
  {
    var sorted := SortDesc(entries, CountOf);
    var r := Take(sorted, 5);
    TakeOfSortedIsTop(sorted, 5, CountOf);
    assert sorted == r + sorted[|r|..];
    r
  }

  /** Every entry kept is a category of the inventory with its true,
      positive count. */
  lemma {:induction false} TopFiveCounts(inventory: seq<Item>, counts: map<string, int>, order: seq<string>)
    requires CountsOf(inventory, counts, order)
    ensures var data := TopFive(Entries(counts, order));
            forall i :: 0 <= i < |data| ==>
              data[i].0 in Categories(inventory) && data[i].1 == Frequency(inventory, data[i].0) && data[i].1 >= 1
  {
    var entries := Entries(counts, order);
    var data := TopFive(entries);
    forall i | 0 <= i < |data|
      ensures data[i].0 in Categories(inventory) && data[i].1 == Frequency(inventory, data[i].0) && data[i].1 >= 1
    {
      assert data[i] in multiset(entries);
      var m :| 0 <= m < |entries| && entries[m] == data[i];
      FrequencyPositive(inventory, order[m]);
    }
  }

  /** No two entries share a category. */
  predicate KeysDistinct(data: seq<Entry>) {
    forall i, j :: 0 <= i < j < |data| ==> data[i].0 != data[j].0
  }

  /** Reordering entries keeps their categories distinct. */
  lemma PermutationKeepsKeysDistinct(a: seq<Entry>, b: seq<Entry>)
    requires multiset(a) == multiset(b) && KeysDistinct(a)
    ensures KeysDistinct(b)
  {
    assert Distinct(a) by {
      forall i, j | 0 <= i < j < |a| ensures a[i] != a[j] {
        assert a[i].0 != a[j].0;
      }
    }
    DistinctPermutation(a, b);
    forall i, j | 0 <= i < j < |b| ensures b[i].0 != b[j].0 {
      assert b[i] in multiset(a) && b[j] in multiset(a);
      var x :| 0 <= x < |a| && a[x] == b[i];
      var y :| 0 <= y < |a| && a[y] == b[j];
      assert x != y;
    }
  }

  /** No category is kept twice. */
  lemma TopFiveDistinct(counts: map<string, int>, order: seq<string>)
    requires forall c :: c in order ==> c in counts
    requires Distinct(order)
    ensures KeysDistinct(TopFive(Entries(counts, order)))
  {
    var entries := Entries(counts, order);
    var sorted := SortDesc(entries, CountOf);
    var data := TopFive(entries);
    PermutationKeepsKeysDistinct(entries, sorted);
    assert data == Take(sorted, 5);
    forall i, j | 0 <= i < j < |data| ensures data[i].0 != data[j].0 {
      assert data[i] == sorted[i] && data[j] == sorted[j];
    }
  }

  /** In a list sorted by count, an entry whose category the first five do
      not carry counts no more than any of them. */
  lemma TakeOmitted(sorted: seq<Entry>, e: Entry)
    requires SortedDesc(sorted, CountOf) && e in sorted
    requires forall i :: 0 <= i < |Take(sorted, 5)| ==> Take(sorted, 5)[i].0 != e.0
    ensures forall i :: 0 <= i < |Take(sorted, 5)| ==> Take(sorted, 5)[i].1 >= e.1
  {
    var data := Take(sorted, 5);
    TakeOfSortedIsTop(sorted, 5, CountOf);
    var j :| 0 <= j < |sorted| && sorted[j] == e;
    assert j >= |data| by {
      assert forall i :: 0 <= i < |data| ==> data[i] == sorted[i];
    }
    assert CountOf(sorted[j]) == e.1;
  }

  /** A category left out is no more frequent than any category kept. */
  lemma {:induction false} TopFiveOmitted(inventory: seq<Item>, counts: map<string, int>, order: seq<string>)
    requires CountsOf(inventory, counts, order)
    ensures var data := TopFive(Entries(counts, order));
            forall c :: c in Categories(inventory) && (forall i :: 0 <= i < |data| ==> data[i].0 != c) ==>
              forall i :: 0 <= i < |data| ==> data[i].1 >= Frequency(inventory, c)
  {
    var entries := Entries(counts, order);
    var sorted := SortDesc(entries, CountOf);
    var data := TopFive(entries);
    assert data == Take(sorted, 5);
    forall c | c in Categories(inventory) && (forall i :: 0 <= i < |data| ==> data[i].0 != c)
      ensures forall i :: 0 <= i < |data| ==> data[i].1 >= Frequency(inventory, c)
    {
      var m :| 0 <= m < |order| && order[m] == c;
      assert entries[m] in multiset(sorted);
      TakeOmitted(sorted, entries[m]);
    }
  }

  /** `getCategoryData()`: counts the items per category in a map (new
      categories are appended in order of first appearance), sorts the
      entries by count, largest first, and keeps the first five. Each
      category appears at most once with its exact frequency, and every
      category left out is no more frequent than any kept. */
  method CategoryData(inventory: seq<Item>) returns (data: seq<Entry>)
    ensures |data| == Min(5, |Categories(inventory)|)
    ensures ByCountDesc(data)
    ensures forall i :: 0 <= i < |data| ==> data[i].1 == Frequency(inventory, data[i].0) && data[i].1 >= 1
    ensures forall i, j :: 0 <= i < j < |data| ==> data[i].0 != data[j].0
    ensures forall c :: c in Categories(inventory) && (forall i :: 0 <= i < |data| ==> data[i].0 != c) ==>
              forall i :: 0 <= i < |data| ==> data[i].1 >= Frequency(inventory, c)
  {
    var counts, order := CountByCategory(inventory);
    TallyCounts(inventory);
    data := TopFive(Entries(counts, order));
    TopFiveCounts(inventory, counts, order);
    TopFiveDistinct(counts, order);
    TopFiveOmitted(inventory, counts, order);
  }

  /** `maxCategoryCount`: `Math.max(...counts, 1)`. */
  function MaxCount(data: seq<Entry>): (m: int)
    ensures m >= 1
    ensures forall i :: 0 <= i < |data| ==> data[i].1 <= m
    ensures m == 1 || exists i :: 0 <= i < |data| && data[i].1 == m
  {
    if data == [] then 1
    else
      var rest := MaxCount(data[1..]);
      assert forall i :: 1 <= i < |data| ==> data[i] == data[1..][i - 1];
      Max(data[0].1, rest)
  }

  /** A bar's width in percent: `(count / maxCategoryCount) * 100`. */
  function BarPercentage(count: int, maxCount: int): real
    requires maxCount >= 1
  {
    (count as real / maxCount as real) * 100.0
  }

  /** A count between 1 and the maximum gets a bar wider than 0% and at
      most 100%; the maximum itself gets exactly 100%. */
  lemma PercentageBounds(count: int, maxCount: int)
    requires 1 <= count <= maxCount
    ensures 0.0 < BarPercentage(count, maxCount) <= 100.0
    ensures count == maxCount ==> BarPercentage(count, maxCount) == 100.0
  {
    var q := count as real / maxCount as real;
    assert q * maxCount as real == count as real;
    assert q > 1.0 ==> q * maxCount as real > 1.0 * maxCount as real;
  }

  /** Every bar of the histogram is wider than 0% and at most 100%, and the
      first (largest) one is exactly 100%. */
  lemma BarsWithinRange(data: seq<Entry>)
    requires ByCountDesc(data)
    requires forall i :: 0 <= i < |data| ==> data[i].1 >= 1
    ensures forall i :: 0 <= i < |data| ==>
              0.0 < BarPercentage(data[i].1, MaxCount(data)) <= 100.0
    ensures data != [] ==> BarPercentage(data[0].1, MaxCount(data)) == 100.0
  {
    var m := MaxCount(data);
    forall i | 0 <= i < |data| ensures 0.0 < BarPercentage(data[i].1, m) <= 100.0 {
      PercentageBounds(data[i].1, m);
    }
    if data != [] {
      assert data[0].1 == m by {
        if m != 1 {
          var i :| 0 <= i < |data| && data[i].1 == m;
          assert data[0].1 >= data[i].1;
        }
      }
      PercentageBounds(data[0].1, m);
    }
  }

  // ---------------------------------------------------------------------
  // Relative time
  // ---------------------------------------------------------------------

  /** The label `formatDate` picks. `CalendarDate` is the locale date shown
      for anything a week old or older; `NoDate` is the empty label for a
      missing timestamp. */
  datatype RelativeTime = NoDate | JustNow | Minutes(n: int) | Hours(n: int) | Days(n: int) | CalendarDate

  /** `formatDate(timestamp)`: elapsed minutes, hours and days are floored,
      and the thresholds are tested in the order minute, hour, day, week. */
  function FormatDate(timestamp: Option<int>, now: int): (r: RelativeTime)
    ensures timestamp.None? <==> r.NoDate?
    ensures timestamp.Some? ==>
              var diffMs := now - timestamp.value * 1000;
              (r.JustNow? <==> diffMs < 60000) &&
              (r.Minutes? ==> 1 <= r.n < 60 && r.n * 60000 <= diffMs < (r.n + 1) * 60000) &&
              (r.Hours? ==> 1 <= r.n < 24 && r.n * 3600000 <= diffMs < (r.n + 1) * 3600000) &&
              (r.Days? ==> 1 <= r.n < 7 && r.n * 86400000 <= diffMs < (r.n + 1) * 86400000) &&
              (r.CalendarDate? <==> diffMs >= 7 * 86400000)
  {
    match timestamp
    case None => NoDate
    case Some(seconds) =>
      var diffMs := now - seconds * 1000;
      var diffMins := diffMs / 60000;
      var diffHours := diffMs / 3600000;
      var diffDays := diffMs / 86400000;
      if diffMins < 1 then JustNow
      else if diffMins < 60 then Minutes(diffMins)
      else if diffHours < 24 then Hours(diffHours)
      else if diffDays < 7 then Days(diffDays)
      else CalendarDate
  }

  /** The text of a label; the locale date is outside the model. */
  function Label(r: RelativeTime): string {
    match r
    case NoDate => ""
    case JustNow => "Hace un momento"
    case Minutes(n) => "Hace " + IntToString(n) + " min"
    case Hours(n) => "Hace " + IntToString(n) + "h"
    case Days(n) => "Hace " + IntToString(n) + "d"
    case CalendarDate => ""
  }

  /** How coarse a label is. */
  function Coarseness(r: RelativeTime): int {
    match r
    case NoDate => 0
    case JustNow => 0
    case Minutes(_) => 1
    case Hours(_) => 2
    case Days(_) => 3
    case CalendarDate => 4
  }

  /** An older timestamp never gets a finer label. */
  lemma FormatDateMonotone(older: int, newer: int, now: int)
    requires older <= newer
    ensures Coarseness(FormatDate(Some(older), now)) >= Coarseness(FormatDate(Some(newer), now))
  {
  }
}
