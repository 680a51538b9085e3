/** The audit page (app/audit.py) and the activity timelines (app/events.py): two queries
    fetched to a depth, merged, sorted newest first and sliced. */
module AuditPaging {
  import opened Outcomes
  import opened Sorting

  const DAY := 86400

  /** Moments are seconds; a calendar date is a number of days. */
  datatype Entry = Entry(id: nat, createdAt: Option<int>)
  datatype Expense = Expense(id: nat, date: int, createdAt: Option<int>)

  datatype Row = Action(entry: Entry) | Spend(expense: Expense)

  function TimeOfDay(at: int): int { at % DAY }

  /** `sort_at`: an action's time of recording; an expense's own date at the time of day it
      was recorded. */
  function SortAt(row: Row, today: int): int {
    match row
    case Action(e) => if e.createdAt.Some? then e.createdAt.value else today * DAY
    case Spend(x) => x.date * DAY + (if x.createdAt.Some? then TimeOfDay(x.createdAt.value) else 0)
  }

  /** `sorted(..., reverse=True)` on `sort_at`: rows that compare equal keep their order. */
  function Newest(today: int): (Row, Row) -> bool { (a, b) => SortAt(a, today) >= SortAt(b, today) }

  lemma NewestIsPreorder(today: int)
    ensures TotalPreorder(Newest(today))
  {
  }

  function ActionRows(entries: seq<Entry>): (rows: seq<Row>)
    ensures |rows| == |entries|
  {
    seq(|entries|, i requires 0 <= i < |entries| => Action(entries[i]))
  }

  function ExpenseRows(expenses: seq<Expense>): (rows: seq<Row>)
    ensures |rows| == |expenses|
  {
    seq(|expenses|, i requires 0 <= i < |expenses| => Spend(expenses[i]))
  }

  /** `build_audit_rows`. */
  /** The day a row is shown under: an expense's own date, an action's day of recording. */
  function DayOf(row: Row, today: int): int {
    match row
    case Action(e) => if e.createdAt.Some? then e.createdAt.value / 86400 else today
    case Spend(x) => x.date
  }

  /** Seconds into the day of recording; midnight where nothing was recorded. */
  function SecondOf(row: Row): int {
    var at := if row.Action? then row.entry.createdAt else row.expense.createdAt;
    if at.Some? then at.value % 86400 else 0
  }

  /** Rows of both kinds go by the day they are shown under, the latest first, and within a
      day by the time of day they were recorded at. */
  lemma NewestMeans(a: Row, b: Row, today: int)
    ensures Newest(today)(a, b) <==>
              || DayOf(a, today) > DayOf(b, today)
              || (DayOf(a, today) == DayOf(b, today) && SecondOf(a) >= SecondOf(b))
  {
    SortAtSplit(a, today);
    SortAtSplit(b, today);
    hide SortAt, DayOf, SecondOf;
  }

  lemma SortAtSplit(row: Row, today: int)
    ensures SortAt(row, today) == DayOf(row, today) * 86400 + SecondOf(row) && 0 <= SecondOf(row) < 86400
  {
  }

  method BuildAuditRows(entries: seq<Entry>, expenses: seq<Expense>, today: int) returns (rows: seq<Row>)
    ensures SortedBy(Newest(today), rows)
    ensures multiset(rows) == multiset(ActionRows(entries) + ExpenseRows(expenses))
    ensures rows == Sort(Newest(today), ActionRows(entries) + ExpenseRows(expenses))
  {
    hide Newest, Sort, TotalPreorder, SortedBy;
    rows := [];
    for i := 0 to |entries|
      invariant rows == ActionRows(entries[..i])
    {
      rows := rows + [Action(entries[i])];
      assert entries[..i + 1] == entries[..i] + [entries[i]];
    }
    assert entries[..|entries|] == entries;
    for i := 0 to |expenses|
      invariant rows == ActionRows(entries) + ExpenseRows(expenses[..i])
    {
      rows := rows + [Spend(expenses[i])];
      assert expenses[..i + 1] == expenses[..i] + [expenses[i]];
    }
    assert expenses[..|expenses|] == expenses;
    NewestIsPreorder(today);
    SortSorts(Newest(today), rows);
    rows := Sort(Newest(today), rows);
  }

  /** Python's xs[start:start + size]. */
  function Slice<T>(xs: seq<T>, start: nat, size: nat): seq<T> {
    if start <= |xs| then Take(xs[start..], size) else []
  }

  // ------------------------------------------------------------------------ app/paging

  /** `max(1, -(-total // per_page)) if total else 0` */
  function PageCount(total: nat, perPage: nat): nat
    requires perPage > 0
  {
    if total == 0 then 0 else (total + perPage - 1) / perPage
  }

  datatype ListPage<T> = ListPage(items: seq<T>, page: nat, perPage: nat, total: nat) {
    function Pages(): nat
      requires perPage > 0
    {
      PageCount(total, perPage)
    }

    predicate HasPrev() { page > 1 }

    predicate HasNext()
      requires perPage > 0
    {
      page < Pages()
    }
  }

  /** The page number asked for, junk counting as 1. */
  function PageArg(raw: Option<int>): nat { if raw.Some? && raw.value > 1 then raw.value else 1 }

  datatype Kind = All | Actions | Expenses

  /** `audit_trail`. `entries` and `expenses` are what the two filtered queries would
      return without a limit, in query order; `expensesShown` is false under the filter of
      a module no expense belongs to. */
  method AuditTrail(kind: Kind, expensesShown: bool, entries: seq<Entry>, expenses: seq<Expense>,
                    rawPage: Option<int>, perPage: nat, today: int) returns (page: ListPage<Row>)
    requires perPage > 0
    ensures page.page == PageArg(rawPage) && page.perPage == perPage
    ensures page.page as int == (if rawPage.Some? && rawPage.value >= 1 then rawPage.value else 1)
    ensures var a := if kind == Expenses then [] else ActionRows(entries);
      var b := if kind == Actions || !expensesShown then [] else ExpenseRows(expenses);
      page.total == |a| + |b| && page.items == PageItems(Newest(today), a, b, PageArg(rawPage), perPage)
  {
    hide *;
    var number := PageArg(rawPage);
    PageArgIsPositive(rawPage);
    var depth := number * perPage;
    var left, right, total := [], [], 0;
    TakeNothing<Row>(depth);
    NoRows();
    TakeRows(entries, expenses, depth);
    if kind == All || kind == Actions {
      total := total + |entries|;
      left := Take(entries, depth);
    }
    if (kind == All || kind == Expenses) && expensesShown {
      total := total + |expenses|;
      right := Take(expenses, depth);
    }
    var rows := BuildAuditRows(left, right, today);
    var start := (number - 1) * perPage;
    page := ListPage(Slice(rows, start, perPage), number, perPage, total);
    PageIsSlice(Newest(today), if kind == Expenses then [] else ActionRows(entries),
                if kind == Actions || !expensesShown then [] else ExpenseRows(expenses), number, perPage);
  }

  lemma PageArgIsPositive(raw: Option<int>)
    ensures PageArg(raw) >= 1
    ensures PageArg(raw) as int == (if raw.Some? && raw.value >= 1 then raw.value else 1)
  {
  }

  lemma PageIsSlice<T>(leq: (T, T) -> bool, a: seq<T>, b: seq<T>, n: nat, size: nat)
    requires n >= 1
    ensures PageItems(leq, a, b, n, size)
         == Slice(Sort(leq, Take(a, n * size) + Take(b, n * size)), (n - 1) * size, size)
  {
  }

  lemma TakeRows(entries: seq<Entry>, expenses: seq<Expense>, d: nat)
    ensures ActionRows(Take(entries, d)) == Take(ActionRows(entries), d)
    ensures ExpenseRows(Take(expenses, d)) == Take(ExpenseRows(expenses), d)
  {
  }

  lemma TakeNothing<T>(d: nat)
    ensures Take<T>([], d) == []
  {
  }

  lemma NoRows()
    ensures ActionRows([]) == [] && ExpenseRows([]) == []
  {
  }

  /** Page n of two sources, each fetched to depth n * size. */
  function PageItems<T>(leq: (T, T) -> bool, a: seq<T>, b: seq<T>, n: nat, size: nat): seq<T>
    requires n >= 1
  {
    Slice(Sort(leq, Take(a, n * size) + Take(b, n * size)), (n - 1) * size, size)
  }

  /** The same page cut out of the full merged list. */
  function TruePage<T>(leq: (T, T) -> bool, a: seq<T>, b: seq<T>, n: nat, size: nat): seq<T>
    requires n >= 1
  {
    Slice(Sort(leq, a + b), (n - 1) * size, size)
  }

  // --------------------------------------------------- sorting commutes with filtering

  function Filter<T>(p: T -> bool, xs: seq<T>): seq<T> {
    if xs == [] then [] else if p(xs[0]) then [xs[0]] + Filter(p, xs[1..]) else Filter(p, xs[1..])
  }

  lemma {:induction false} FilterKeeps<T>(p: T -> bool, xs: seq<T>, x: T)
    ensures x in Filter(p, xs) <==> x in xs && p(x)
  {
    if xs != [] {
      FilterKeeps(p, xs[1..], x);
    }
  }

  lemma FilterCons<T>(p: T -> bool, x: T, xs: seq<T>)
    ensures Filter(p, [x] + xs) == if p(x) then [x] + Filter(p, xs) else Filter(p, xs)
  {
    assert ([x] + xs)[1..] == xs;
  }

  /** Inserting before something that nothing of the list precedes puts it first. */
  lemma InsertFirst<T>(leq: (T, T) -> bool, x: T, ys: seq<T>)
    requires ys == [] || leq(x, ys[0])
    ensures Insert(leq, x, ys) == [x] + ys
  {
  }

  lemma InsertLater<T>(leq: (T, T) -> bool, x: T, y: T, ys: seq<T>)
    requires !leq(x, y)
    ensures Insert(leq, x, [y] + ys) == [y] + Insert(leq, x, ys)
  {
    assert ([y] + ys)[1..] == ys;
  }

  lemma BelowAll<T(!new)>(leq: (T, T) -> bool, x: T, ys: seq<T>, y: T)
    requires TotalPreorder(leq) && SortedBy(leq, ys) && ys != [] && leq(x, ys[0]) && y in ys
    ensures leq(x, y)
  {
    var k :| 0 <= k < |ys| && ys[k] == y;
    Preorder(leq, x, ys[0], ys[k]);
    hide TotalPreorder;
  }

  lemma {:induction false} FilterInsert<T(!new)>(leq: (T, T) -> bool, p: T -> bool, x: T, ys: seq<T>)
    requires TotalPreorder(leq) && SortedBy(leq, ys)
    ensures Filter(p, Insert(leq, x, ys)) == if p(x) then Insert(leq, x, Filter(p, ys)) else Filter(p, ys)
  {
    hide Filter, Insert, TotalPreorder, SortedBy;
    if ys == [] {
      InsertFirst(leq, x, ys);
      FilterCons(p, x, []);
      FilterNone(p);
      InsertFirst(leq, x, []);
    } else if leq(x, ys[0]) {
      InsertFirst(leq, x, ys);
      FilterCons(p, x, ys);
      var kept := Filter(p, ys);
      if kept != [] {
        FilterKeeps(p, ys, kept[0]);
        BelowAll(leq, x, ys, kept[0]);
      }
      InsertFirst(leq, x, kept);
    } else {
      assert ys == [ys[0]] + ys[1..];
      SortedTail(leq, ys);
      InsertLater(leq, x, ys[0], ys[1..]);
      FilterInsert(leq, p, x, ys[1..]);
      FilterCons(p, ys[0], Insert(leq, x, ys[1..]));
      FilterCons(p, ys[0], ys[1..]);
      InsertLater(leq, x, ys[0], Filter(p, ys[1..]));
    }
  }

  lemma FilterNone<T>(p: T -> bool)
    ensures Filter(p, []) == []
  {
  }

  lemma SortedTail<T(!new)>(leq: (T, T) -> bool, ys: seq<T>)
    requires SortedBy(leq, ys) && ys != []
    ensures SortedBy(leq, ys[1..])
  {
  }

  lemma {:induction false} FilterSort<T(!new)>(leq: (T, T) -> bool, p: T -> bool, xs: seq<T>)
    requires TotalPreorder(leq)
    ensures Filter(p, Sort(leq, xs)) == Sort(leq, Filter(p, xs))
  {
    hide Filter, Insert, TotalPreorder, SortedBy;
    if xs == [] {
      FilterNone(p);
    } else {
      var rest := xs[1..];
      assert xs == [xs[0]] + rest;
      FilterSort(leq, p, rest);
      SortSorts(leq, rest);
      FilterInsert(leq, p, xs[0], Sort(leq, rest));
      FilterCons(p, xs[0], rest);
      SortCons(leq, xs[0], Filter(p, rest));
    }
  }

  lemma SortCons<T>(leq: (T, T) -> bool, x: T, xs: seq<T>)
    ensures Sort(leq, [x] + xs) == Insert(leq, x, Sort(leq, xs))
  {
    assert ([x] + xs)[1..] == xs;
  }

  lemma {:induction false} FilterAppend<T>(p: T -> bool, xs: seq<T>, ys: seq<T>)
    ensures Filter(p, xs + ys) == Filter(p, xs) + Filter(p, ys)
  {
    hide Filter;
    if xs == [] {
      FilterNone(p);
      assert [] + ys == ys;
    } else {
      var rest := xs[1..];
      assert xs == [xs[0]] + rest && xs + ys == [xs[0]] + (rest + ys);
      FilterAppend(p, rest, ys);
      FilterCons(p, xs[0], rest + ys);
      FilterCons(p, xs[0], rest);
    }
  }

  lemma {:induction false} FilterAll<T>(p: T -> bool, xs: seq<T>)
    requires forall i :: 0 <= i < |xs| ==> p(xs[i])
    ensures Filter(p, xs) == xs
  {
    if xs != [] {
      FilterAll(p, xs[1..]);
    }
  }

  lemma {:induction false} FilterNoneOf<T>(p: T -> bool, xs: seq<T>)
    requires forall i :: 0 <= i < |xs| ==> !p(xs[i])
    ensures Filter(p, xs) == []
  {
    if xs != [] {
      FilterNoneOf(p, xs[1..]);
    }
  }

  lemma {:induction false} FilterShorter<T>(p: T -> bool, xs: seq<T>)
    ensures |Filter(p, xs)| <= |xs|
  {
    if xs != [] {
      FilterShorter(p, xs[1..]);
    }
  }

  ghost predicate Distinct<T(!new)>(xs: seq<T>) { forall i, j :: 0 <= i < j < |xs| ==> xs[i] != xs[j] }

  /** If filtering leaves the k-th element in place, nothing before it was filtered out. */
  lemma {:induction false} FilterStill<T(!new)>(p: T -> bool, xs: seq<T>, k: nat)
    requires Distinct(xs) && k < |Filter(p, xs)| && k < |xs| && Filter(p, xs)[k] == xs[k]
    ensures forall i :: 0 <= i <= k ==> p(xs[i])
  {
    var rest := xs[1..];
    if p(xs[0]) {
      if k > 0 {
        FilterStill(p, rest, k - 1);
        forall i | 0 <= i <= k ensures p(xs[i]) {
          assert i > 0 ==> xs[i] == rest[i - 1];
        }
      }
    } else {
      FilterMoves(p, rest, k);
      assert false;
    }
  }

  /** The k-th element that passes a filter sits at or after place k. */
  lemma {:induction false} FilterMoves<T(!new)>(p: T -> bool, xs: seq<T>, k: nat)
    requires k < |Filter(p, xs)|
    ensures exists j :: k <= j < |xs| && xs[j] == Filter(p, xs)[k]
  {
    var rest := xs[1..];
    if p(xs[0]) {
      if k > 0 {
        FilterMoves(p, rest, k - 1);
        var j :| k - 1 <= j < |rest| && rest[j] == Filter(p, rest)[k - 1];
        assert xs[j + 1] == Filter(p, xs)[k];
      }
    } else {
      FilterMoves(p, rest, k);
      var j :| k <= j < |rest| && rest[j] == Filter(p, rest)[k];
      assert xs[j + 1] == Filter(p, xs)[k];
    }
  }

  // ------------------------------------------------------------- when a page is exact

  /** Where a slice of xs ends. */
  function End<T>(xs: seq<T>, start: nat, size: nat): nat {
    if start + size <= |xs| then start + size else |xs|
  }

  lemma SliceIs<T>(xs: seq<T>, start: nat, size: nat)
    requires start <= |xs|
    ensures Slice(xs, start, size) == xs[start..End(xs, start, size)]
  {
  }

  lemma UnfilteredSlice<T>(p: T -> bool, xs: seq<T>, start: nat, size: nat)
    requires start < |xs| && forall i :: 0 <= i < End(xs, start, size) ==> p(xs[i])
    ensures Slice(Filter(p, xs), start, size) == Slice(xs, start, size)
  {
    var d := End(xs, start, size);
    assert xs == xs[..d] + xs[d..];
    FilterAppend(p, xs[..d], xs[d..]);
    FilterAll(p, xs[..d]);
    FilterShorter(p, xs);
    hide Filter, Slice;
    SliceIs(xs, start, size);
    SliceIs(Filter(p, xs), start, size);
  }

  lemma SameSlice<T(!new)>(p: T -> bool, xs: seq<T>, start: nat, size: nat)
    requires Distinct(xs) && size > 0 && start < |xs|
    requires Slice(Filter(p, xs), start, size) == Slice(xs, start, size)
    ensures forall i :: 0 <= i < End(xs, start, size) ==> p(xs[i])
  {
    var d, kept := End(xs, start, size), Filter(p, xs);
    SliceIs(xs, start, size);
    assert |xs[start..d]| > 0;
    if start <= |kept| {
      SliceIs(kept, start, size);
      hide Filter, Slice;
      assert xs[start..d][d - 1 - start] == xs[d - 1];
      assert |kept[start..End(kept, start, size)]| == d - start;
      assert kept[start..End(kept, start, size)][d - 1 - start] == kept[d - 1];
      FilterStill(p, xs, d - 1);
    }
  }

  /** Everything before place d passes. */
  ghost predicate Passes<T(!new)>(p: T -> bool, xs: seq<T>, d: nat) {
    forall i :: 0 <= i < |xs| && i < d ==> p(xs[i])
  }

  /** A slice of the filtered list is the slice of the list exactly if everything up to
      its end passes the filter. */
  lemma SliceOfFilter<T(!new)>(p: T -> bool, xs: seq<T>, start: nat, size: nat)
    requires Distinct(xs) && size > 0 && start < |xs|
    ensures Slice(Filter(p, xs), start, size) == Slice(xs, start, size) <==> Passes(p, xs, start + size)
  {
    hide Filter, Slice, Distinct;
    if Slice(Filter(p, xs), start, size) == Slice(xs, start, size) {
      SameSlice(p, xs, start, size);
    }
    if Passes(p, xs, start + size) {
      UnfilteredSlice(p, xs, start, size);
    }
  }

  /** The row was fetched: it is within the depth of its own query. */
  predicate Fetched<T(==)>(a: seq<T>, b: seq<T>, depth: nat, x: T) { x in Take(a, depth) || x in Take(b, depth) }

  function FetchedOf<T(==)>(a: seq<T>, b: seq<T>, depth: nat): T -> bool { x => Fetched(a, b, depth, x) }

  /** What is fetched is the two lists filtered to it. */
  lemma FetchedIsFilter<T(!new)>(a: seq<T>, b: seq<T>, depth: nat)
    requires Distinct(a + b)
    ensures Filter(FetchedOf(a, b, depth), a + b) == Take(a, depth) + Take(b, depth)
  {
    var p := FetchedOf(a, b, depth);
    FetchedPart(a, b, depth, a);
    FetchedPart(a, b, depth, b);
    FilterAppend(p, a, b);
  }

  lemma FetchedPart<T(!new)>(a: seq<T>, b: seq<T>, depth: nat, part: seq<T>)
    requires Distinct(a + b) && (part == a || part == b)
    ensures Filter(FetchedOf(a, b, depth), part) == Take(part, depth)
  {
    var p := FetchedOf(a, b, depth);
    var d := if depth <= |part| then depth else |part|;
    assert part == part[..d] + part[d..] && Take(part, depth) == part[..d];
    FilterAppend(p, part[..d], part[d..]);
    FilterAll(p, part[..d]);
    forall i | 0 <= i < |part[d..]| ensures !p(part[d..][i]) {
      NotFetched(a, b, depth, part == a, d + i);
    }
    FilterNoneOf(p, part[d..]);
  }

  /** A row beyond the depth of its own query is not fetched by the other. */
  lemma NotFetched<T(!new)>(a: seq<T>, b: seq<T>, depth: nat, left: bool, i: nat)
    requires Distinct(a + b) && depth <= i && i < |if left then a else b|
    ensures !Fetched(a, b, depth, (if left then a else b)[i])
  {
    var x := (if left then a else b)[i];
    var k := if left then i else |a| + i;
    assert (a + b)[k] == x;
    forall j | 0 <= j < |Take(a, depth)| ensures Take(a, depth)[j] != x {
      assert (a + b)[j] == a[j];
    }
    forall j | 0 <= j < |Take(b, depth)| ensures Take(b, depth)[j] != x {
      assert (a + b)[|a| + j] == b[j];
    }
  }

  lemma {:induction false} DistinctPermutes<T(!new)>(xs: seq<T>, ys: seq<T>)
    requires Distinct(xs) && multiset(xs) == multiset(ys)
    ensures Distinct(ys)
  {
    forall i, j | 0 <= i < j < |ys| ensures ys[i] != ys[j] {
      if ys[i] == ys[j] {
        CountedTwice(ys, ys[i]);
        CountedTwice(xs, ys[i]);
      }
    }
  }

  /** Every row ranked before the end of the page was fetched. */
  ghost predicate TopFetched<T(!new)>(leq: (T, T) -> bool, a: seq<T>, b: seq<T>, depth: nat) {
    forall i :: 0 <= i < |a| + |b| && i < depth ==> Fetched(a, b, depth, Sort(leq, a + b)[i])
  }

  lemma PageWithin<T(!new)>(leq: (T, T) -> bool, a: seq<T>, b: seq<T>, start: nat, size: nat)
    requires TotalPreorder(leq) && Distinct(a + b) && size >= 1 && start < |a| + |b|
    ensures Slice(Sort(leq, Take(a, start + size) + Take(b, start + size)), start, size)
         == Slice(Sort(leq, a + b), start, size)
       <==> TopFetched(leq, a, b, start + size)
  {
    hide *;
    var depth := start + size;
    var p, all := FetchedOf(a, b, depth), Sort(leq, a + b);
    FetchedSorted(leq, a, b, depth);
    SortSorts(leq, a + b);
    DistinctPermutes(a + b, all);
    TopPasses(leq, a, b, depth);
    SliceOfFilter(p, all, start, size);
  }

  lemma FetchedSorted<T(!new)>(leq: (T, T) -> bool, a: seq<T>, b: seq<T>, depth: nat)
    requires TotalPreorder(leq) && Distinct(a + b)
    ensures Sort(leq, Take(a, depth) + Take(b, depth)) == Filter(FetchedOf(a, b, depth), Sort(leq, a + b))
  {
    hide Filter, Sort, TotalPreorder, Take, Distinct, FetchedOf;
    FetchedIsFilter(a, b, depth);
    FilterSort(leq, FetchedOf(a, b, depth), a + b);
  }

  lemma TopPasses<T(!new)>(leq: (T, T) -> bool, a: seq<T>, b: seq<T>, depth: nat)
    ensures var all, p := Sort(leq, a + b), FetchedOf(a, b, depth);
      TopFetched(leq, a, b, depth) <==> Passes(p, all, depth)
  {
    hide Sort, Fetched;
  }

  lemma PageBeyond<T(!new)>(leq: (T, T) -> bool, a: seq<T>, b: seq<T>, start: nat, size: nat)
    requires TotalPreorder(leq) && start >= |a| + |b|
    ensures Slice(Sort(leq, Take(a, start + size) + Take(b, start + size)), start, size)
         == Slice(Sort(leq, a + b), start, size)
    ensures TopFetched(leq, a, b, start + size)
  {
    var all := Sort(leq, a + b);
    SortSorts(leq, a + b);
    assert Take(a, start + size) == a && Take(b, start + size) == b;
    forall i | 0 <= i < |all| ensures all[i] in a || all[i] in b {
      assert all[i] in multiset(all);
      assert all[i] in a + b;
    }
    hide Sort, TotalPreorder, Slice;
  }

  /** Page n is the page of the full merged list exactly if every row ranked up to its end
      was fetched, that is, lies within n * size of the top of its own query. */
  lemma PageExactIff<T(!new)>(leq: (T, T) -> bool, a: seq<T>, b: seq<T>, n: nat, size: nat)
    requires TotalPreorder(leq) && Distinct(a + b) && n >= 1 && size >= 1
    ensures PageItems(leq, a, b, n, size) == TruePage(leq, a, b, n, size) <==> TopFetched(leq, a, b, n * size)
  {
    var start := (n - 1) * size;
    assert start + size == n * size;
    hide TotalPreorder, Sort, Slice, TopFetched, Distinct, Take;
    if start < |a| + |b| {
      PageWithin(leq, a, b, start, size);
    } else {
      PageBeyond(leq, a, b, start, size);
    }
  }

  // --------------------------------------------------------- sources in the right order

  lemma SortedSliceExact<T(!new)>(leq: (T, T) -> bool, a: seq<T>, b: seq<T>, start: nat, size: nat)
    requires TotalPreorder(leq) && SortedBy(leq, a) && SortedBy(leq, b)
    ensures Slice(Sort(leq, Take(a, start + size) + Take(b, start + size)), start, size)
         == Slice(Sort(leq, a + b), start, size)
  {
    hide Sort, SortedBy, TotalPreorder, Slice, Take;
    SortedTops(leq, a, b, start + size);
    SliceOfPrefix(Sort(leq, Take(a, start + size) + Take(b, start + size)), Sort(leq, a + b), start, size);
  }

  lemma SortedTops<T(!new)>(leq: (T, T) -> bool, a: seq<T>, b: seq<T>, d: nat)
    requires TotalPreorder(leq) && SortedBy(leq, a) && SortedBy(leq, b)
    ensures Take(Sort(leq, Take(a, d) + Take(b, d)), d) == Take(Sort(leq, a + b), d)
  {
    SortedTake(leq, a, d);
    SortedTake(leq, b, d);
    SortIsMerge(leq, a, b);
    SortIsMerge(leq, Take(a, d), Take(b, d));
    MergePrefix(leq, a, b, d, d, d);
    hide *;
  }

  /** Sources already in order: every page is exact, whatever its number and size. */
  lemma SortedPagesExact<T(!new)>(leq: (T, T) -> bool, a: seq<T>, b: seq<T>, n: nat, size: nat)
    requires TotalPreorder(leq) && SortedBy(leq, a) && SortedBy(leq, b) && n >= 1
    ensures PageItems(leq, a, b, n, size) == TruePage(leq, a, b, n, size)
  {
    hide Sort, SortedBy, TotalPreorder, Slice, Take;
    assert (n - 1) * size + size == n * size;
    SortedSliceExact(leq, a, b, (n - 1) * size, size);
  }

  lemma SortedTake<T(!new)>(leq: (T, T) -> bool, xs: seq<T>, d: nat)
    requires SortedBy(leq, xs)
    ensures SortedBy(leq, Take(xs, d))
  {
  }

  lemma SliceOfPrefix<T>(xs: seq<T>, ys: seq<T>, start: nat, size: nat)
    requires Take(xs, start + size) == Take(ys, start + size)
    ensures Slice(xs, start, size) == Slice(ys, start, size)
  {
    assert Slice(xs, start, size) == Slice(Take(xs, start + size), start, size);
    assert Slice(ys, start, size) == Slice(Take(ys, start + size), start, size);
  }

  /** Pages 1 to n, one after the other. */
  function PagesUpTo<T>(leq: (T, T) -> bool, a: seq<T>, b: seq<T>, n: nat, size: nat): seq<T> {
    if n == 0 then [] else PagesUpTo(leq, a, b, n - 1, size) + PageItems(leq, a, b, n, size)
  }

  lemma {:induction false} PagesArePrefix<T(!new)>(leq: (T, T) -> bool, a: seq<T>, b: seq<T>, n: nat, size: nat)
    requires TotalPreorder(leq) && SortedBy(leq, a) && SortedBy(leq, b)
    ensures PagesUpTo(leq, a, b, n, size) == Take(Sort(leq, a + b), n * size)
  {
    hide Sort, SortedBy, TotalPreorder, PageItems, Slice, Take;
    TakeNone(Sort(leq, a + b));
    if n > 0 {
      PagesArePrefix(leq, a, b, n - 1, size);
      SortedPagesExact(leq, a, b, n, size);
      OnePageOn(n, size);
      TakeThenSlice(Sort(leq, a + b), (n - 1) * size, size);
    }
  }

  lemma OnePageOn(n: nat, size: nat)
    requires n > 0
    ensures (n - 1) * size + size == n * size && (n - 1) * size >= 0
  {
  }

  lemma TakeNone<T>(xs: seq<T>)
    ensures Take(xs, 0) == []
  {
  }

  lemma TakeThenSlice<T>(xs: seq<T>, start: nat, size: nat)
    ensures Take(xs, start) + Slice(xs, start, size) == Take(xs, start + size)
  {
  }

  /** The pages there are show every row of both sources exactly once, newest first. */
  lemma PagesShowEveryRowOnce<T(!new)>(leq: (T, T) -> bool, a: seq<T>, b: seq<T>, size: nat)
    requires TotalPreorder(leq) && SortedBy(leq, a) && SortedBy(leq, b) && size > 0
    ensures var pages := PageCount(|a| + |b|, size);
      && PagesUpTo(leq, a, b, pages, size) == Sort(leq, a + b)
      && multiset(PagesUpTo(leq, a, b, pages, size)) == multiset(a) + multiset(b)
  {
    hide Sort, SortedBy, TotalPreorder, PagesUpTo, PageCount;
    var total := |a| + |b|;
    var pages := PageCount(total, size);
    PagesArePrefix(leq, a, b, pages, size);
    SortSorts(leq, a + b);
    EnoughPages(total, size);
    TakeAll(Sort(leq, a + b), pages * size);
  }

  lemma TakeAll<T>(xs: seq<T>, d: nat)
    requires d >= |xs|
    ensures Take(xs, d) == xs
  {
  }

  lemma EnoughPages(total: nat, size: nat)
    requires size > 0
    ensures var pages := PageCount(total, size);
      pages * size >= total && (total > 0 ==> (pages - 1) * size < total) && (total == 0 ==> pages == 0)
  {
    var q, r := (total + size - 1) / size, (total + size - 1) % size;
    assert total + size - 1 == q * size + r;
    assert (q - 1) * size == q * size - size;
  }

  /** "Next" is offered exactly while the next page has rows, and "previous" on every later
      page; on a page that exists the previous one has rows. */
  lemma NextMeansMore<T(!new)>(leq: (T, T) -> bool, a: seq<T>, b: seq<T>, n: nat, size: nat)
    requires n >= 1 && size > 0
    ensures var page: ListPage<T> := ListPage(TruePage(leq, a, b, n, size), n, size, |a| + |b|);
      && (page.HasNext() <==> TruePage(leq, a, b, n + 1, size) != [])
      && (n <= page.Pages() && page.HasPrev() ==> TruePage(leq, a, b, n - 1, size) != [])
  {
    hide Sort, PageCount, Slice;
    var total, sorted := |a| + |b|, Sort(leq, a + b);
    var pages := PageCount(total, size);
    EnoughPages(total, size);
    Reaches(n, pages, size, total);
    OnePageOn(n, size);
    SliceHasRows(sorted, n * size, size);
    if 1 < n <= pages {
      Reaches(n - 1, pages, size, total);
      OnePageOn(n - 1, size);
      SliceHasRows(sorted, (n - 2) * size, size);
    }
  }

  lemma SliceHasRows<T>(xs: seq<T>, start: nat, size: nat)
    requires size > 0
    ensures Slice(xs, start, size) != [] <==> start < |xs|
  {
  }

  lemma Reaches(n: nat, pages: nat, size: nat, total: nat)
    requires pages * size >= total && (total > 0 ==> (pages - 1) * size < total) && (total == 0 ==> pages == 0)
    ensures n < pages <==> n * size < total
  {
    if n < pages {
      assert n * size <= (pages - 1) * size;
    } else {
      assert n * size >= pages * size;
    }
  }

  // -------------------------------------------------------------- what the queries order

  /** `order_by(created_at.desc())` over rows that all have one. */
  ghost predicate ActionOrder(entries: seq<Entry>) {
    && (forall i :: 0 <= i < |entries| ==> entries[i].createdAt.Some?)
    && (forall i, j :: 0 <= i < j < |entries| ==> entries[i].createdAt.value >= entries[j].createdAt.value)
  }

  /** `order_by(expense_date.desc(), created_at.desc())` over rows recorded at some time. */
  ghost predicate ExpenseOrder(expenses: seq<Expense>) {
    && (forall i :: 0 <= i < |expenses| ==> expenses[i].createdAt.Some?)
    && (forall i, j :: 0 <= i < j < |expenses| ==>
          || expenses[i].date > expenses[j].date
          || (expenses[i].date == expenses[j].date && expenses[i].createdAt.value >= expenses[j].createdAt.value))
  }

  lemma ActionsInOrder(entries: seq<Entry>, today: int)
    requires ActionOrder(entries)
    ensures SortedBy(Newest(today), ActionRows(entries))
  {
  }

  /** The query's order of the expenses is the page's order exactly if, among expenses of
      one date, those recorded later were recorded no earlier in the day. */
  lemma ExpensesInOrderIff(expenses: seq<Expense>, today: int)
    requires ExpenseOrder(expenses)
    ensures SortedBy(Newest(today), ExpenseRows(expenses)) <==>
              forall i, j :: 0 <= i < j < |expenses| && expenses[i].date == expenses[j].date ==>
                TimeOfDay(expenses[i].createdAt.value) >= TimeOfDay(expenses[j].createdAt.value)
  {
    var rows := ExpenseRows(expenses);
    forall i, j | 0 <= i < j < |expenses|
      ensures Newest(today)(rows[i], rows[j]) <==>
                expenses[i].date > expenses[j].date
                || TimeOfDay(expenses[i].createdAt.value) >= TimeOfDay(expenses[j].createdAt.value)
    {
      LaterDay(expenses[i], expenses[j], today);
    }
  }

  lemma LaterDay(x: Expense, y: Expense, today: int)
    requires x.createdAt.Some? && y.createdAt.Some? && x.date >= y.date
    ensures SortAt(Spend(x), today) >= SortAt(Spend(y), today) <==>
              x.date > y.date || TimeOfDay(x.createdAt.value) >= TimeOfDay(y.createdAt.value)
  {
  }

  /** Expenses of one date all recorded on one day are in the page's order. */
  lemma SameDayExpensesInOrder(expenses: seq<Expense>, today: int)
    requires ExpenseOrder(expenses)
    requires forall i, j :: 0 <= i < j < |expenses| && expenses[i].date == expenses[j].date ==>
               expenses[i].createdAt.value / DAY == expenses[j].createdAt.value / DAY
    ensures SortedBy(Newest(today), ExpenseRows(expenses))
  {
    forall i, j | 0 <= i < j < |expenses| && expenses[i].date == expenses[j].date
      ensures TimeOfDay(expenses[i].createdAt.value) >= TimeOfDay(expenses[j].createdAt.value)
    {
      LaterSameDay(expenses[i].createdAt.value, expenses[j].createdAt.value);
    }
    ExpensesInOrderIff(expenses, today);
  }

  lemma LaterSameDay(x: int, y: int)
    requires x >= y && x / DAY == y / DAY
    ensures TimeOfDay(x) >= TimeOfDay(y)
  {
  }

  /** Fifty-one expenses of one date: fifty recorded at midnight a day late, one a second
      after midnight on the day. The last belongs first, and page 1 does not have it. */
  function FiftyOne(): seq<Expense> {
    seq(51, i requires 0 <= i < 51 => if i < 50 then Expense(i, 0, Some(DAY)) else Expense(50, 0, Some(1)))
  }

  lemma PageOneMisses(today: int)
    ensures ExpenseOrder(FiftyOne())
    ensures PageItems(Newest(today), [], ExpenseRows(FiftyOne()), 1, 50)
         != TruePage(Newest(today), [], ExpenseRows(FiftyOne()), 1, 50)
  {
    var rows := ExpenseRows(FiftyOne());
    FiftyOneRows(today);
    hide *;
    assert [] + rows == rows;
    NewestIsPreorder(today);
    TopIsLast(Newest(today), rows, 50);
    LastNotFetched(rows, 50);
    PageExactIff(Newest(today), [], rows, 1, 50);
    TopNotFetched(Newest(today), rows, 50);
  }

  lemma FiftyOneRows(today: int)
    ensures ExpenseOrder(FiftyOne())
    ensures var rows := ExpenseRows(FiftyOne());
      && |rows| == 51 && Distinct(rows)
      && forall i :: 0 <= i < 50 ==> !Newest(today)(rows[i], rows[50])
  {
  }

  /** An element that no other element is newer than, or as new as, is sorted first. */
  lemma TopIsLast<T(!new)>(leq: (T, T) -> bool, rows: seq<T>, last: nat)
    requires TotalPreorder(leq) && last < |rows|
    requires forall i :: 0 <= i < |rows| && i != last ==> !leq(rows[i], rows[last])
    ensures Sort(leq, rows)[0] == rows[last]
  {
    var all := Sort(leq, rows);
    SortSorts(leq, rows);
    assert rows[last] in multiset(rows);
    var k :| 0 <= k < |all| && all[k] == rows[last];
    assert all[0] in multiset(all);
    var j :| 0 <= j < |rows| && rows[j] == all[0];
    Preorder(leq, all[0], all[0], all[0]);
    assert leq(all[0], all[k]);
    hide TotalPreorder, Sort;
  }

  lemma LastNotFetched<T(!new)>(rows: seq<T>, depth: nat)
    requires Distinct(rows) && depth < |rows|
    ensures !Fetched([], rows, depth, rows[depth])
  {
    assert [] + rows == rows;
    NotFetched([], rows, depth, false, depth);
  }

  lemma TopNotFetched<T(!new)>(leq: (T, T) -> bool, rows: seq<T>, depth: nat)
    requires 0 < depth && rows != [] && !Fetched([], rows, depth, Sort(leq, rows)[0])
    ensures !TopFetched(leq, [], rows, depth)
  {
    assert [] + rows == rows;
  }

  // ------------------------------------------------------------------- app/events.py

  /** A timeline: the newest `limit` of two sources, each read newest first to `limit`. */
  function Timeline<T>(leq: (T, T) -> bool, events: seq<T>, audits: seq<T>, limit: nat): seq<T> {
    Take(Sort(leq, Take(events, limit) + Take(audits, limit)), limit)
  }

  /** It is the top of the full merged list, whatever the limit. */
  lemma TimelineIsTop<T(!new)>(leq: (T, T) -> bool, events: seq<T>, audits: seq<T>, limit: nat)
    requires TotalPreorder(leq) && SortedBy(leq, events) && SortedBy(leq, audits)
    ensures Timeline(leq, events, audits, limit) == Take(Sort(leq, events + audits), limit)
  {
    SortedTops(leq, events, audits, limit);
  }
}
