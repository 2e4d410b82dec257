/**
 * The two grouped reports. `GetBudgetItemsByMonth` discovers the distinct
 * months of the expenses in the window, then re-queries each whole calendar
 * month; `GetBudgetItemsByCategory` discovers the distinct categories joined
 * in the window, then re-queries each category over the same window.
 */
module Reports {
  import opened Wrappers
  import opened Dates
  import opened Records
  import opened Collections
  import opened Store
  import opened Budget

  function ExpenseCategory(e: Expense): int { e.category }

  function SummaryTotal(s: BudgetItemsByMonth): real { s.total }

  function CategoryTotal(s: BudgetItemsByCategory): real { s.total }

  // ---------------------------------------------------------------------------
  // By month
  // ---------------------------------------------------------------------------

  /** The expenses dated strictly inside the window, in table order (the month query has no join). */
  function WindowExpenses(exps: seq<Expense>, start: Date, end: Date): (r: seq<Expense>)
    ensures forall e :: e in r <==> e in exps && InWindow(start, end, e.date)
  {
    if exps == [] then []
    else
      var init := exps[..|exps| - 1];
      assert exps == init + [exps[|exps| - 1]];
      WindowExpenses(init, start, end) + (if InWindow(start, end, exps[|exps| - 1].date) then [exps[|exps| - 1]] else [])
  }

  /** The expenses the discovery loop does not skip: in the window and, when filtering, of category `cid`. */
  function ScannedExpenses(exps: seq<Expense>, start: Date, end: Date, filterFlag: bool, cid: int): seq<Expense> {
    var w := WindowExpenses(exps, start, end);
    if filterFlag then Where(w, ExpenseCategory, cid) else w
  }

  /** The month of every scanned expense, in scan order, repetitions included. */
  function MonthScan(exps: seq<Expense>, start: Date, end: Date, filterFlag: bool, cid: int): (months: seq<YearMonth>)
    ensures forall ym :: ym in months ==> ValidMonth(ym)
  {
    var es := ScannedExpenses(exps, start, end, filterFlag, cid);
    seq(|es|, i requires 0 <= i < |es| => MonthOf(es[i].date))
  }

  /** The months `dates.Contains`/`dates.Add` collects: each scanned month once, in first-encounter order. */
  function DiscoveredMonths(exps: seq<Expense>, start: Date, end: Date, filterFlag: bool, cid: int): (months: seq<YearMonth>)
    ensures forall ym :: ym in months ==> ValidMonth(ym)
  {
    Distinct(MonthScan(exps, start, end, filterFlag, cid))
  }

  /** The details of a month: the items of the whole calendar month, 1st 00:00 to last day 00:00, both strict. */
  function MonthDetails(cats: seq<Category>, exps: seq<Expense>, ym: YearMonth, filterFlag: bool, cid: int): seq<BudgetItem>
    requires ValidMonth(ym)
  {
    BudgetItems(cats, exps, FirstOfMonth(ym), LastDayOfMonth(ym), filterFlag, cid)
  }

  function MonthSummary(cats: seq<Category>, exps: seq<Expense>, ym: YearMonth, filterFlag: bool, cid: int): BudgetItemsByMonth
    requires ValidMonth(ym)
  {
    var details := MonthDetails(cats, exps, ym, filterFlag, cid);
    BudgetItemsByMonth(MonthKey(ym), details, SumOf(details, ItemAmount))
  }

  function MonthSummaries(cats: seq<Category>, exps: seq<Expense>, months: seq<YearMonth>, filterFlag: bool, cid: int): (r: seq<BudgetItemsByMonth>)
    requires forall ym :: ym in months ==> ValidMonth(ym)
    ensures |r| == |months|
  {
    seq(|months|, i requires 0 <= i < |months| => MonthSummary(cats, exps, months[i], filterFlag, cid))
  }

  /** `GetBudgetItemsByMonth(Start, End, FilterFlag, CategoryID)`. */
  function MonthReport(cats: seq<Category>, exps: seq<Expense>, start: Option<Date>, end: Option<Date>,
                       filterFlag: bool, cid: int): seq<BudgetItemsByMonth>
  {
    MonthSummaries(cats, exps, DiscoveredMonths(exps, start.GetOr(DefaultStart), end.GetOr(DefaultEnd), filterFlag, cid),
                   filterFlag, cid)
  }

  /** Some expense the discovery scan reads falls in month `ym`. */
  predicate MonthHasScannedExpense(exps: seq<Expense>, start: Date, end: Date, filterFlag: bool, cid: int, ym: YearMonth) {
    exists e :: e in exps && InWindow(start, end, e.date) && (filterFlag ==> e.category == cid) && MonthOf(e.date) == ym
  }

  /** A month is discovered exactly when some scanned expense falls in it. */
  lemma DiscoveredMonthsExact(exps: seq<Expense>, start: Date, end: Date, filterFlag: bool, cid: int)
    ensures forall ym :: ym in DiscoveredMonths(exps, start, end, filterFlag, cid) <==>
              MonthHasScannedExpense(exps, start, end, filterFlag, cid, ym)
  {
    var es := ScannedExpenses(exps, start, end, filterFlag, cid);
    var scan := MonthScan(exps, start, end, filterFlag, cid);
    forall ym ensures ym in scan <==> MonthHasScannedExpense(exps, start, end, filterFlag, cid, ym) {
      if ym in scan {
        var i :| 0 <= i < |scan| && scan[i] == ym;
        assert es[i] in es;
      }
      if MonthHasScannedExpense(exps, start, end, filterFlag, cid, ym) {
        var e :| e in exps && InWindow(start, end, e.date) && (filterFlag ==> e.category == cid) && MonthOf(e.date) == ym;
        assert e in es;
        var i :| 0 <= i < |es| && es[i] == e;
        assert scan[i] == ym;
      }
    }
  }

  /** The month keys of a report are pairwise distinct, in first-encounter order of the scan. */
  lemma MonthKeysDistinct(cats: seq<Category>, exps: seq<Expense>, start: Date, end: Date, filterFlag: bool, cid: int)
    ensures var months := DiscoveredMonths(exps, start, end, filterFlag, cid);
            var report := MonthSummaries(cats, exps, months, filterFlag, cid);
            forall i, j :: 0 <= i < j < |report| ==> report[i].month != report[j].month
  {
    var months := DiscoveredMonths(exps, start, end, filterFlag, cid);
    var report := MonthSummaries(cats, exps, months, filterFlag, cid);
    forall i, j | 0 <= i < j < |report| ensures report[i].month != report[j].month {
      if report[i].month == report[j].month {
        MonthKeyInjective(months[i], months[j]);
      }
    }
  }

  /** The months come out in the order in which the scan first meets them. */
  lemma MonthsInFirstEncounterOrder(exps: seq<Expense>, start: Date, end: Date, filterFlag: bool, cid: int)
    ensures var scan := MonthScan(exps, start, end, filterFlag, cid);
            var months := DiscoveredMonths(exps, start, end, filterFlag, cid);
            forall i, j :: 0 <= i < j < |months| ==> FirstIndex(scan, months[i]) < FirstIndex(scan, months[j])
  {
    DistinctInFirstEncounterOrder(MonthScan(exps, start, end, filterFlag, cid));
  }

  /** Each key is the `yyyy/MM` text of its month, and parses back to that month. */
  lemma MonthKeysFormatted(cats: seq<Category>, exps: seq<Expense>, months: seq<YearMonth>, filterFlag: bool, cid: int)
    requires forall ym :: ym in months ==> ValidMonth(ym)
    ensures var report := MonthSummaries(cats, exps, months, filterFlag, cid);
            forall i :: 0 <= i < |report| ==>
              |report[i].month| == 7 && report[i].month[4] == '/' && ParseMonthKey(report[i].month) == Some(months[i])
  {
    forall i | 0 <= i < |months| ensures ParseMonthKey(MonthKey(months[i])) == Some(months[i]) {
      MonthKeyRoundTrip(months[i]);
    }
  }

  /**
   * Every detail of a month lies in that month, is neither on the 1st at 00:00
   * nor on the last day, and the month's total is the sum of its details.
   */
  lemma MonthDetailsInsideMonth(cats: seq<Category>, exps: seq<Expense>, ym: YearMonth, filterFlag: bool, cid: int)
    requires ValidMonth(ym)
    ensures forall item :: item in MonthSummary(cats, exps, ym, filterFlag, cid).details ==>
              && MonthOf(item.date) == ym
              && !(item.date.day == 1 && item.date.seconds == 0)
              && item.date.day < DaysInMonth(ym.year, ym.month)
    ensures MonthSummary(cats, exps, ym, filterFlag, cid).total == SumOf(MonthSummary(cats, exps, ym, filterFlag, cid).details, ItemAmount)
  {
    BudgetItemsInWindow(cats, exps, FirstOfMonth(ym), LastDayOfMonth(ym), filterFlag, cid);
    forall item | item in MonthDetails(cats, exps, ym, filterFlag, cid)
      ensures MonthOf(item.date) == ym && !(item.date.day == 1 && item.date.seconds == 0)
              && item.date.day < DaysInMonth(ym.year, ym.month)
    {
      BetweenMonthBoundsIsInMonth(ym, item.date);
      StrictlyInsideMonth(item.date);
    }
  }

  /** A month's summary does not depend on the window that discovered it: two reports agree on every shared key. */
  lemma MonthSummaryIgnoresWindow(cats: seq<Category>, exps: seq<Expense>, start1: Date, end1: Date, start2: Date, end2: Date,
                                  filterFlag: bool, cid: int, i: int, j: int)
    requires 0 <= i < |DiscoveredMonths(exps, start1, end1, filterFlag, cid)|
    requires 0 <= j < |DiscoveredMonths(exps, start2, end2, filterFlag, cid)|
    requires MonthSummaries(cats, exps, DiscoveredMonths(exps, start1, end1, filterFlag, cid), filterFlag, cid)[i].month
          == MonthSummaries(cats, exps, DiscoveredMonths(exps, start2, end2, filterFlag, cid), filterFlag, cid)[j].month
    ensures MonthSummaries(cats, exps, DiscoveredMonths(exps, start1, end1, filterFlag, cid), filterFlag, cid)[i]
         == MonthSummaries(cats, exps, DiscoveredMonths(exps, start2, end2, filterFlag, cid), filterFlag, cid)[j]
  {
    var m1 := DiscoveredMonths(exps, start1, end1, filterFlag, cid);
    var m2 := DiscoveredMonths(exps, start2, end2, filterFlag, cid);
    assert m1[i] in m1 && m2[j] in m2;
    MonthKeyInjective(m1[i], m2[j]);
  }

  /**
   * An expense dated on the last day of its month is discovered (the window
   * permitting) but never appears in its month's details: no detail shares its date.
   */
  lemma LastDayExpenseMissingFromItsMonth(cats: seq<Category>, exps: seq<Expense>, start: Date, end: Date,
                                          filterFlag: bool, cid: int, e: Expense)
    requires e in exps && InWindow(start, end, e.date) && (filterFlag ==> e.category == cid)
    requires e.date.day == DaysInMonth(e.date.year, e.date.month)
    ensures MonthOf(e.date) in DiscoveredMonths(exps, start, end, filterFlag, cid)
    ensures forall item :: item in MonthSummary(cats, exps, MonthOf(e.date), filterFlag, cid).details ==> item.date != e.date
  {
    DiscoveredMonthsExact(exps, start, end, filterFlag, cid);
    assert MonthHasScannedExpense(exps, start, end, filterFlag, cid, MonthOf(e.date));
    MonthDetailsInsideMonth(cats, exps, MonthOf(e.date), filterFlag, cid);
  }

  // ---------------------------------------------------------------------------
  // By category
  // ---------------------------------------------------------------------------

  /** `(C.Description, C.Id)` of every joined row, in join order. */
  function CategoryScan(joined: seq<Row>): (pairs: seq<(string, int)>)
    ensures |pairs| == |joined|
  {
    seq(|joined|, i requires 0 <= i < |joined| => (joined[i].category.description, joined[i].category.id))
  }

  function PairId(p: (string, int)): int { p.1 }

  /** The `(description, id)` pairs of the `SELECT DISTINCT`, kept by the loop's category filter. */
  function DiscoveredCategories(cats: seq<Category>, exps: seq<Expense>, start: Date, end: Date,
                                filterFlag: bool, cid: int): seq<(string, int)>
  {
    var pairs := Distinct(CategoryScan(Joined(cats, exps, start, end)));
    if filterFlag then Where(pairs, PairId, cid) else pairs
  }

  /** The details of a category: the items of the same window, filtered to its id. */
  function CategorySummary(cats: seq<Category>, exps: seq<Expense>, start: Date, end: Date, p: (string, int)): BudgetItemsByCategory {
    var details := BudgetItems(cats, exps, start, end, true, p.1);
    BudgetItemsByCategory(p.0, details, SumOf(details, ItemAmount))
  }

  function CategorySummaries(cats: seq<Category>, exps: seq<Expense>, start: Date, end: Date,
                             pairs: seq<(string, int)>): (r: seq<BudgetItemsByCategory>)
    ensures |r| == |pairs|
  {
    seq(|pairs|, i requires 0 <= i < |pairs| => CategorySummary(cats, exps, start, end, pairs[i]))
  }

  /** `GetBudgetItemsByCategory(Start, End, FilterFlag, CategoryID)`. */
  function CategoryReport(cats: seq<Category>, exps: seq<Expense>, start: Option<Date>, end: Option<Date>,
                          filterFlag: bool, cid: int): seq<BudgetItemsByCategory>
  {
    var s, e := start.GetOr(DefaultStart), end.GetOr(DefaultEnd);
    CategorySummaries(cats, exps, s, e, DiscoveredCategories(cats, exps, s, e, filterFlag, cid))
  }

  /** Some joined row in the window carries category `p`. */
  predicate CategoryJoinedInWindow(cats: seq<Category>, exps: seq<Expense>, start: Date, end: Date, p: (string, int)) {
    exists r :: r in Joined(cats, exps, start, end) && p == (r.category.description, r.category.id)
  }

  /** Every scanned pair is the description and id of the category the join finds for that id. */
  lemma ScannedPairsResolve(cats: seq<Category>, exps: seq<Expense>, start: Date, end: Date)
    ensures forall p :: p in CategoryScan(Joined(cats, exps, start, end)) ==>
              FindCategory(cats, p.1).Some? && FindCategory(cats, p.1).value.description == p.0
  {
    var joined := Joined(cats, exps, start, end);
    JoinedMembers(cats, exps, start, end);
    forall p | p in CategoryScan(joined)
      ensures FindCategory(cats, p.1).Some? && FindCategory(cats, p.1).value.description == p.0
    {
      var i :| 0 <= i < |joined| && CategoryScan(joined)[i] == p;
      assert joined[i] in joined;
    }
  }

  /**
   * The categories discovered are exactly those joined in the window (with the
   * flag set, only the chosen one), each once, with pairwise distinct ids.
   */
  lemma DiscoveredCategoriesExact(cats: seq<Category>, exps: seq<Expense>, start: Date, end: Date, filterFlag: bool, cid: int)
    ensures var pairs := DiscoveredCategories(cats, exps, start, end, filterFlag, cid);
            forall p :: p in pairs <==> CategoryJoinedInWindow(cats, exps, start, end, p) && (filterFlag ==> p.1 == cid)
    ensures var pairs := DiscoveredCategories(cats, exps, start, end, filterFlag, cid);
            forall i, j :: 0 <= i < j < |pairs| ==> pairs[i].1 != pairs[j].1
  {
    var joined := Joined(cats, exps, start, end);
    var scan := CategoryScan(joined);
    var d := Distinct(scan);
    var pairs := DiscoveredCategories(cats, exps, start, end, filterFlag, cid);
    forall p ensures p in scan <==> CategoryJoinedInWindow(cats, exps, start, end, p) {
      if p in scan {
        var i :| 0 <= i < |scan| && scan[i] == p;
        assert joined[i] in joined;
      }
      if CategoryJoinedInWindow(cats, exps, start, end, p) {
        var r :| r in joined && p == (r.category.description, r.category.id);
        var i :| 0 <= i < |joined| && joined[i] == r;
        assert scan[i] == p;
      }
    }
    ScannedPairsResolve(cats, exps, start, end);
    assert NoDuplicates(pairs) by {
      if filterFlag {
        WhereKeepsDistinct(d, PairId, cid);
      }
    }
    forall i, j | 0 <= i < j < |pairs| ensures pairs[i].1 != pairs[j].1 {
      assert pairs[i] in scan && pairs[j] in scan;
    }
  }

  /** Every detail of a category summary has that category's id and name. */
  lemma CategoryDetailsMatch(cats: seq<Category>, exps: seq<Expense>, start: Date, end: Date, filterFlag: bool, cid: int)
    ensures var pairs := DiscoveredCategories(cats, exps, start, end, filterFlag, cid);
            var report := CategorySummaries(cats, exps, start, end, pairs);
            forall i :: 0 <= i < |report| ==>
              forall item :: item in report[i].details ==> item.categoryId == pairs[i].1 && item.category == report[i].category
  {
    var joined := Joined(cats, exps, start, end);
    var pairs := DiscoveredCategories(cats, exps, start, end, filterFlag, cid);
    var report := CategorySummaries(cats, exps, start, end, pairs);
    ScannedPairsResolve(cats, exps, start, end);
    JoinedMembers(cats, exps, start, end);
    forall i, item | 0 <= i < |report| && item in report[i].details
      ensures item.categoryId == pairs[i].1 && item.category == report[i].category
    {
      assert pairs[i] in CategoryScan(joined);
      BudgetItemsExact(cats, exps, start, end, true, pairs[i].1);
      var r :| r in Selected(joined, true, pairs[i].1) && FromRow(item, r);
      assert r in joined;
    }
  }

  lemma {:induction false} WhereKeepsDistinct<T(!new), K>(s: seq<T>, key: T -> K, k: K)
    requires NoDuplicates(s)
    ensures NoDuplicates(Where(s, key, k))
  {
    if s != [] {
      var init, last := s[..|s| - 1], s[|s| - 1];
      assert s == init + [last];
      WhereKeepsDistinct(init, key, k);
      assert last !in Where(init, key, k);
    }
  }

  function PairIds(pairs: seq<(string, int)>): (ids: seq<int>)
    ensures |ids| == |pairs| && forall i :: 0 <= i < |pairs| ==> ids[i] == pairs[i].1
  {
    seq(|pairs|, i requires 0 <= i < |pairs| => pairs[i].1)
  }

  /** A category summary's total is the sum of the amounts of the windowed rows with its id. */
  lemma CategoryTotalIsGroupSum(cats: seq<Category>, exps: seq<Expense>, start: Date, end: Date, p: (string, int))
    ensures CategorySummary(cats, exps, start, end, p).total
         == SumOf(Where(SortByDate(Joined(cats, exps, start, end)), RowCategoryId, p.1), RowAmount)
  {
    ItemsAmounts(Where(SortByDate(Joined(cats, exps, start, end)), RowCategoryId, p.1));
  }

  /** The totals of the summaries of `pairs` add up to the grouped sums of the windowed rows over their ids. */
  lemma {:induction false} CategoryTotalsAreGroupSums(cats: seq<Category>, exps: seq<Expense>, start: Date, end: Date,
                                                     pairs: seq<(string, int)>)
    ensures SumOf(CategorySummaries(cats, exps, start, end, pairs), CategoryTotal)
         == SumGroups(SortByDate(Joined(cats, exps, start, end)), RowCategoryId, PairIds(pairs), RowAmount)
  {
    if pairs != [] {
      var sorted := SortByDate(Joined(cats, exps, start, end));
      var init, last := pairs[..|pairs| - 1], pairs[|pairs| - 1];
      var report := CategorySummaries(cats, exps, start, end, pairs);
      CategoryTotalsAreGroupSums(cats, exps, start, end, init);
      assert SumOf(report, CategoryTotal) == SumOf(CategorySummaries(cats, exps, start, end, init), CategoryTotal) + report[|report| - 1].total by {
        assert report[..|report| - 1] == CategorySummaries(cats, exps, start, end, init);
      }
      assert SumGroups(sorted, RowCategoryId, PairIds(pairs), RowAmount)
          == SumGroups(sorted, RowCategoryId, PairIds(init), RowAmount) + SumOf(Where(sorted, RowCategoryId, last.1), RowAmount) by {
        assert PairIds(pairs)[..|pairs| - 1] == PairIds(init);
      }
      CategoryTotalIsGroupSum(cats, exps, start, end, last);
    }
  }

  /** Every windowed row's category id is among the ids of the discovered pairs, and those ids are distinct. */
  lemma DiscoveredIdsCoverRows(cats: seq<Category>, exps: seq<Expense>, start: Date, end: Date, cid: int)
    ensures var ids := PairIds(DiscoveredCategories(cats, exps, start, end, false, cid));
            && NoDuplicates(ids)
            && forall r :: r in SortByDate(Joined(cats, exps, start, end)) ==> RowCategoryId(r) in ids
  {
    var joined := Joined(cats, exps, start, end);
    var pairs := DiscoveredCategories(cats, exps, start, end, false, cid);
    var ids := PairIds(pairs);
    DiscoveredCategoriesExact(cats, exps, start, end, false, cid);
    SortByDateSorted(joined);
    forall r | r in SortByDate(joined) ensures RowCategoryId(r) in ids {
      assert r in multiset(joined);
      JoinedRowDiscovered(cats, exps, start, end, cid, r);
    }
  }

  lemma JoinedRowDiscovered(cats: seq<Category>, exps: seq<Expense>, start: Date, end: Date, cid: int, r: Row)
    requires r in Joined(cats, exps, start, end)
    ensures RowCategoryId(r) in PairIds(DiscoveredCategories(cats, exps, start, end, false, cid))
  {
    var pairs := DiscoveredCategories(cats, exps, start, end, false, cid);
    DiscoveredCategoriesExact(cats, exps, start, end, false, cid);
    assert r.category.id == RowCategoryId(r) by {
      JoinedMembers(cats, exps, start, end);
    }
    assert CategoryJoinedInWindow(cats, exps, start, end, (r.category.description, r.category.id));
    var i :| 0 <= i < |pairs| && pairs[i] == (r.category.description, r.category.id);
    assert PairIds(pairs)[i] == RowCategoryId(r);
  }

  /**
   * Without the filter, the category totals add up to the total of the
   * unfiltered item list: every windowed row lands in exactly one category.
   */
  lemma CategoryTotalsPartitionItems(cats: seq<Category>, exps: seq<Expense>, start: Date, end: Date, cid: int)
    ensures SumOf(CategorySummaries(cats, exps, start, end, DiscoveredCategories(cats, exps, start, end, false, cid)), CategoryTotal)
         == SumOf(BudgetItems(cats, exps, start, end, false, cid), ItemAmount)
  {
    var sorted := SortByDate(Joined(cats, exps, start, end));
    var pairs := DiscoveredCategories(cats, exps, start, end, false, cid);
    CategoryTotalsAreGroupSums(cats, exps, start, end, pairs);
    DiscoveredIdsCoverRows(cats, exps, start, end, cid);
    Partition(sorted, RowCategoryId, PairIds(pairs), RowAmount);
    ItemsAmounts(sorted);
    assert Selected(sorted, false, cid) == sorted;
  }
}
