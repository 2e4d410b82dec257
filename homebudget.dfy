/**
 * The `HomeBudget` facade: it opens (or creates) the database, wires the
 * category and expense stores to it, and answers the four report queries.
 * Each query runs its SQL (given by the report functions of `Budget`,
 * `Reports` and `Pivot` as the rows the reader yields) and then builds its
 * result with the loops of the library, which are proved here to produce
 * exactly those report functions.
 */
module Api {
  import opened Wrappers
  import opened Dates
  import opened Records
  import opened Collections
  import opened Store
  import opened Budget
  import opened Reports
  import opened Pivot

  /** The default categories with ids 1, 2, 3, ... in order: what a new database holds. */
  ghost predicate FreshDefaults(cats: seq<Category>) {
    && Described(cats) == DefaultCategories
    && forall j :: 0 <= j < |cats| ==> cats[j].id == j + 1
  }

  class HomeBudget {
    const db: Database
    const categories: Categories
    const expenses: Expenses

    /** Both stores work on the facade's database. */
    predicate Valid() {
      categories.db == db && expenses.db == db
    }

    /**
     * Opens the existing database unless a new one is asked for or the file is
     * missing; a new database is created empty, and both stores are then built
     * with the new-database flag, so the type rows are seeded twice and the
     * default categories are set twice.
     */
    constructor (db: Database, fileExists: bool, newDB: bool)
      requires db.Valid()
      modifies db
      ensures this.db == db && Valid() && db.Valid()
      ensures !newDB && fileExists ==> unchanged(db)
      ensures newDB || !fileExists ==>
                && db.expenses == []
                && db.categoryTypes == SeedRows(0) + SeedRows(4)
                && FreshDefaults(db.categories)
    {
      this.db := db;
      var isNew := newDB;
      if newDB || !fileExists {
        db.Recreate();
        isNew := true;
      }
      ghost var cats0 := db.categories;
      categories := new Categories(db, isNew);
      ghost var types1, cats1 := db.categoryTypes, db.categories;
      expenses := new Expenses(db, isNew);
      new;
      if isNew {
        NewDatabaseState(cats1, db.categories, types1, db.categoryTypes);
      }
    }

    /** `GetBudgetItems`: the joined, windowed, date-ordered rows, filtered, with their running balance. */
    method GetBudgetItems(start: Option<Date>, end: Option<Date>, filterFlag: bool, cid: int) returns (items: seq<BudgetItem>)
      ensures items == ItemsReport(db.categories, db.expenses, start, end, filterFlag, cid)
    {
      var s, e := start.GetOr(DefaultStart), end.GetOr(DefaultEnd);
      var rows := SortByDate(Joined(db.categories, db.expenses, s, e));
      items := ReadItems(rows, filterFlag, cid);
    }

    /** Adds up the amounts of `details`, as the report loops do. */
    method SumAmounts(details: seq<BudgetItem>) returns (total: real)
      ensures total == SumOf(details, ItemAmount)
    {
      total := 0.0;
      for j := 0 to |details|
        invariant total == SumOf(details[..j], ItemAmount)
      {
        assert details[..j + 1][..j] == details[..j];
        total := total + details[j].amount;
      }
      assert details[..|details|] == details;
    }

    /**
     * `GetBudgetItemsByMonth`: collects the months of the windowed expenses
     * (first encounter, no repeats), then reports each whole calendar month.
     */
    method GetBudgetItemsByMonth(start: Option<Date>, end: Option<Date>, filterFlag: bool, cid: int)
      returns (summary: seq<BudgetItemsByMonth>)
      ensures summary == MonthReport(db.categories, db.expenses, start, end, filterFlag, cid)
    {
      var dates := CollectMonths(start.GetOr(DefaultStart), end.GetOr(DefaultEnd), filterFlag, cid);
      summary := SummarizeMonths(dates, filterFlag, cid);
    }

    /** The month query's reader loop: skips other categories when filtering, adds each month once. */
    method CollectMonths(s: Date, e: Date, filterFlag: bool, cid: int) returns (dates: seq<YearMonth>)
      ensures dates == DiscoveredMonths(db.expenses, s, e, filterFlag, cid)
    {
      dates := ReadMonths(WindowExpenses(db.expenses, s, e), filterFlag, cid);
      MonthScanIsMonthsOf(db.expenses, s, e, filterFlag, cid);
    }

    /** One summary per collected month: its items from the 1st to the last day, and their total. */
    method SummarizeMonths(dates: seq<YearMonth>, filterFlag: bool, cid: int) returns (summary: seq<BudgetItemsByMonth>)
      requires forall ym :: ym in dates ==> ValidMonth(ym)
      ensures summary == MonthSummaries(db.categories, db.expenses, dates, filterFlag, cid)
    {
      summary := [];
      for k := 0 to |dates|
        invariant |summary| == k
        invariant forall i :: 0 <= i < k ==> summary[i] == MonthSummary(db.categories, db.expenses, dates[i], filterFlag, cid)
      {
        var month := SummarizeMonth(dates[k], filterFlag, cid);
        summary := summary + [month];
      }
    }

    /** The body of the month loop: the month's items from its 1st to its last day, and their total. */
    method SummarizeMonth(ym: YearMonth, filterFlag: bool, cid: int) returns (month: BudgetItemsByMonth)
      requires ValidMonth(ym)
      ensures month == MonthSummary(db.categories, db.expenses, ym, filterFlag, cid)
    {
      var details := GetBudgetItems(Some(FirstOfMonth(ym)), Some(LastDayOfMonth(ym)), filterFlag, cid);
      var total := SumAmounts(details);
      month := BudgetItemsByMonth(MonthKey(ym), details, total);
    }

    /**
     * `GetBudgetItemsByCategory`: collects the distinct (description, id)
     * pairs of the window into two parallel lists, then reports each id.
     */
    method GetBudgetItemsByCategory(start: Option<Date>, end: Option<Date>, filterFlag: bool, cid: int)
      returns (summary: seq<BudgetItemsByCategory>)
      ensures summary == CategoryReport(db.categories, db.expenses, start, end, filterFlag, cid)
    {
      var s, e := start.GetOr(DefaultStart), end.GetOr(DefaultEnd);
      var names, ids := CollectCategories(s, e, filterFlag, cid);
      summary := SummarizeCategories(s, e, names, ids, DiscoveredCategories(db.categories, db.expenses, s, e, filterFlag, cid));
    }

    /** The category query's reader loop: keeps the pairs of category `cid` when filtering, in two parallel lists. */
    method CollectCategories(s: Date, e: Date, filterFlag: bool, cid: int) returns (names: seq<string>, ids: seq<int>)
      ensures ParallelLists(names, ids, DiscoveredCategories(db.categories, db.expenses, s, e, filterFlag, cid))
    {
      var rows := Distinct(CategoryScan(Joined(db.categories, db.expenses, s, e)));
      names := [];
      ids := [];
      for k := 0 to |rows|
        invariant ParallelLists(names, ids, KeptPairs(rows[..k], filterFlag, cid))
      {
        PairsStep(rows, k, filterFlag, cid, names, ids);
        if filterFlag && cid != rows[k].1 {
          continue;
        }
        names := names + [rows[k].0];
        ids := ids + [rows[k].1];
      }
      assert rows[..|rows|] == rows;
    }

    /** One summary per collected id: the window's items of that id, their total, and the collected description. */
    method SummarizeCategories(s: Date, e: Date, names: seq<string>, ids: seq<int>, ghost pairs: seq<(string, int)>)
      returns (summary: seq<BudgetItemsByCategory>)
      requires ParallelLists(names, ids, pairs)
      ensures summary == CategorySummaries(db.categories, db.expenses, s, e, pairs)
    {
      summary := [];
      for i := 0 to |ids|
        invariant |summary| == i
        invariant forall j :: 0 <= j < i ==> summary[j] == CategorySummary(db.categories, db.expenses, s, e, pairs[j])
      {
        var details := GetBudgetItems(Some(s), Some(e), true, ids[i]);
        var total := SumAmounts(details);
        summary := summary + [BudgetItemsByCategory(names[i], details, total)];
      }
    }

    /**
     * `GetBudgetDictionaryByCategoryAndMonth`: one record per month with the
     * subtotal and items of each category in key order, the running totals per
     * category, and a final TOTALS record over the categories table.
     */
    method GetBudgetDictionaryByCategoryAndMonth(start: Option<Date>, end: Option<Date>, filterFlag: bool, cid: int)
      returns (summary: seq<Record>)
      requires Valid()
      ensures summary == PivotReport(db.categories, db.expenses, start, end, filterFlag, cid)
    {
      var groupedByMonth := GetBudgetItemsByMonth(start, end, filterFlag, cid);
      var records, totals := MonthRecordsOf(groupedByMonth);
      var list := categories.List();
      var totalsRecord := TotalsRecordOf(list, totals);
      summary := records + [totalsRecord];
    }

    /** The loop over the months: one record each, and the totals per category carried along. */
    method MonthRecordsOf(months: seq<BudgetItemsByMonth>) returns (records: seq<Record>, totals: map<string, real>)
      ensures records == MonthRecords(months)
      ensures totals == Totals(months)
    {
      records := [];
      totals := map[];
      for k := 0 to |months|
        invariant records == MonthRecords(months[..k])
        invariant totals == Totals(months[..k])
      {
        var record, newTotals := MonthRecordOf(months[k], totals);
        MonthRecordsStep(months, k);
        TotalsStep(months, k);
        totals := newTotals;
        records := records + [record];
      }
      assert months[..|months|] == months;
    }

    /** The TOTALS record: each listed category's total, unless its description is a key already or has no total. */
    method TotalsRecordOf(list: seq<Category>, totals: map<string, real>) returns (totalsRecord: Record)
      ensures totalsRecord == TotalsRecord(list, totals)
    {
      totalsRecord := map["Month" := Text("TOTALS")];
      for c := 0 to |list|
        invariant totalsRecord == TotalsRecord(list[..c], totals)
      {
        assert list[..c + 1][..c] == list[..c];
        var d := list[c].description;
        // `Add` throws on a key already present and the lookup on a missing total; both are caught.
        if d !in totalsRecord && d in totals {
          totalsRecord := totalsRecord[d := Num(totals[d])];
        }
      }
      assert list[..|list|] == list;
    }

    /** The body of the month loop: builds one record and adds its subtotals to the running totals. */
    method MonthRecordOf(m: BudgetItemsByMonth, totals: map<string, real>) returns (record: Record, newTotals: map<string, real>)
      ensures record == MonthRecord(m)
      ensures newTotals == AddToTotals(totals, m.details, GroupKeys(m.details))
    {
      var init: Record := map["Month" := Text(m.month), "Total" := Num(m.total)];
      record := init;
      newTotals := totals;
      var keys := GroupKeys(m.details);
      for j := 0 to |keys|
        invariant record == AddGroups(init, m.details, keys[..j])
        invariant newTotals == AddToTotals(totals, m.details, keys[..j])
      {
        GroupStep(init, totals, m.details, keys, j);
        record, newTotals := AddCategoryGroup(record, newTotals, m.details, keys[j]);
      }
      assert keys[..|keys|] == keys;
    }
  }

  // ---------------------------------------------------------------------------
  // Loop steps
  // ---------------------------------------------------------------------------

  /** The body of the loop over a month's category keys: the category's items and subtotal go into the record and its running total. */
  method AddCategoryGroup(record: Record, totals: map<string, real>, items: seq<BudgetItem>, key: string)
    returns (newRecord: Record, newTotals: map<string, real>)
    ensures newRecord == record[DetailsKey(key) := ItemList(Group(items, key))][key := Num(GroupTotal(items, key))]
    ensures newTotals == AddSubtotal(totals, key, GroupTotal(items, key))
  {
    var details, total := CopyGroup(Group(items, key));
    newRecord := record[DetailsKey(key) := ItemList(details)][key := Num(total)];
    if key in totals {
      newTotals := totals[key := totals[key] + total];
    } else {
      newTotals := totals[key := total];
    }
  }

  /** The inner loop over one category's items: copies them into a new list and sums their amounts. */
  method CopyGroup(group: seq<BudgetItem>) returns (details: seq<BudgetItem>, total: real)
    ensures details == group && total == SumOf(group, ItemAmount)
  {
    total := 0.0;
    details := [];
    for t := 0 to |group|
      invariant total == SumOf(group[..t], ItemAmount) && details == group[..t]
    {
      assert group[..t + 1][..t] == group[..t];
      total := total + group[t].amount;
      details := details + [group[t]];
    }
    assert group[..|group|] == group;
  }

  /** One pass of the loop over a month's category keys, on the record and on the running totals. */
  lemma GroupStep(init: Record, totals: map<string, real>, details: seq<BudgetItem>, keys: seq<string>, j: int)
    requires 0 <= j < |keys|
    ensures AddGroups(init, details, keys[..j + 1])
         == AddGroups(init, details, keys[..j])[DetailsKey(keys[j]) := ItemList(Group(details, keys[j]))][keys[j] := Num(GroupTotal(details, keys[j]))]
    ensures AddToTotals(totals, details, keys[..j + 1])
         == AddSubtotal(AddToTotals(totals, details, keys[..j]), keys[j], GroupTotal(details, keys[j]))
  {
    assert keys[..j + 1][..j] == keys[..j];
  }

  /** The reader loop of `GetBudgetItems`: skips rows of other categories when filtering, keeps a running balance. */
  method ReadItems(rows: seq<Row>, filterFlag: bool, cid: int) returns (items: seq<BudgetItem>)
    ensures items == Items(Selected(rows, filterFlag, cid))
  {
    items := [];
    var total := 0.0;
    ghost var selected: seq<Row> := [];
    for k := 0 to |rows|
      invariant selected == Selected(rows[..k], filterFlag, cid)
      invariant items == Items(selected) && total == SumOf(selected, RowAmount)
    {
      SelectedStep(rows, k, filterFlag, cid);
      if filterFlag && cid != rows[k].expense.category {
        assert selected + [] == selected;
        continue;
      }
      ItemsSnoc(selected, rows[k]);
      SumOfSnoc(selected, rows[k], RowAmount);
      selected := selected + [rows[k]];
      total := total + rows[k].expense.amount;
      items := items + [ItemOf(rows[k], total)];
    }
    assert rows[..|rows|] == rows;
  }

  /** The reader loop of the month query: skips other categories when filtering, adds each month once. */
  method ReadMonths(rows: seq<Expense>, filterFlag: bool, cid: int) returns (dates: seq<YearMonth>)
    ensures dates == Distinct(MonthsOf(Filtered(rows, filterFlag, cid)))
  {
    dates := [];
    ghost var kept: seq<Expense> := [];
    ghost var months: seq<YearMonth> := [];
    for k := 0 to |rows|
      invariant kept == Filtered(rows[..k], filterFlag, cid) && months == MonthsOf(kept)
      invariant dates == Distinct(months)
    {
      FilteredStep(rows, k, filterFlag, cid);
      if filterFlag && cid != rows[k].category {
        assert kept + [] == kept;
        continue;
      }
      var date := MonthOf(rows[k].date);
      MonthsOfSnoc(kept, rows[k]);
      DistinctSnoc(months, date);
      kept, months := kept + [rows[k]], months + [date];
      if date !in dates {
        dates := dates + [date];
      }
    }
    assert rows[..|rows|] == rows;
  }

  /** One more reader row either passes the category filter or is skipped. */
  lemma SelectedStep(rows: seq<Row>, k: int, filterFlag: bool, cid: int)
    requires 0 <= k < |rows|
    ensures Selected(rows[..k + 1], filterFlag, cid)
         == Selected(rows[..k], filterFlag, cid) + (if !filterFlag || RowCategoryId(rows[k]) == cid then [rows[k]] else [])
  {
    assert rows[..k + 1] == rows[..k] + [rows[k]];
    WhereSnoc(rows[..k], rows[k], RowCategoryId, cid);
  }

  /** The item of a new last row carries the sum of all amounts as its balance. */
  lemma ItemsSnoc(rows: seq<Row>, r: Row)
    ensures Items(rows + [r]) == Items(rows) + [ItemOf(r, SumOf(rows, RowAmount) + r.expense.amount)]
  {
    assert (rows + [r])[..|rows|] == rows;
  }

  /** The expenses the month scan keeps. */
  function Filtered(es: seq<Expense>, filterFlag: bool, cid: int): seq<Expense> {
    if filterFlag then Where(es, ExpenseCategory, cid) else es
  }

  function MonthsOf(es: seq<Expense>): (r: seq<YearMonth>)
    ensures |r| == |es|
  {
    seq(|es|, i requires 0 <= i < |es| => MonthOf(es[i].date))
  }

  lemma MonthScanIsMonthsOf(exps: seq<Expense>, s: Date, e: Date, filterFlag: bool, cid: int)
    ensures MonthScan(exps, s, e, filterFlag, cid) == MonthsOf(Filtered(WindowExpenses(exps, s, e), filterFlag, cid))
  {
  }

  lemma FilteredStep(es: seq<Expense>, k: int, filterFlag: bool, cid: int)
    requires 0 <= k < |es|
    ensures Filtered(es[..k + 1], filterFlag, cid)
         == Filtered(es[..k], filterFlag, cid) + (if !filterFlag || es[k].category == cid then [es[k]] else [])
  {
    assert es[..k + 1] == es[..k] + [es[k]];
    WhereSnoc(es[..k], es[k], ExpenseCategory, cid);
  }

  lemma MonthsOfSnoc(es: seq<Expense>, e: Expense)
    ensures MonthsOf(es + [e]) == MonthsOf(es) + [MonthOf(e.date)]
  {
  }

  /** `Contains` then `Add`: a new value is appended, a known one ignored. */
  lemma DistinctSnoc<T(!new)>(s: seq<T>, x: T)
    ensures Distinct(s + [x]) == if x in Distinct(s) then Distinct(s) else Distinct(s) + [x]
  {
    assert (s + [x])[..|s|] == s;
  }

  /** The pairs the category loop keeps. */
  function KeptPairs(pairs: seq<(string, int)>, filterFlag: bool, cid: int): seq<(string, int)> {
    if filterFlag then Where(pairs, PairId, cid) else pairs
  }

  /** Two lists that hold the descriptions and the ids of `pairs`, position by position. */
  predicate ParallelLists(names: seq<string>, ids: seq<int>, pairs: seq<(string, int)>) {
    |names| == |pairs| && |ids| == |pairs| &&
    forall i :: 0 <= i < |pairs| ==> names[i] == pairs[i].0 && ids[i] == pairs[i].1
  }

  /** One pass of the category loop: a skipped pair changes nothing, a kept one is appended to both lists. */
  lemma PairsStep(pairs: seq<(string, int)>, k: int, filterFlag: bool, cid: int, names: seq<string>, ids: seq<int>)
    requires 0 <= k < |pairs|
    requires ParallelLists(names, ids, KeptPairs(pairs[..k], filterFlag, cid))
    ensures filterFlag && cid != pairs[k].1 ==> ParallelLists(names, ids, KeptPairs(pairs[..k + 1], filterFlag, cid))
    ensures !(filterFlag && cid != pairs[k].1) ==>
              ParallelLists(names + [pairs[k].0], ids + [pairs[k].1], KeptPairs(pairs[..k + 1], filterFlag, cid))
  {
    KeptPairsStep(pairs, k, filterFlag, cid);
  }

  lemma MonthRecordsStep(months: seq<BudgetItemsByMonth>, k: int)
    requires 0 <= k < |months|
    ensures MonthRecords(months[..k + 1]) == MonthRecords(months[..k]) + [MonthRecord(months[k])]
  {
    var a, b := MonthRecords(months[..k + 1]), MonthRecords(months[..k]) + [MonthRecord(months[k])];
    forall i | 0 <= i < |a| ensures a[i] == b[i] {
      assert months[..k + 1][i] == months[i];
      if i < k {
        assert months[..k][i] == months[i];
      }
    }
  }

  lemma TotalsStep(months: seq<BudgetItemsByMonth>, k: int)
    requires 0 <= k < |months|
    ensures Totals(months[..k + 1]) == AddToTotals(Totals(months[..k]), months[k].details, GroupKeys(months[k].details))
  {
    assert months[..k + 1][..k] == months[..k];
  }

  lemma KeptPairsStep(pairs: seq<(string, int)>, k: int, filterFlag: bool, cid: int)
    requires 0 <= k < |pairs|
    ensures KeptPairs(pairs[..k + 1], filterFlag, cid)
         == KeptPairs(pairs[..k], filterFlag, cid) + (if !filterFlag || pairs[k].1 == cid then [pairs[k]] else [])
  {
    assert pairs[..k + 1] == pairs[..k] + [pairs[k]];
    WhereSnoc(pairs[..k], pairs[k], PairId, cid);
  }

  // ---------------------------------------------------------------------------
  // The state of a new database
  // ---------------------------------------------------------------------------

  lemma {:induction false} SurvivorsWithoutExpenses(cats: seq<Category>)
    ensures Survivors(cats, []) == []
  {
    if cats != [] {
      SurvivorsWithoutExpenses(cats[..|cats| - 1]);
    }
  }

  lemma DoubleSeededHasEveryType()
    ensures forall t :: HasTypeRow(SeedRows(0) + SeedRows(4), TypeId(t))
  {
    forall t ensures HasTypeRow(SeedRows(0) + SeedRows(4), TypeId(t)) {
      assert (SeedRows(0) + SeedRows(4))[TypeId(t) - 1].id == TypeId(t);
    }
  }

  /**
   * Seeding an empty database twice and setting the defaults twice leaves the
   * eight type rows and the sixteen default categories with ids 1 to 16.
   */
  lemma NewDatabaseState(cats1: seq<Category>, cats2: seq<Category>, types1: seq<TypeRow>, types2: seq<TypeRow>)
    requires types1 == [] + SeedRows(LastId(Ids([], TypeRowId)))
    requires types2 == types1 + SeedRows(LastId(Ids(types1, TypeRowId)))
    requires DefaultsSet(cats1, cats2, [], types2)
    ensures types2 == SeedRows(0) + SeedRows(4)
    ensures FreshDefaults(cats2)
  {
    SeededTwice(types1, types2);
    DoubleSeededHasEveryType();
    DefaultsOnEmpty(cats1, cats2, types2);
  }

  /** The seeding loop run twice on an empty table leaves ids 1 to 8. */
  lemma SeededTwice(types1: seq<TypeRow>, types2: seq<TypeRow>)
    requires types1 == [] + SeedRows(LastId(Ids([], TypeRowId)))
    requires types2 == types1 + SeedRows(LastId(Ids(types1, TypeRowId)))
    ensures types2 == SeedRows(0) + SeedRows(4)
  {
    EmptyLastId();
    SeedLastId();
  }

  lemma EmptyLastId()
    ensures LastId(Ids([], TypeRowId)) == 0
  {
  }

  lemma SeedLastId()
    ensures LastId(Ids(SeedRows(0), TypeRowId)) == 4
  {
    var ids := Ids(SeedRows(0), TypeRowId);
    assert |ids| == 4 && ids[0] == 1 && ids[1] == 2 && ids[2] == 3 && ids[3] == 4;
    assert forall x :: x in ids ==> x <= 4;
  }

  /** With no expenses every old category is deleted, and with every type present all defaults are added. */
  lemma DefaultsOnEmpty(cats1: seq<Category>, cats2: seq<Category>, types: seq<TypeRow>)
    requires forall t :: HasTypeRow(types, TypeId(t))
    requires DefaultsSet(cats1, cats2, [], types)
    ensures FreshDefaults(cats2)
  {
    SurvivorsWithoutExpenses(cats1);
    assert cats2[0..] == cats2;
  }
}
