/**
 * The four reports of the budget library, as functions of the store's tables:
 * the joined, windowed, date-ordered item list with its running balance, the
 * per-month and per-category summaries built from re-queries of that list,
 * and the month by category pivot with its TOTALS row. The imperative report
 * methods are proved equal to these functions; the lemmas here state what the
 * reports mean.
 */
module Budget {
  import opened Wrappers
  import opened Dates
  import opened Records
  import opened Collections
  import opened Store

  /** One line of a report: an expense joined with its category, and the running balance. */
  datatype BudgetItem = BudgetItem(
    categoryId: int,
    expenseId: int,
    date: Date,
    category: string,
    shortDescription: string,
    amount: real,
    balance: real)

  datatype BudgetItemsByMonth = BudgetItemsByMonth(month: string, details: seq<BudgetItem>, total: real)

  datatype BudgetItemsByCategory = BudgetItemsByCategory(category: string, details: seq<BudgetItem>, total: real)

  /** The window bounds used when the caller passes none. */
  const DefaultStart: Date := DateTime(1900, 1, 1, 0)
  const DefaultEnd: Date := DateTime(2500, 1, 1, 0)

  /** A row of `expenses E JOIN categories C ON E.CategoryId = C.Id`. */
  datatype Row = Row(expense: Expense, category: Category)

  function RowCategoryId(r: Row): int { r.expense.category }

  function RowAmount(r: Row): real { r.expense.amount }

  function ItemAmount(item: BudgetItem): real { item.amount }

  function ItemCategory(item: BudgetItem): string { item.category }

  /** The category row an expense joins with: the first one carrying its id. */
  function FindCategory(cats: seq<Category>, id: int): (r: Option<Category>)
    ensures r.Some? <==> HasCategory(cats, id)
    ensures r.Some? ==> r.value in cats && r.value.id == id
  {
    if cats == [] then None
    else if cats[0].id == id then Some(cats[0])
    else
      var r := FindCategory(cats[1..], id);
      assert HasCategory(cats, id) ==> HasCategory(cats[1..], id) by {
        if HasCategory(cats, id) {
          var i :| 0 <= i < |cats| && cats[i].id == id;
          assert cats[1..][i - 1] == cats[i];
        }
      }
      assert HasCategory(cats[1..], id) ==> HasCategory(cats, id) by {
        if HasCategory(cats[1..], id) {
          var i :| 0 <= i < |cats[1..]| && cats[1..][i].id == id;
          assert cats[i + 1] == cats[1..][i];
        }
      }
      r
  }

  /** `Date > @start AND Date < @end`: both bounds strict. */
  predicate InWindow(start: Date, end: Date, d: Date) {
    Before(start, d) && Before(d, end)
  }

  /** The joined rows in the window, in expense table order. */
  function Joined(cats: seq<Category>, exps: seq<Expense>, start: Date, end: Date): seq<Row> {
    if exps == [] then []
    else
      var e := exps[|exps| - 1];
      var c := FindCategory(cats, e.category);
      Joined(cats, exps[..|exps| - 1], start, end)
        + (if c.Some? && InWindow(start, end, e.date) then [Row(e, c.value)] else [])
  }

  /** A joined row is exactly an expense in the window together with the category it refers to. */
  lemma {:induction false} JoinedMembers(cats: seq<Category>, exps: seq<Expense>, start: Date, end: Date)
    ensures forall r :: r in Joined(cats, exps, start, end) <==>
              r.expense in exps && InWindow(start, end, r.expense.date) && FindCategory(cats, r.expense.category) == Some(r.category)
  {
    if exps != [] {
      var init := exps[..|exps| - 1];
      assert exps == init + [exps[|exps| - 1]];
      JoinedMembers(cats, init, start, end);
    }
  }

  /** `ORDER BY E.Date`: no row is dated before an earlier row. */
  predicate SortedByDate(rows: seq<Row>) {
    forall i, j :: 0 <= i < j < |rows| ==> !Before(rows[j].expense.date, rows[i].expense.date)
  }

  /** Inserts `x` after every row not dated after it, so rows of equal date keep their order. */
  function InsertByDate(sorted: seq<Row>, x: Row): seq<Row> {
    if sorted == [] || !Before(x.expense.date, sorted[|sorted| - 1].expense.date) then sorted + [x]
    else InsertByDate(sorted[..|sorted| - 1], x) + [sorted[|sorted| - 1]]
  }

  /** The stable sort by date that stands for `ORDER BY E.Date` (ties in table order). */
  function SortByDate(rows: seq<Row>): seq<Row> {
    if rows == [] then [] else InsertByDate(SortByDate(rows[..|rows| - 1]), rows[|rows| - 1])
  }

  lemma {:induction false} InsertByDatePermutes(sorted: seq<Row>, x: Row)
    ensures multiset(InsertByDate(sorted, x)) == multiset(sorted) + multiset{x}
  {
    if sorted != [] && Before(x.expense.date, sorted[|sorted| - 1].expense.date) {
      var init := sorted[..|sorted| - 1];
      assert sorted == init + [sorted[|sorted| - 1]];
      InsertByDatePermutes(init, x);
    }
  }

  lemma {:induction false} InsertByDateSorted(sorted: seq<Row>, x: Row)
    requires SortedByDate(sorted)
    ensures multiset(InsertByDate(sorted, x)) == multiset(sorted) + multiset{x}
    ensures SortedByDate(InsertByDate(sorted, x))
  {
    InsertByDatePermutes(sorted, x);
    if sorted == [] || !Before(x.expense.date, sorted[|sorted| - 1].expense.date) {
      forall i | 0 <= i < |sorted| ensures !Before(x.expense.date, sorted[i].expense.date) {
        NotBeforeTransitive(sorted[i].expense.date, sorted[|sorted| - 1].expense.date, x.expense.date);
      }
    } else {
      var init, last := sorted[..|sorted| - 1], sorted[|sorted| - 1];
      InsertByDateSorted(init, x);
      var r := InsertByDate(init, x);
      forall i | 0 <= i < |r| ensures !Before(last.expense.date, r[i].expense.date) {
        assert r[i] in multiset(r);
        if r[i] != x {
          assert r[i] in init;
          var k :| 0 <= k < |init| && init[k] == r[i];
          assert sorted[k] == r[i];
        }
      }
      assert InsertByDate(sorted, x) == r + [last];
    }
  }

  /** The sort orders the rows by date and only reorders them. */
  lemma {:induction false} SortByDateSorted(rows: seq<Row>)
    ensures multiset(SortByDate(rows)) == multiset(rows)
    ensures SortedByDate(SortByDate(rows))
  {
    if rows != [] {
      var init := rows[..|rows| - 1];
      assert rows == init + [rows[|rows| - 1]];
      SortByDateSorted(init);
      InsertByDateSorted(SortByDate(init), rows[|rows| - 1]);
    }
  }

  /** The in-loop filter: with the flag set, only the rows of category `cid`. */
  function Selected(rows: seq<Row>, filterFlag: bool, cid: int): seq<Row> {
    if filterFlag then Where(rows, RowCategoryId, cid) else rows
  }

  function ItemOf(r: Row, balance: real): BudgetItem {
    BudgetItem(r.expense.category, r.expense.id, r.expense.date, r.category.description, r.expense.description,
               r.expense.amount, balance)
  }

  /** One item per row, each carrying the running total of the amounts up to and including its row. */
  function Items(rows: seq<Row>): (items: seq<BudgetItem>)
    ensures |items| == |rows|
  {
    if rows == [] then [] else Items(rows[..|rows| - 1]) + [ItemOf(rows[|rows| - 1], SumOf(rows, RowAmount))]
  }

  /** `GetBudgetItems` on resolved bounds. */
  function BudgetItems(cats: seq<Category>, exps: seq<Expense>, start: Date, end: Date, filterFlag: bool, cid: int): seq<BudgetItem> {
    Items(Selected(SortByDate(Joined(cats, exps, start, end)), filterFlag, cid))
  }

  /** `GetBudgetItems(Start, End, FilterFlag, CategoryID)`, an absent bound taking its default. */
  function ItemsReport(cats: seq<Category>, exps: seq<Expense>, start: Option<Date>, end: Option<Date>,
                       filterFlag: bool, cid: int): seq<BudgetItem> {
    BudgetItems(cats, exps, start.GetOr(DefaultStart), end.GetOr(DefaultEnd), filterFlag, cid)
  }

  /** Item i is built from row i with the sum of the first i+1 amounts as balance. */
  lemma {:induction false} ItemsAt(rows: seq<Row>)
    ensures |Items(rows)| == |rows|
    ensures forall i :: 0 <= i < |rows| ==> Items(rows)[i] == ItemOf(rows[i], SumOf(rows[..i + 1], RowAmount))
  {
    if rows != [] {
      var init := rows[..|rows| - 1];
      ItemsAt(init);
      forall i | 0 <= i < |init| ensures Items(rows)[i] == ItemOf(rows[i], SumOf(rows[..i + 1], RowAmount)) {
        assert rows[..i + 1] == init[..i + 1];
      }
      assert rows[..|rows|] == rows;
    }
  }

  /** The items carry the amounts of their rows, so they sum alike. */
  lemma {:induction false} ItemsAmounts(rows: seq<Row>)
    ensures SumOf(Items(rows), ItemAmount) == SumOf(rows, RowAmount)
  {
    if rows != [] {
      var init := rows[..|rows| - 1];
      ItemsAmounts(init);
      SumOfSnoc(Items(init), ItemOf(rows[|rows| - 1], SumOf(rows, RowAmount)), ItemAmount);
    }
  }

  /** A prefix of the items is the items of the prefix of rows. */
  lemma {:induction false} ItemsPrefix(rows: seq<Row>, k: int)
    requires 0 <= k <= |rows|
    ensures Items(rows[..k]) == Items(rows)[..k]
  {
    ItemsAt(rows);
    ItemsAt(rows[..k]);
    forall i | 0 <= i < k ensures Items(rows[..k])[i] == Items(rows)[i] {
      assert rows[..k][..i + 1] == rows[..i + 1];
    }
  }

  /**
   * The running balance: each item's balance is the sum of the amounts of the
   * items up to and including it, and the last balance is the sum of all.
   */
  lemma RunningBalance(rows: seq<Row>)
    ensures forall i :: 0 <= i < |Items(rows)| ==> Items(rows)[i].balance == SumOf(Items(rows)[..i + 1], ItemAmount)
    ensures Items(rows) != [] ==> Items(rows)[|Items(rows)| - 1].balance == SumOf(Items(rows), ItemAmount)
  {
    ItemsAt(rows);
    forall i | 0 <= i < |rows| ensures Items(rows)[i].balance == SumOf(Items(rows)[..i + 1], ItemAmount) {
      ItemsPrefix(rows, i + 1);
      ItemsAmounts(rows[..i + 1]);
    }
    if rows != [] {
      assert Items(rows)[..|rows|] == Items(rows);
    }
  }

  /** Filtering by category keeps the date order. */
  lemma {:induction false} WhereKeepsDateOrder(rows: seq<Row>, cid: int)
    requires SortedByDate(rows)
    ensures SortedByDate(Where(rows, RowCategoryId, cid))
  {
    if rows != [] {
      var init, last := rows[..|rows| - 1], rows[|rows| - 1];
      assert rows == init + [last];
      WhereKeepsDateOrder(init, cid);
      var w := Where(init, RowCategoryId, cid);
      forall i | 0 <= i < |w| ensures !Before(last.expense.date, w[i].expense.date) {
        assert w[i] in init;
        var k :| 0 <= k < |init| && init[k] == w[i];
        assert rows[k] == w[i];
      }
    }
  }

  /** An item is built from a row: all its fields but the balance are the row's. */
  predicate FromRow(item: BudgetItem, r: Row) {
    item == ItemOf(r, item.balance)
  }

  /** The item comes from one of the rows. */
  predicate FromSomeRow(item: BudgetItem, rows: seq<Row>) {
    exists r :: r in rows && FromRow(item, r)
  }

  /** Some item comes from the row. */
  predicate Emitted(r: Row, items: seq<BudgetItem>) {
    exists i :: 0 <= i < |items| && FromRow(items[i], r)
  }

  /** The items of a row sequence are exactly its rows, each with some balance. */
  lemma ItemsFromRows(rows: seq<Row>)
    ensures forall item :: item in Items(rows) ==> FromSomeRow(item, rows)
    ensures forall r :: r in rows ==> Emitted(r, Items(rows))
  {
    var items := Items(rows);
    forall item | item in items ensures FromSomeRow(item, rows) {
      var i :| 0 <= i < |items| && items[i] == item;
      ItemFromRow(rows, i);
      assert rows[i] in rows;
    }
    forall r | r in rows ensures Emitted(r, items) {
      var i :| 0 <= i < |rows| && rows[i] == r;
      ItemFromRow(rows, i);
    }
  }

  lemma ItemFromRow(rows: seq<Row>, i: int)
    requires 0 <= i < |rows|
    ensures FromRow(Items(rows)[i], rows[i])
  {
    ItemsAt(rows);
  }

  /** The rows the report keeps: the joined rows, of the chosen category when filtering. */
  lemma SelectedMembers(joined: seq<Row>, filterFlag: bool, cid: int)
    ensures forall r :: r in Selected(SortByDate(joined), filterFlag, cid) <==> r in Selected(joined, filterFlag, cid)
  {
    SortByDateSorted(joined);
    forall r ensures r in SortByDate(joined) <==> r in joined {
      calc {
        r in SortByDate(joined);
        r in multiset(SortByDate(joined));
        r in multiset(joined);
        r in joined;
      }
    }
  }

  /**
   * `GetBudgetItems` returns exactly the joined rows in the window (with the
   * flag set, those of the chosen category) as items: every item comes from
   * such a row, and every such row gives an item.
   */
  lemma BudgetItemsExact(cats: seq<Category>, exps: seq<Expense>, start: Date, end: Date, filterFlag: bool, cid: int)
    ensures forall item :: item in BudgetItems(cats, exps, start, end, filterFlag, cid) ==>
              FromSomeRow(item, Selected(Joined(cats, exps, start, end), filterFlag, cid))
    ensures forall r :: r in Selected(Joined(cats, exps, start, end), filterFlag, cid) ==>
              Emitted(r, BudgetItems(cats, exps, start, end, filterFlag, cid))
  {
    var joined := Joined(cats, exps, start, end);
    var sel := Selected(SortByDate(joined), filterFlag, cid);
    SelectedMembers(joined, filterFlag, cid);
    ItemsFromRows(sel);
    forall item | item in Items(sel) ensures FromSomeRow(item, Selected(joined, filterFlag, cid)) {
      var r :| r in sel && FromRow(item, r);
      assert r in Selected(joined, filterFlag, cid);
    }
    forall r | r in Selected(joined, filterFlag, cid) ensures Emitted(r, Items(sel)) {
      assert r in sel;
    }
  }

  /** Every item lies strictly inside the window and belongs to an existing category, the chosen one when filtering. */
  lemma BudgetItemsInWindow(cats: seq<Category>, exps: seq<Expense>, start: Date, end: Date, filterFlag: bool, cid: int)
    ensures forall item :: item in BudgetItems(cats, exps, start, end, filterFlag, cid) ==>
              InWindow(start, end, item.date) && HasCategory(cats, item.categoryId) && (filterFlag ==> item.categoryId == cid)
  {
    BudgetItemsExact(cats, exps, start, end, filterFlag, cid);
    JoinedMembers(cats, exps, start, end);
    var items := BudgetItems(cats, exps, start, end, filterFlag, cid);
    forall item | item in items
      ensures InWindow(start, end, item.date) && HasCategory(cats, item.categoryId) && (filterFlag ==> item.categoryId == cid)
    {
      var r :| r in Selected(Joined(cats, exps, start, end), filterFlag, cid) && FromRow(item, r);
    }
  }

  /** `GetBudgetItems` lists its items in date order. */
  lemma BudgetItemsSorted(cats: seq<Category>, exps: seq<Expense>, start: Date, end: Date, filterFlag: bool, cid: int)
    ensures forall i, j :: 0 <= i < j < |BudgetItems(cats, exps, start, end, filterFlag, cid)| ==>
              !Before(BudgetItems(cats, exps, start, end, filterFlag, cid)[j].date,
                      BudgetItems(cats, exps, start, end, filterFlag, cid)[i].date)
  {
    var sorted := SortByDate(Joined(cats, exps, start, end));
    SortByDateSorted(Joined(cats, exps, start, end));
    var sel := Selected(sorted, filterFlag, cid);
    if filterFlag {
      WhereKeepsDateOrder(sorted, cid);
    }
    ItemsAt(sel);
  }

  /** With the flag off, the category id passed has no effect. */
  lemma UnfilteredIgnoresCategoryId(cats: seq<Category>, exps: seq<Expense>, start: Date, end: Date, cid1: int, cid2: int)
    ensures BudgetItems(cats, exps, start, end, false, cid1) == BudgetItems(cats, exps, start, end, false, cid2)
  {
  }
}
