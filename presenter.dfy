/**
 * The presenter of the budget application, apart from its WPF view: input
 * validation for new categories and expenses, the choice of report to
 * display, and the search cursor over a displayed item list. The view is a
 * trace of the calls the presenter makes on it; `double.TryParse` and
 * `double.ToString` are functions the presenter is given.
 */
module App {
  import opened Wrappers
  import opened Dates
  import opened Records
  import opened Store
  import opened Budget
  import opened Reports
  import opened Pivot
  import opened Api

  /** One call on the view interface. */
  datatype ViewEvent =
    | ShowCompletion(message: string)
    | ShowError(message: string)
    | DisplayCategories(categories: seq<Category>)
    | DisplayBudgetItems(items: seq<BudgetItem>)
    | DisplayBudgetItemsByCategory(byCategory: seq<BudgetItemsByCategory>)
    | DisplayBudgetItemsByMonth(byMonth: seq<BudgetItemsByMonth>)
    | DisplayBudgetItemsByCategoryMonth(pivot: seq<Record>)
    | DisplayBudgetItemsByCategoryMonthAsGraph(graph: seq<Record>)
    | NextSearch(item: BudgetItem)

  /** `Environment.NewLine` on Windows, which `AppendLine` adds. */
  const NewLine: string := "\r\n"

  // ---------------------------------------------------------------------------
  // Validation
  // ---------------------------------------------------------------------------

  /** `string.IsNullOrEmpty`. */
  predicate IsNullOrEmpty(s: Option<string>) {
    s.None? || s.value == ""
  }

  /** The amount `double.TryParse` reads from the text box; a null text does not parse. */
  function ParsedAmount(tryParse: string -> Option<real>, amountInput: Option<string>): Option<real> {
    if amountInput.None? then None else tryParse(amountInput.value)
  }

  /** `AppendLine(message)` when a rule fails, nothing otherwise. */
  function Line(failed: bool, message: string): string {
    if failed then message + NewLine else ""
  }

  /** The error text `AddCategory` builds, one line per failed rule. */
  function CategoryErrors(description: Option<string>, categoryType: Option<CategoryType>): string {
    Line(IsNullOrEmpty(description), "Name cannot be null or empty.")
    + Line(categoryType.None?, "Type cannot be empty.")
  }

  /** The error text `AddExpense` and `UpdateExpense` build, one line per failed rule. */
  function ExpenseErrors(tryParse: string -> Option<real>, date: Option<Date>, categoryId: Option<int>,
                         amountInput: Option<string>, description: string): string {
    Line(description == "", "Name cannot be null or empty.")
    + Line(date.None?, "Date must have a value.")
    + Line(categoryId.None?, "Expense must have a category.")
    + Line(IsNullOrEmpty(amountInput), "Amount text box must not be empty.")
    + Line(ParsedAmount(tryParse, amountInput).None?, "Amount must be a number.")
  }

  /** A category is rejected exactly when its name is null or empty or it has no type. */
  lemma CategoryErrorsIff(description: Option<string>, categoryType: Option<CategoryType>)
    ensures CategoryErrors(description, categoryType) == "" <==> !IsNullOrEmpty(description) && categoryType.Some?
  {
    if IsNullOrEmpty(description) {
      assert |CategoryErrors(description, categoryType)| > 0;
    }
  }

  /**
   * An expense is rejected exactly when its description is empty, it has no
   * date or no category, or its amount text is empty or does not parse; the
   * sign of the amount plays no part.
   */
  lemma ExpenseErrorsIff(tryParse: string -> Option<real>, date: Option<Date>, categoryId: Option<int>,
                         amountInput: Option<string>, description: string)
    ensures ExpenseErrors(tryParse, date, categoryId, amountInput, description) == ""
            <==> && description != ""
                 && date.Some? && categoryId.Some?
                 && !IsNullOrEmpty(amountInput)
                 && ParsedAmount(tryParse, amountInput).Some?
  {
    var e := ExpenseErrors(tryParse, date, categoryId, amountInput, description);
    if description == "" || date.None? || categoryId.None? || IsNullOrEmpty(amountInput) || ParsedAmount(tryParse, amountInput).None? {
      assert |e| > 0;
    }
  }

  /** The first line appended to an empty builder is the line itself. */
  lemma FirstLineStep(failed: bool, message: string)
    ensures (if failed then "" + message + NewLine else "") == Line(failed, message)
  {
    assert "" + message == message;
  }

  /** Appending a line when a rule fails is appending `Line` for that rule. */
  lemma AppendLineStep(before: string, failed: bool, message: string)
    ensures (if failed then before + message + NewLine else before) == before + Line(failed, message)
  {
    if !failed {
      assert before + "" == before;
    }
  }

  // ---------------------------------------------------------------------------
  // Choice of report
  // ---------------------------------------------------------------------------

  datatype ReportKind = PivotGraph | PivotTable | ByCategory | ByMonth | PlainList

  /** The branch `SetBudgetItems` takes on its three check boxes. */
  function ChooseReport(sortByCategory: bool, sortByMonth: bool, isGraph: bool): ReportKind {
    if sortByCategory && sortByMonth && isGraph then PivotGraph
    else if sortByCategory && sortByMonth then PivotTable
    else if sortByCategory && !sortByMonth then ByCategory
    else if !sortByCategory && sortByMonth then ByMonth
    else PlainList
  }

  /** Each report is chosen exactly under its combination of check boxes; the graph flag matters only for the pivot. */
  lemma ChooseReportTable(c: bool, m: bool, g: bool)
    ensures ChooseReport(c, m, g) == PivotGraph <==> c && m && g
    ensures ChooseReport(c, m, g) == PivotTable <==> c && m && !g
    ensures ChooseReport(c, m, g) == ByCategory <==> c && !m
    ensures ChooseReport(c, m, g) == ByMonth <==> !c && m
    ensures ChooseReport(c, m, g) == PlainList <==> !c && !m
  {
  }

  // ---------------------------------------------------------------------------
  // Search
  // ---------------------------------------------------------------------------

  /** `sub` occurs in `s` starting at position `i`. */
  predicate OccursAt(s: string, sub: string, i: int) {
    0 <= i <= |s| - |sub| && s[i..i + |sub|] == sub
  }

  /** `string.Contains`: `sub` occurs in `s` at some position. */
  predicate Contains(s: string, sub: string) {
    exists i :: 0 <= i <= |s| - |sub| && OccursAt(s, sub, i)
  }

  /** An item matches when its description or its formatted amount contains the input. */
  predicate Matches(formatAmount: real -> string, input: string, item: BudgetItem) {
    Contains(item.shortDescription, input) || Contains(formatAmount(item.amount), input)
  }

  /** A non-null matching item sits at position `i`. */
  predicate MatchAt(formatAmount: real -> string, input: string, items: seq<Option<BudgetItem>>, i: int)
    requires 0 <= i < |items|
  {
    items[i].Some? && Matches(formatAmount, input, items[i].value)
  }

  /** The non-null items that match, in list order. */
  function SearchMatches(formatAmount: real -> string, input: string, items: seq<Option<BudgetItem>>): (r: seq<BudgetItem>)
    ensures |r| <= |items|
  {
    if items == [] then []
    else
      var last := items[|items| - 1];
      SearchMatches(formatAmount, input, items[..|items| - 1])
        + (if last.Some? && Matches(formatAmount, input, last.value) then [last.value] else [])
  }

  /** The cursor the loop leaves: the number of matches up to and including the selected row, when that row is a non-null item. */
  function Cursor(formatAmount: real -> string, input: string, items: seq<Option<BudgetItem>>, selectedIndex: int): nat {
    if 0 <= selectedIndex < |items| && items[selectedIndex].Some? then
      |SearchMatches(formatAmount, input, items[..selectedIndex + 1])|
    else 0
  }

  /** The index of the match shown: the cursor, or 0 when it runs past the last match. */
  function ShownIndex(formatAmount: real -> string, input: string, items: seq<Option<BudgetItem>>, selectedIndex: int): nat {
    var c := Cursor(formatAmount, input, items, selectedIndex);
    if c > |SearchMatches(formatAmount, input, items)| - 1 then 0 else c
  }

  /** The matches of a prefix are a prefix of the matches. */
  lemma {:induction false} SearchMatchesPrefix(formatAmount: real -> string, input: string, items: seq<Option<BudgetItem>>, n: int)
    requires 0 <= n <= |items|
    ensures var p := SearchMatches(formatAmount, input, items[..n]);
            var all := SearchMatches(formatAmount, input, items);
            |p| <= |all| && all[..|p|] == p
  {
    if n < |items| {
      var init := items[..|items| - 1];
      assert init[..n] == items[..n];
      SearchMatchesPrefix(formatAmount, input, init, n);
    } else {
      assert items[..n] == items;
    }
  }

  /** Rows without a match between two positions add no match. */
  lemma {:induction false} NoMatchesBetween(formatAmount: real -> string, input: string, items: seq<Option<BudgetItem>>, a: int, b: int)
    requires 0 <= a <= b <= |items|
    requires forall i :: a <= i < b ==> !MatchAt(formatAmount, input, items, i)
    ensures SearchMatches(formatAmount, input, items[..b]) == SearchMatches(formatAmount, input, items[..a])
  {
    if a < b {
      NoMatchesBetween(formatAmount, input, items, a, b - 1);
      assert items[..b][..b - 1] == items[..b - 1];
      assert !MatchAt(formatAmount, input, items, b - 1);
    }
  }

  /**
   * When the selected row is a non-null item and some row after it matches,
   * the match shown is the first matching row after the selected one.
   */
  lemma ShowsNextMatch(formatAmount: real -> string, input: string, items: seq<Option<BudgetItem>>, selectedIndex: int, j: int)
    requires 0 <= selectedIndex < j < |items| && items[selectedIndex].Some?
    requires MatchAt(formatAmount, input, items, j)
    requires forall i :: selectedIndex < i < j ==> !MatchAt(formatAmount, input, items, i)
    ensures var all := SearchMatches(formatAmount, input, items);
            ShownIndex(formatAmount, input, items, selectedIndex) < |all|
            && all[ShownIndex(formatAmount, input, items, selectedIndex)] == items[j].value
  {
    NoMatchesBetween(formatAmount, input, items, selectedIndex + 1, j);
    var p := SearchMatches(formatAmount, input, items[..j]);
    assert Cursor(formatAmount, input, items, selectedIndex) == |p|;
    var q := SearchMatches(formatAmount, input, items[..j + 1]);
    assert q == p + [items[j].value] by {
      assert items[..j + 1][..j] == items[..j];
    }
    SearchMatchesPrefix(formatAmount, input, items, j + 1);
    var all := SearchMatches(formatAmount, input, items);
    assert |p| < |all| && all[..|q|] == q;
    assert ShownIndex(formatAmount, input, items, selectedIndex) == |p|;
    assert all[|p|] == q[|p|];
  }

  /**
   * When no row after the selected one matches, or the selected row is out of
   * range or null, the search wraps around to the first match.
   */
  lemma WrapsToFirstMatch(formatAmount: real -> string, input: string, items: seq<Option<BudgetItem>>, selectedIndex: int)
    requires !(0 <= selectedIndex < |items| && items[selectedIndex].Some?)
             || forall i :: selectedIndex < i < |items| ==> !MatchAt(formatAmount, input, items, i)
    ensures ShownIndex(formatAmount, input, items, selectedIndex) == 0
  {
    if 0 <= selectedIndex < |items| && items[selectedIndex].Some? {
      NoMatchesBetween(formatAmount, input, items, selectedIndex + 1, |items|);
      assert items[..|items|] == items;
    }
  }

  /** Every match found is a non-null row of the list that matches, and every such row is found. */
  lemma {:induction false} SearchMatchesExact(formatAmount: real -> string, input: string, items: seq<Option<BudgetItem>>)
    ensures forall x :: x in SearchMatches(formatAmount, input, items) <==> Some(x) in items && Matches(formatAmount, input, x)
  {
    if items != [] {
      var init := items[..|items| - 1];
      SearchMatchesExact(formatAmount, input, init);
      assert items == init + [items[|items| - 1]];
    }
  }

  // ---------------------------------------------------------------------------
  // The presenter
  // ---------------------------------------------------------------------------

  class Presenter {
    var model: HomeBudget?
    /** The calls made on the view so far. */
    var events: seq<ViewEvent>
    var searchList: seq<BudgetItem>
    var searchIndex: int
    /** `double.TryParse` and `double.ToString`, as the runtime provides them. */
    const tryParse: string -> Option<real>
    const formatAmount: real -> string

    /** The model is open on a consistent database. */
    ghost predicate Ready()
      reads this, if model == null then {} else {model.db}
    {
      model != null && model.Valid() && model.db.Valid()
    }

    constructor (tryParse: string -> Option<real>, formatAmount: real -> string)
      ensures this.tryParse == tryParse && this.formatAmount == formatAmount
      ensures model == null && events == [] && searchList == [] && searchIndex == 0
    {
      this.tryParse := tryParse;
      this.formatAmount := formatAmount;
      model := null;
      events := [];
      searchList := [];
      searchIndex := 0;
    }

    /** Opens (or creates) the budget database the user picked. */
    method ProcessFile(db: Database, fileExists: bool, newDB: bool)
      requires db.Valid()
      modifies this, db
      ensures Ready() && model.db == db
      ensures events == old(events) && searchList == old(searchList) && searchIndex == old(searchIndex)
      ensures !newDB && fileExists ==> unchanged(db)
      ensures newDB || !fileExists ==>
                && db.expenses == []
                && db.categoryTypes == SeedRows(0) + SeedRows(4)
                && FreshDefaults(db.categories)
    {
      model := new HomeBudget(db, fileExists, newDB);
    }

    /** Validates the inputs, then either adds the category and reports completion, or reports the errors. */
    method AddCategory(description: Option<string>, categoryType: Option<CategoryType>)
      requires Ready()
      modifies this, model.db
      ensures Ready() && model == old(model)
      ensures searchList == old(searchList) && searchIndex == old(searchIndex)
      ensures var errors := CategoryErrors(description, categoryType);
              if errors == "" then
                && events == old(events) + [ShowCompletion("Name: " + description.value + "\nType: " + TypeName(categoryType.value))]
                && model.db.categoryTypes == old(model.db.categoryTypes) && model.db.expenses == old(model.db.expenses)
                && model.db.categories == old(model.db.categories)
                     + (if HasTypeRow(model.db.categoryTypes, TypeId(categoryType.value))
                        then [Category(NextId(Ids(old(model.db.categories), CategoryId)), description.value, categoryType.value)]
                        else [])
              else
                events == old(events) + [ShowError(errors)] && unchanged(model.db)
    {
      var errorMessage := "";
      if IsNullOrEmpty(description) {
        errorMessage := errorMessage + "Name cannot be null or empty." + NewLine;
      }
      FirstLineStep(IsNullOrEmpty(description), "Name cannot be null or empty.");
      ghost var before := errorMessage;
      if categoryType.None? {
        errorMessage := errorMessage + "Type cannot be empty." + NewLine;
      }
      AppendLineStep(before, categoryType.None?, "Type cannot be empty.");
      if errorMessage == "" {
        CategoryErrorsIff(description, categoryType);
        model.categories.Add(description.value, categoryType.value);
        events := events + [ShowCompletion("Name: " + description.value + "\nType: " + TypeName(categoryType.value))];
      } else {
        events := events + [ShowError(errorMessage)];
      }
    }

    /** Builds the error text of an expense form, line by line. */
    method ValidateExpense(date: Option<Date>, categoryId: Option<int>, amountInput: Option<string>, description: string)
      returns (errorMessage: string, amount: real)
      ensures errorMessage == ExpenseErrors(tryParse, date, categoryId, amountInput, description)
      ensures errorMessage == "" ==> ParsedAmount(tryParse, amountInput) == Some(amount)
    {
      errorMessage := "";
      if description == "" {
        errorMessage := errorMessage + "Name cannot be null or empty." + NewLine;
      }
      FirstLineStep(description == "", "Name cannot be null or empty.");
      ghost var l1 := Line(description == "", "Name cannot be null or empty.");
      assert errorMessage == l1;
      ghost var before := errorMessage;
      if date.None? {
        errorMessage := errorMessage + "Date must have a value." + NewLine;
      }
      AppendLineStep(before, date.None?, "Date must have a value.");
      ghost var l2 := l1 + Line(date.None?, "Date must have a value.");
      assert errorMessage == l2;
      before := errorMessage;
      if categoryId.None? {
        errorMessage := errorMessage + "Expense must have a category." + NewLine;
      }
      AppendLineStep(before, categoryId.None?, "Expense must have a category.");
      ghost var l3 := l2 + Line(categoryId.None?, "Expense must have a category.");
      assert errorMessage == l3;
      before := errorMessage;
      if IsNullOrEmpty(amountInput) {
        errorMessage := errorMessage + "Amount text box must not be empty." + NewLine;
      }
      AppendLineStep(before, IsNullOrEmpty(amountInput), "Amount text box must not be empty.");
      ghost var l4 := l3 + Line(IsNullOrEmpty(amountInput), "Amount text box must not be empty.");
      assert errorMessage == l4;
      before := errorMessage;
      var parsed := ParsedAmount(tryParse, amountInput);
      amount := 0.0;
      if parsed.None? {
        errorMessage := errorMessage + "Amount must be a number." + NewLine;
        assert errorMessage != "" by {
          assert |errorMessage| >= |NewLine|;
        }
      } else {
        amount := parsed.value;
      }
      AppendLineStep(before, parsed.None?, "Amount must be a number.");
      assert errorMessage == l4 + Line(parsed.None?, "Amount must be a number.");
    }

    /** Validates the form, then either adds the expense and reports completion, or reports the errors. */
    method AddExpense(date: Option<Date>, categoryId: Option<int>, amountInput: Option<string>, description: string)
      requires Ready()
      modifies this, model.db
      ensures Ready() && model == old(model)
      ensures searchList == old(searchList) && searchIndex == old(searchIndex)
      ensures var errors := ExpenseErrors(tryParse, date, categoryId, amountInput, description);
              if errors == "" then
                && events == old(events) + [ShowCompletion("Expense has been created")]
                && model.db.categoryTypes == old(model.db.categoryTypes) && model.db.categories == old(model.db.categories)
                && model.db.expenses == old(model.db.expenses)
                     + (if HasCategory(model.db.categories, categoryId.value)
                        then [Expense.Expense(NextId(Ids(old(model.db.expenses), ExpenseId)), date.value, categoryId.value,
                                              ParsedAmount(tryParse, amountInput).value, description)]
                        else [])
              else
                events == old(events) + [ShowError(errors)] && unchanged(model.db)
    {
      var errorMessage, amount := ValidateExpense(date, categoryId, amountInput, description);
      if errorMessage == "" {
        ExpenseErrorsIff(tryParse, date, categoryId, amountInput, description);
        model.expenses.Add(date.value, categoryId.value, amount, description);
        events := events + [ShowCompletion("Expense has been created")];
      } else {
        events := events + [ShowError(errorMessage)];
      }
    }

    /** Validates the form, then either updates the expense and reports completion, or reports the errors. */
    method UpdateExpense(id: int, date: Option<Date>, categoryId: Option<int>, amountInput: Option<string>, description: string)
      requires Ready()
      modifies this, model.db
      ensures Ready() && model == old(model)
      ensures searchList == old(searchList) && searchIndex == old(searchIndex)
      ensures var errors := ExpenseErrors(tryParse, date, categoryId, amountInput, description);
              if errors == "" then
                && events == old(events) + [ShowCompletion("Expense has been updated.")]
                && model.db.categoryTypes == old(model.db.categoryTypes) && model.db.categories == old(model.db.categories)
                && |model.db.expenses| == |old(model.db.expenses)|
                && forall k :: 0 <= k < |model.db.expenses| ==>
                     model.db.expenses[k] == (if old(model.db.expenses)[k].id == id && HasCategory(model.db.categories, categoryId.value)
                                              then Expense.Expense(id, date.value, categoryId.value,
                                                                   ParsedAmount(tryParse, amountInput).value, description)
                                              else old(model.db.expenses)[k])
              else
                events == old(events) + [ShowError(errors)] && unchanged(model.db)
    {
      var errorMessage, amount := ValidateExpense(date, categoryId, amountInput, description);
      if errorMessage == "" {
        ExpenseErrorsIff(tryParse, date, categoryId, amountInput, description);
        model.expenses.UpdateProperties(id, date.value, categoryId.value, amount, description);
        events := events + [ShowCompletion("Expense has been updated.")];
      } else {
        events := events + [ShowError(errorMessage)];
      }
    }

    /** Deletes the expense; the store raises nothing, so the view hears nothing. */
    method DeleteExpense(id: int)
      requires Ready()
      modifies model.db
      ensures Ready()
      ensures model.db.categoryTypes == old(model.db.categoryTypes) && model.db.categories == old(model.db.categories)
      ensures model.db.expenses == RemoveById(old(model.db.expenses), ExpenseId, id)
    {
      model.expenses.Delete(id);
    }

    /** Shows the category list. */
    method SetCategories()
      requires Ready()
      modifies this
      ensures model == old(model) && searchList == old(searchList) && searchIndex == old(searchIndex)
      ensures events == old(events) + [DisplayCategories(model.db.categories)]
    {
      var list := model.categories.List();
      events := events + [DisplayCategories(list)];
    }

    /** Runs the report the three check boxes select and hands it to the matching display. */
    method SetBudgetItems(startDate: Option<Date>, endDate: Option<Date>, filterFlag: bool, categoryId: int,
                          sortByCategory: bool, sortByMonth: bool, isGraph: bool)
      requires Ready()
      modifies this
      ensures model == old(model) && searchList == old(searchList) && searchIndex == old(searchIndex)
      ensures var cats, exps := model.db.categories, model.db.expenses;
              events == old(events) + [match ChooseReport(sortByCategory, sortByMonth, isGraph)
                case PivotGraph =>
                  DisplayBudgetItemsByCategoryMonthAsGraph(PivotReport(cats, exps, startDate, endDate, filterFlag, categoryId))
                case PivotTable =>
                  DisplayBudgetItemsByCategoryMonth(PivotReport(cats, exps, startDate, endDate, filterFlag, categoryId))
                case ByCategory =>
                  DisplayBudgetItemsByCategory(CategoryReport(cats, exps, startDate, endDate, filterFlag, categoryId))
                case ByMonth =>
                  DisplayBudgetItemsByMonth(MonthReport(cats, exps, startDate, endDate, filterFlag, categoryId))
                case PlainList =>
                  DisplayBudgetItems(ItemsReport(cats, exps, startDate, endDate, filterFlag, categoryId))]
    {
      if sortByCategory && sortByMonth && isGraph {
        var pivot := model.GetBudgetDictionaryByCategoryAndMonth(startDate, endDate, filterFlag, categoryId);
        events := events + [DisplayBudgetItemsByCategoryMonthAsGraph(pivot)];
      } else if sortByCategory && sortByMonth {
        var pivot := model.GetBudgetDictionaryByCategoryAndMonth(startDate, endDate, filterFlag, categoryId);
        events := events + [DisplayBudgetItemsByCategoryMonth(pivot)];
      } else if sortByCategory && !sortByMonth {
        var byCategory := model.GetBudgetItemsByCategory(startDate, endDate, filterFlag, categoryId);
        events := events + [DisplayBudgetItemsByCategory(byCategory)];
      } else if !sortByCategory && sortByMonth {
        var byMonth := model.GetBudgetItemsByMonth(startDate, endDate, filterFlag, categoryId);
        events := events + [DisplayBudgetItemsByMonth(byMonth)];
      } else {
        var items := model.GetBudgetItems(startDate, endDate, filterFlag, categoryId);
        events := events + [DisplayBudgetItems(items)];
      }
    }

    /**
     * Collects the matching items of the displayed list and shows the one
     * after the selected row, wrapping to the first; an empty input is
     * reported but the scan still runs.
     */
    method Search(searchInput: string, budgetItems: seq<Option<BudgetItem>>, selectedIndex: int)
      modifies this
      ensures model == old(model)
      ensures searchList == SearchMatches(formatAmount, searchInput, budgetItems)
      ensures searchIndex == ShownIndex(formatAmount, searchInput, budgetItems, selectedIndex)
      ensures events == old(events)
                + (if searchInput == "" then [ShowError("Search input is empty.")] else [])
                + (if searchList == [] then [ShowError("Search not found.")] else [NextSearch(searchList[searchIndex])])
    {
      if searchInput == "" {
        events := events + [ShowError("Search input is empty.")];
      }
      ghost var before := events;
      searchList := [];
      searchIndex := 0;
      for recordIndex := 0 to |budgetItems|
        invariant model == old(model) && events == before
        invariant searchList == SearchMatches(formatAmount, searchInput, budgetItems[..recordIndex])
        invariant searchIndex == (if 0 <= selectedIndex < recordIndex then Cursor(formatAmount, searchInput, budgetItems, selectedIndex) else 0)
      {
        SearchStep(formatAmount, searchInput, budgetItems, recordIndex, selectedIndex);
        var record := budgetItems[recordIndex];
        if record.None? {
          continue;
        }
        if Contains(record.value.shortDescription, searchInput) || Contains(formatAmount(record.value.amount), searchInput) {
          searchList := searchList + [record.value];
        }
        if selectedIndex == recordIndex {
          searchIndex := |searchList|;
        }
      }
      assert budgetItems[..|budgetItems|] == budgetItems;
      if 0 <= selectedIndex < |budgetItems| {
        SearchMatchesPrefix(formatAmount, searchInput, budgetItems, selectedIndex + 1);
      }
      if |searchList| == 0 {
        events := events + [ShowError("Search not found.")];
      } else {
        if searchIndex > |searchList| - 1 {
          searchIndex := 0;
        }
        events := events + [NextSearch(searchList[searchIndex])];
      }
    }
  }

  /** One pass of the search loop, in terms of the prefix scanned so far. */
  lemma SearchStep(formatAmount: real -> string, input: string, items: seq<Option<BudgetItem>>, r: int, selectedIndex: int)
    requires 0 <= r < |items|
    ensures SearchMatches(formatAmount, input, items[..r + 1])
         == SearchMatches(formatAmount, input, items[..r])
            + (if items[r].Some? && Matches(formatAmount, input, items[r].value) then [items[r].value] else [])
    ensures selectedIndex == r && items[r].Some? ==>
              Cursor(formatAmount, input, items, selectedIndex) == |SearchMatches(formatAmount, input, items[..r + 1])|
  {
    assert items[..r + 1][..r] == items[..r];
  }
}
