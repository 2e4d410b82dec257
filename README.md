# HomeBudget — a Dafny model

HomeBudget is a small personal-budget library with a desktop front end. The
library keeps three SQLite tables (`categoryTypes`, `categories`,
`expenses`), lets the caller add, update and delete categories and expenses,
and answers four report queries over a date window: the plain item list with
a running balance, the items grouped by month, the items grouped by category,
and a month-by-category pivot whose last record holds per-category totals.
The front end's presenter validates form input, chooses the report that
matches the check boxes of the view and implements the search-next-match
command.

The model is split into one Dafny module per concern:

- `wrappers.dfy` (module `Wrappers`): `Option`/`Result`, standing for nullable values and thrown exceptions.
- `dates.dfy` (module `Dates`): calendar dates, their order, month keys `yyyy/MM`.
- `records.dfy` (module `Records`): the value types `Category` (with its type enumeration) and `Expense`.
- `collections.dfy` (module `Collections`): sequence helpers: distinct-in-first-encounter-order, filtering, sums, grouped sums.
- `store.dfy` (module `Store`): the three tables as a `Database` object, and the `Categories` and `Expenses` classes that change it.
- `budget.dfy` (module `Budget`): the joined, windowed, date-sorted query of `GetBudgetItems` and its running balance.
- `reports.dfy` (module `Reports`): the by-month and by-category reports.
- `pivot.dfy` (module `Pivot`): the month-by-category records and the TOTALS record.
- `homebudget.dfy` (module `Api`): the `HomeBudget` facade: the constructor and the loops of the four report methods.
- `presenter.dfy` (module `App`): the `Presenter`: validation, report choice, search.

Each SQL statement is modelled by the rows it yields: a function over the
table sequences (`Joined`, `SortByDate`, `WindowExpenses`, …). The loops that
consume the reader are `method`s with loop invariants, proved to compute the
report functions. The report functions carry the proved properties.

Where the code and its doc comments disagree, the model follows the code:

- Month slices. `GetBudgetItemsByMonth` re-queries each month from the 1st
  at 00:00 to the last day at 00:00, with both bounds strict. An expense on
  the last day of a month, or on the 1st at midnight, is therefore counted
  when months are discovered but is missing from that month's details
  (`Reports.LastDayExpenseMissingFromItsMonth`).
- Month order. Months come out in the order the scan first meets them. The
  scan reads the expense table in table order, with no `ORDER BY` and no
  join, so the months are not sorted by date.
- TOTALS record. A description enters the TOTALS record only when some month
  has items of it. Descriptions shared by two categories are added once: the
  second `Add` throws and the exception is swallowed.
- New database. A new database is seeded twice: the `Expenses` constructor
  builds a second `Categories` object with the new-database flag. The type
  table therefore ends with eight rows (ids 1 to 8), and the default
  categories are set twice, the second time over a table that no expense
  refers to (`Api.NewDatabaseState`).
- Key collisions. A category named `Month` or `Total`, or one of the form
  `details:…`, overwrites other keys of its month record. The model keeps
  that behaviour (`Pivot.TotalKeyOverwritten`). A category named `Month`
  never reaches the TOTALS record: adding it throws on the existing
  "Month" key, and the exception is swallowed.

## Model

| member | source | states |
|---|---|---|
| Records.TypeId | HomeBudgetAPI/Category.cs:49-67 | the enumeration values are 1 to 4, Income = 1, in declaration order |
| Records.TypeOfId | HomeBudgetAPI/Category.cs:49-67 | an integer names a category type exactly when it is 1 to 4, and then it is that type's value |
| Records.TypeIdRoundTrip | HomeBudgetAPI/Category.cs:49-67 | converting a type to its integer and back gives the same type |
| Records.NewCategory | HomeBudgetAPI/Category.cs:79-84 | the constructor stores the id, description and type it is given |
| Records.NewCategoryDefaultsToExpense | HomeBudgetAPI/Category.cs:79-84 | a category built without a type is an Expense category |
| Records.CopyCategory | HomeBudgetAPI/Category.cs:93-98 | the copy constructor keeps id, description and type |
| Records.CategoryToString | HomeBudgetAPI/Category.cs:113-116 | a category prints as its description |
| Records.NewExpense | HomeBudgetAPI/Expense.cs:70-77 | the constructor stores id, date, category, amount and description |
| Records.CopyExpense | HomeBudgetAPI/Expense.cs:86-94 | the copy constructor keeps every field |
| Store.NextId | HomeBudgetAPI/Categories.cs:196-216 | a new rowid is larger than every id in the table, is 1 on an empty table, and is otherwise one more than an existing id |
| Store.NextIdOfIncreasing | HomeBudgetAPI/Expenses.cs:103-125 | in a table kept in rowid order, the new id is one more than the last row's id |
| Store.ReferenceCount | HomeBudgetAPI/Categories.cs:230-266 | the count of expenses that refer to a category is zero exactly when no expense refers to it |
| Store.InsertableDefaults | HomeBudgetAPI/Categories.cs:132-147 | when every type has a row, every default category is insertable |
| Store.Database.constructor | HomeBudgetAPI/Database.cs:64-135 | a new database has three empty tables, and the table invariant holds |
| Store.Database.Recreate | HomeBudgetAPI/Database.cs:64-135 | dropping and re-creating the tables leaves them empty and valid |
| Store.Categories.constructor | HomeBudgetAPI/Categories.cs:45-64 | without the new-database flag nothing changes; with it, four type rows are appended after the largest type id, and the categories become the defaults after the categories still referenced by expenses |
| Store.Categories.SeedTypes | HomeBudgetAPI/Categories.cs:49-61 | the four type names are appended in enumeration order, with ids following the largest existing id |
| Store.Categories.GetCategoryFromId | HomeBudgetAPI/Categories.cs:81-103 | succeeds exactly when a category has that id and returns such a category; otherwise fails with not-found for that id |
| Store.Categories.SetCategoriesToDefaults | HomeBudgetAPI/Categories.cs:116-148 | the categories still referenced by expenses stay in order, followed by the sixteen defaults whose type exists; on an empty table their ids run 1, 2, 3, … |
| Store.Categories.DeleteAll | HomeBudgetAPI/Categories.cs:120-127 | the delete loop leaves exactly the categories that some expense refers to, in order |
| Store.Categories.DeleteNext | HomeBudgetAPI/Categories.cs:126 | one guarded `Delete` of the k-th id read moves that category from the unvisited rows to the survivors exactly when an expense refers to it |
| Store.Categories.AddDefaults | HomeBudgetAPI/Categories.cs:132-147 | the defaults are appended in order, each only if its type exists |
| Store.Categories.Add | HomeBudgetAPI/Categories.cs:196-216 | appends one category with the next rowid when its type exists; otherwise the existence check on `categoryTypes` reads no row and nothing is inserted |
| Store.Categories.Delete | HomeBudgetAPI/Categories.cs:230-266 | removes the rows with that id when no expense refers to it; otherwise nothing changes |
| Store.Categories.List | HomeBudgetAPI/Categories.cs:281-296 | lists the categories in table order |
| Store.Categories.UpdateProperties | HomeBudgetAPI/Categories.cs:312-349 | rewrites the description and type of the row with that id when the type exists; every other row is unchanged |
| Store.Expenses.constructor | HomeBudgetAPI/Expenses.cs:49-57 | with the new-database flag, builds a second Categories object, which seeds types and defaults again; otherwise nothing changes |
| Store.Expenses.Add | HomeBudgetAPI/Expenses.cs:103-125 | appends an expense with the next rowid when its category exists; otherwise the existence check on `categories` reads no row and nothing is inserted |
| Store.Expenses.Delete | HomeBudgetAPI/Expenses.cs:142-164 | removes the expense with that id, and no expense with that id is left |
| Store.Expenses.List | HomeBudgetAPI/Expenses.cs:184-199 | lists the expenses in table order |
| Store.Expenses.GetExpenseFromId | HomeBudgetAPI/Expenses.cs:214-236 | succeeds exactly when an expense has that id and returns it; otherwise fails with not-found for that id |
| Store.Expenses.UpdateProperties | HomeBudgetAPI/Expenses.cs:254-291 | rewrites every field of the row with that id when the new category exists; every other row is unchanged |
| Store.RemoveByIdMembers | HomeBudgetAPI/Expenses.cs:142-164 | after a `DELETE ... WHERE Id = id` (here and in `Categories.Delete`), the remaining rows are exactly those with another id |
| Store.RemoveByIdKeepsOrder | HomeBudgetAPI/Categories.cs:230-266 | a delete by id keeps the table in rowid order (for categories here, and for expenses in `Expenses.Delete`) |
| Store.RemoveByIdAbsent | HomeBudgetAPI/Expenses.cs:142-164 | deleting an id that no row has leaves the table unchanged |
| Store.SurvivorsFromPrefix | HomeBudgetAPI/Categories.cs:120-127 | the delete loop removes categories and never invents one |
| Store.SeededHasEveryType | HomeBudgetAPI/Categories.cs:49-61 | after seeding an empty type table, every category type has a row |
| Store.SeedStep | HomeBudgetAPI/Categories.cs:54-58 | one insert of the seeding loop appends the next type row and keeps rowid order |
| Store.AddDefaultStep | HomeBudgetAPI/Categories.cs:132-147 | one `Add` of a default extends the defaults added so far by that default, or by nothing when its type is missing |
| Store.DeleteStep | HomeBudgetAPI/Categories.cs:120-127 | one delete of the loop removes the k-th category exactly when no expense refers to it |
| Budget.FindCategory | HomeBudgetAPI/HomeBudget.cs:263 | the join finds a category exactly when one has the expense's category id |
| Budget.JoinedMembers | HomeBudgetAPI/HomeBudget.cs:263 | a joined row is exactly an expense strictly inside the window together with the category it refers to |
| Budget.InsertByDatePermutes | HomeBudgetAPI/HomeBudget.cs:263 | inserting a row into the date order adds exactly that row |
| Budget.SortByDateSorted | HomeBudgetAPI/HomeBudget.cs:263 | `ORDER BY E.Date` yields a permutation of the joined rows in date order |
| Budget.ItemsAt | HomeBudgetAPI/HomeBudget.cs:281-301 | item i carries the fields of row i and, as balance, the sum of the amounts of rows 0 to i |
| Budget.ItemsAmounts | HomeBudgetAPI/HomeBudget.cs:281-301 | the items' amounts add up to the rows' amounts |
| Budget.RunningBalance | HomeBudgetAPI/HomeBudget.cs:281-301 | each balance is the sum of the amounts of the items up to it, and the last balance is the total |
| Budget.ItemsFromRows | HomeBudgetAPI/HomeBudget.cs:281-301 | every item comes from one of the rows, and every row yields an item |
| Budget.BudgetItemsExact | HomeBudgetAPI/HomeBudget.cs:254-304 | the items are exactly the joined rows in the window, and only those of the chosen category when the filter is on |
| Budget.BudgetItemsInWindow | HomeBudgetAPI/HomeBudget.cs:254-304 | every item is dated strictly inside the window, has an existing category, and has the chosen category when the filter is on |
| Budget.BudgetItemsSorted | HomeBudgetAPI/HomeBudget.cs:254-304 | the items come out in date order |
| Budget.UnfilteredIgnoresCategoryId | HomeBudgetAPI/HomeBudget.cs:284-287 | without the filter flag, the category id argument does not matter |
| Reports.WindowExpenses | HomeBudgetAPI/HomeBudget.cs:587 | the month query yields exactly the expenses strictly inside the window |
| Reports.DiscoveredMonthsExact | HomeBudgetAPI/HomeBudget.cs:586-602 | a month is discovered exactly when a scanned expense (in the window, of the chosen category when filtering) falls in it |
| Reports.MonthKeysDistinct | HomeBudgetAPI/HomeBudget.cs:600-601 | no month appears twice in the report |
| Reports.MonthsInFirstEncounterOrder | HomeBudgetAPI/HomeBudget.cs:592-602 | the months come in the order the scan first meets them |
| Reports.MonthKeysFormatted | HomeBudgetAPI/HomeBudget.cs:629 | each key is seven characters with a slash at position 4, and parses back to its month |
| Reports.MonthDetailsInsideMonth | HomeBudgetAPI/HomeBudget.cs:612-633 | a month's details all lie in that month, never on the 1st at 00:00 nor on the last day; the month total is the sum of its details |
| Reports.MonthSummaryIgnoresWindow | HomeBudgetAPI/HomeBudget.cs:615-619 | a month's summary does not depend on the window that discovered it |
| Reports.LastDayExpenseMissingFromItsMonth | HomeBudgetAPI/HomeBudget.cs:615-619 | an expense on the last day of its month is discovered, yet its month's details hold no item with its date |
| Reports.ScannedPairsResolve | HomeBudgetAPI/HomeBudget.cs:875 | every (description, id) pair of the DISTINCT query is the description of the category with that id |
| Reports.DiscoveredCategoriesExact | HomeBudgetAPI/HomeBudget.cs:874-889 | the categories discovered are exactly those joined in the window (only the chosen one when filtering), with distinct ids |
| Reports.CategoryDetailsMatch | HomeBudgetAPI/HomeBudget.cs:898-918 | every detail of a category summary has that category's id and description |
| Reports.CategoryTotalIsGroupSum | HomeBudgetAPI/HomeBudget.cs:903-909 | a category's total is the sum of the amounts of the windowed rows with its id |
| Reports.CategoryTotalsPartitionItems | HomeBudgetAPI/HomeBudget.cs:864-921 | without the filter, the category totals add up to the total of the plain item list |
| Pivot.InsertStringPermutes | HomeBudgetAPI/HomeBudget.cs:1423 | inserting a key into the ordered keys adds exactly that key |
| Pivot.SortStringsSorted | HomeBudgetAPI/HomeBudget.cs:1423 | `OrderBy(g => g.Key)` over distinct keys yields a strictly increasing permutation of them |
| Pivot.GroupKeysExact | HomeBudgetAPI/HomeBudget.cs:1418-1423 | the groups of a month are exactly the categories of its items, each once, in increasing order |
| Pivot.GroupsPartitionDetails | HomeBudgetAPI/HomeBudget.cs:1418-1434 | the group subtotals of a month add up to the sum of its details |
| Pivot.MonthRecord | HomeBudgetAPI/HomeBudget.cs:1413-1449 | a month record holds "Month", "Total" and, for each group, its key and its "details:" key |
| Pivot.MonthRecordClean | HomeBudgetAPI/HomeBudget.cs:1413-1449 | with no colliding names, the record holds exactly Month, Total, each group's subtotal and each group's items |
| Pivot.TotalKeyOverwritten | HomeBudgetAPI/HomeBudget.cs:1415-1438 | a category named "Total" replaces the month total by its own subtotal |
| Pivot.AddGroupsLastWins | HomeBudgetAPI/HomeBudget.cs:1437-1438 | a group's key holds its subtotal unless a later "details:" key overwrites it |
| Pivot.MonthSubtotalsAddUp | HomeBudgetAPI/HomeBudget.cs:1410-1449 | in every month of the report, the group subtotals add up to the month total |
| Pivot.AddToTotalsExact | HomeBudgetAPI/HomeBudget.cs:1441-1448 | after one month, a key is in the totals exactly when it was before or is a group of the month, and its value is the old value plus the month's subtotal |
| Pivot.TotalsExact | HomeBudgetAPI/HomeBudget.cs:1408-1453 | a category has a running total exactly when some month has items of it, and the total is its subtotals summed over the months |
| Pivot.TotalsRecordExact | HomeBudgetAPI/HomeBudget.cs:1457-1468 | besides "Month", the TOTALS record holds exactly the descriptions of the table that have a total, each with that total |
| Pivot.PivotShape | HomeBudgetAPI/HomeBudget.cs:1397-1472 | one record per month then TOTALS; a category is in TOTALS exactly when the table describes it and some month has items of it, with its subtotals summed over the months |
| Api.HomeBudget.constructor | HomeBudgetAPI/HomeBudget.cs:70-88 | an existing file is opened unchanged; otherwise the database is new, holds no expenses, has the type rows seeded twice and holds exactly the sixteen defaults with ids 1 to 16 |
| Api.NewDatabaseState | HomeBudgetAPI/Expenses.cs:49-57 | seeding twice gives type ids 1 to 8 and leaves exactly the defaults, numbered from 1 |
| Api.HomeBudget.GetBudgetItems | HomeBudgetAPI/HomeBudget.cs:254-304 | the method returns the item report, with absent bounds taken as 1900-01-01 and 2500-01-01 |
| Api.ReadItems | HomeBudgetAPI/HomeBudget.cs:281-301 | the reader loop skips rows of other categories when filtering and builds the items with running balances |
| Api.HomeBudget.SumAmounts | HomeBudgetAPI/HomeBudget.cs:621-625 | the loop total is the sum of the detail amounts |
| Api.HomeBudget.GetBudgetItemsByMonth | HomeBudgetAPI/HomeBudget.cs:577-636 | the method returns the month report |
| Api.HomeBudget.CollectMonths | HomeBudgetAPI/HomeBudget.cs:586-602 | the discovery loop collects the discovered months |
| Api.ReadMonths | HomeBudgetAPI/HomeBudget.cs:592-602 | the loop keeps each month of a kept row once, in first-encounter order |
| Api.HomeBudget.SummarizeMonths | HomeBudgetAPI/HomeBudget.cs:612-633 | one summary per discovered month, in order |
| Api.HomeBudget.SummarizeMonth | HomeBudgetAPI/HomeBudget.cs:615-632 | a month's summary is its key, its whole-month details and their total |
| Api.HomeBudget.GetBudgetItemsByCategory | HomeBudgetAPI/HomeBudget.cs:864-921 | the method returns the category report |
| Api.HomeBudget.CollectCategories | HomeBudgetAPI/HomeBudget.cs:874-889 | the two lists hold the descriptions and ids of the discovered categories, position by position |
| Api.HomeBudget.SummarizeCategories | HomeBudgetAPI/HomeBudget.cs:898-918 | one summary per discovered category, in order |
| Api.HomeBudget.GetBudgetDictionaryByCategoryAndMonth | HomeBudgetAPI/HomeBudget.cs:1397-1472 | the method returns the pivot report |
| Api.HomeBudget.MonthRecordsOf | HomeBudgetAPI/HomeBudget.cs:1410-1453 | the month loop yields the month records and the per-category running totals |
| Api.HomeBudget.MonthRecordOf | HomeBudgetAPI/HomeBudget.cs:1413-1449 | one month yields its record and adds its group subtotals to the totals |
| Api.AddCategoryGroup | HomeBudgetAPI/HomeBudget.cs:1426-1448 | one group sets its "details:" key, then its own key, and adds its subtotal to the totals |
| Api.CopyGroup | HomeBudgetAPI/HomeBudget.cs:1430-1434 | the inner loop copies the group's items and sums their amounts |
| Api.HomeBudget.TotalsRecordOf | HomeBudgetAPI/HomeBudget.cs:1457-1468 | the TOTALS loop over the category list yields the TOTALS record |
| App.CategoryErrorsIff | HomeBudgetApp/Presenter.cs:32-49 | a category is rejected exactly when its name is null or empty or it has no type |
| App.ExpenseErrorsIff | HomeBudgetApp/Presenter.cs:51-77 | an expense is rejected exactly when its name is empty, it has no date or no category, or its amount is missing or not a number |
| App.ChooseReportTable | HomeBudgetApp/Presenter.cs:124-152 | each report is chosen exactly under its combination of check boxes; the graph box matters only for the pivot |
| App.SearchMatchesExact | HomeBudgetApp/Presenter.cs:162-182 | the matches are exactly the non-null items whose description or amount text contains the input |
| App.SearchMatchesPrefix | HomeBudgetApp/Presenter.cs:162-182 | the matches of a prefix of the list are a prefix of the matches |
| App.ShowsNextMatch | HomeBudgetApp/Presenter.cs:178-192 | when a match follows the selected item, the search shows the first such match |
| App.WrapsToFirstMatch | HomeBudgetApp/Presenter.cs:184-192 | when the selection is null or out of range, or no match follows it, the search shows the first match |
| App.Presenter.constructor | HomeBudgetApp/Presenter.cs:22-25 | a new presenter has no model, has sent no event and has an empty search state |
| App.Presenter.ProcessFile | HomeBudgetApp/Presenter.cs:27-30 | the presenter gets a model over the database file and sends no event; an existing file is left unchanged, otherwise the database holds no expenses, the type rows seeded twice and exactly the sixteen defaults numbered from 1 |
| App.Presenter.AddCategory | HomeBudgetApp/Presenter.cs:32-49 | when valid, the category is added and a completion message shows its name and type; otherwise one error event lists every failed rule and the database is untouched |
| App.Presenter.ValidateExpense | HomeBudgetApp/Presenter.cs:53-66 | the error text has one line per failed rule, in order; with no error the parsed amount is returned |
| App.Presenter.AddExpense | HomeBudgetApp/Presenter.cs:51-77 | when valid, the expense is added with the parsed amount and completion is shown; otherwise one error event and the database is untouched |
| App.Presenter.UpdateExpense | HomeBudgetApp/Presenter.cs:79-105 | when valid, the expense with that id is rewritten with the parsed amount and completion is shown; otherwise one error event and the database is untouched |
| App.Presenter.DeleteExpense | HomeBudgetApp/Presenter.cs:107-117 | the expense with that id is deleted; nothing else changes |
| App.Presenter.SetCategories | HomeBudgetApp/Presenter.cs:119-122 | the view is sent the category list |
| App.Presenter.SetBudgetItems | HomeBudgetApp/Presenter.cs:124-152 | the view is sent exactly the report its check boxes choose |
| App.Presenter.Search | HomeBudgetApp/Presenter.cs:154-196 | an error for empty input, then the matches and the shown index as specified, then either "Search not found." or the match shown |

## Left out

- File handling and connections: opening, creating and closing the SQLite
  file (`HomeBudgetAPI/Database.cs`) are modelled only by their effect on the
  three tables. Whether the file exists is a parameter.
- SQL text, parameter binding and readers: each query is modelled by the
  rows it yields. The duplicate `@id` binding in `UpdateProperties` resolves
  to the last value bound, as SQLite does.
- The private `Categories.Add(Category)` (`HomeBudgetAPI/Categories.cs:160-183`)
  and `Expenses.Add(Expense)` (`HomeBudgetAPI/Expenses.cs:63-88`) are not
  modelled: nothing in the library calls them.
- Floating point: amounts, totals and balances are `real`. Rounding of
  `double` sums is not modelled.
- Dates are whole days plus seconds in the day. Ticks below one second are
  not modelled. Dates compare as the stored ISO text does, chronologically.
- Culture-sensitive ordering: `OrderBy(g => g.Key)` is modelled by an
  ordinal (code point, then length) order on strings.
- Dictionary enumeration order: a record is modelled as a `map`, so the
  insertion order of its keys is not modelled.
- Enumeration values outside 1 to 4 cast to `CategoryType`, and `ToString`
  of such values, are not modelled. Category types are the four names.
- `App.Presenter` methods other than `Search` and the constructor require a
  model to be present (`Ready`). A call before `ProcessFile` would throw on a
  null reference in the original.
- `App.Presenter.DeleteExpense`: the error event of its catch block is not
  modelled, because `Expenses.Delete` catches every exception itself.
- `App.Presenter.DeleteExpense` does not model `View.ShowCompletion` or any
  other view call. The original sends none.
- `double.TryParse` and `double.ToString` are function parameters
  (`tryParse`, `formatAmount`) of the presenter, since they depend on the
  culture.
- Console logging of exceptions, the WPF windows and the view interface are
  not modelled. The view is the sequence of events the presenter sends.
- A null `description` passed to `AddExpense` or `UpdateExpense`, and a
  null `searchInput` passed to `Search`, are not modelled: the parameters
  are declared non-nullable, so the model takes a string. `Search` checks
  its input with `IsNullOrEmpty`, but with a null input the `Contains`
  call on the first non-null item would throw; that path is not modelled.
