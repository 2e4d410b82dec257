/**
 * The relational store behind the budget library: the three SQLite tables
 * categoryTypes, categories and expenses, each a sequence of rows in rowid
 * order, and the two classes that read and write them through one shared
 * connection. Every mutation is guarded: an unknown id, an unknown type or a
 * dangling category reference makes it a silent no-op.
 */
module Store {
  import opened Wrappers
  import opened Dates
  import opened Records
  import opened Collections

  /** A row of the categoryTypes table. */
  datatype TypeRow = TypeRow(id: int, description: string)

  /** What a failed lookup by id throws. */
  datatype NotFound = CategoryNotFound(id: int) | ExpenseNotFound(id: int)

  /** The id column of a table, read with the row type's id accessor. */
  function Ids<T>(rows: seq<T>, id: T -> int): (ids: seq<int>)
    ensures |ids| == |rows| && forall i :: 0 <= i < |rows| ==> ids[i] == id(rows[i])
  {
    seq(|rows|, i requires 0 <= i < |rows| => id(rows[i]))
  }

  function TypeRowId(t: TypeRow): int { t.id }

  function CategoryId(c: Category): int { c.id }

  function ExpenseId(e: Expense): int { e.id }

  /** Rowid order: the ids of a table strictly increase from first row to last. */
  predicate IdsIncreasing(ids: seq<int>) {
    forall i, j :: 0 <= i < j < |ids| ==> ids[i] < ids[j]
  }

  /** The largest id of a non-empty table. */
  function MaxId(ids: seq<int>): (m: int)
    requires ids != []
    ensures m in ids && forall i :: 0 <= i < |ids| ==> ids[i] <= m
  {
    if |ids| == 1 then ids[0]
    else
      var m := MaxId(ids[..|ids| - 1]);
      if ids[|ids| - 1] > m then ids[|ids| - 1] else m
  }

  /**
   * The id that `Id INTEGER PRIMARY KEY` gives a new row: one more than the
   * largest id in the table, or 1 when the table is empty.
   */
  function NextId(ids: seq<int>): (n: int)
    ensures forall i :: 0 <= i < |ids| ==> ids[i] < n
    ensures ids == [] ==> n == 1
    ensures ids != [] ==> n - 1 in ids
  {
    if ids == [] then 1 else MaxId(ids) + 1
  }

  /** In a table whose ids increase, the next id is the last id plus one. */
  lemma NextIdOfIncreasing(ids: seq<int>)
    requires IdsIncreasing(ids) && ids != []
    ensures NextId(ids) == ids[|ids| - 1] + 1
  {
  }

  predicate HasTypeRow(types: seq<TypeRow>, id: int) {
    exists i :: 0 <= i < |types| && types[i].id == id
  }

  predicate HasCategory(cats: seq<Category>, id: int) {
    exists i :: 0 <= i < |cats| && cats[i].id == id
  }

  predicate HasExpense(exps: seq<Expense>, id: int) {
    exists i :: 0 <= i < |exps| && exps[i].id == id
  }

  /** Referential integrity: every expense names a category that exists. */
  predicate ReferencesResolve(cats: seq<Category>, exps: seq<Expense>) {
    forall i :: 0 <= i < |exps| ==> HasCategory(cats, exps[i].category)
  }

  /** `SELECT COUNT(Id) FROM expenses WHERE CategoryId = id`. */
  function ReferenceCount(exps: seq<Expense>, id: int): (n: nat)
    ensures n == 0 <==> forall i :: 0 <= i < |exps| ==> exps[i].category != id
  {
    if exps == [] then 0
    else ReferenceCount(exps[..|exps| - 1], id) + (if exps[|exps| - 1].category == id then 1 else 0)
  }

  /** `DELETE FROM <table> WHERE Id = k`: every row but those whose id is `k`, in order. */
  function RemoveById<T>(rows: seq<T>, id: T -> int, k: int): (r: seq<T>)
    ensures |r| <= |rows|
  {
    if rows == [] then []
    else RemoveById(rows[..|rows| - 1], id, k) + (if id(rows[|rows| - 1]) == k then [] else [rows[|rows| - 1]])
  }

  /** The categories that `SetCategoriesToDefaults` cannot delete: those some expense refers to. */
  function Survivors(cats: seq<Category>, exps: seq<Expense>): (r: seq<Category>)
    ensures |r| <= |cats|
  {
    if cats == [] then []
    else Survivors(cats[..|cats| - 1], exps) + (if ReferenceCount(exps, cats[|cats| - 1].id) > 0 then [cats[|cats| - 1]] else [])
  }

  /** The sixteen categories a new database starts with, in insertion order. */
  const DefaultCategories: seq<(string, CategoryType)> := [
    ("Utilities", CategoryType.Expense),
    ("Rent", CategoryType.Expense),
    ("Food", CategoryType.Expense),
    ("Entertainment", CategoryType.Expense),
    ("Education", CategoryType.Expense),
    ("Miscellaneous", CategoryType.Expense),
    ("Medical Expenses", CategoryType.Expense),
    ("Vacation", CategoryType.Expense),
    ("Credit Card", Credit),
    ("Clothes", CategoryType.Expense),
    ("Gifts", CategoryType.Expense),
    ("Insurance", CategoryType.Expense),
    ("Transportation", CategoryType.Expense),
    ("Eating Out", CategoryType.Expense),
    ("Savings", Savings),
    ("Income", Income)
  ]

  /** The (description, type) pairs of `defaults` whose type has a categoryTypes row. */
  function InsertableDefaults(types: seq<TypeRow>, defaults: seq<(string, CategoryType)>): (r: seq<(string, CategoryType)>)
    ensures |r| <= |defaults|
    ensures (forall t :: HasTypeRow(types, TypeId(t))) ==> r == defaults
  {
    if defaults == [] then []
    else
      var init, last := defaults[..|defaults| - 1], defaults[|defaults| - 1];
      assert defaults == init + [last];
      InsertableDefaults(types, init) + (if HasTypeRow(types, TypeId(last.1)) then [last] else [])
  }

  /** The (description, type) pairs of category rows. */
  function Described(cats: seq<Category>): (r: seq<(string, CategoryType)>)
    ensures |r| == |cats| && forall i :: 0 <= i < |cats| ==> r[i] == (cats[i].description, cats[i].categoryType)
  {
    seq(|cats|, i requires 0 <= i < |cats| => (cats[i].description, cats[i].categoryType))
  }

  /** The categoryTypes rows the seeding loop appends after a table whose largest id is `base`. */
  function SeedRows(base: int): seq<TypeRow> {
    [TypeRow(base + 1, "Income"), TypeRow(base + 2, "Expense"), TypeRow(base + 3, "Credit"), TypeRow(base + 4, "Savings")]
  }

  /** The largest id of a table, or 0 when it is empty. */
  function LastId(ids: seq<int>): int {
    NextId(ids) - 1
  }

  /** Rowid order: the ids of a table strictly increase from first row to last. */
  predicate InRowidOrder<T>(rows: seq<T>, id: T -> int) {
    forall i, j :: 0 <= i < j < |rows| ==> id(rows[i]) < id(rows[j])
  }

  /** The database: the three tables of the schema. */
  class Database {
    var categoryTypes: seq<TypeRow>
    var categories: seq<Category>
    var expenses: seq<Expense>

    /** The invariant the guarded operations keep: rowid order in every table, and referential integrity. */
    ghost predicate Valid()
      reads this
    {
      && InRowidOrder(categoryTypes, TypeRowId)
      && InRowidOrder(categories, CategoryId)
      && InRowidOrder(expenses, ExpenseId)
      && ReferencesResolve(categories, expenses)
    }

    /** A freshly created database file: the three tables, empty. */
    constructor ()
      ensures Valid()
      ensures categoryTypes == [] && categories == [] && expenses == []
    {
      categoryTypes, categories, expenses := [], [], [];
    }

    /** Opening a new database file: the three tables are dropped and created again, empty. */
    method Recreate()
      modifies this
      ensures Valid()
      ensures categoryTypes == [] && categories == [] && expenses == []
    {
      expenses := [];
      categories := [];
      categoryTypes := [];
    }
  }

  /** The categories of a database, with the category-type table they refer to. */
  class Categories {
    const db: Database

    /**
     * Wires the store to the database; for a new database first inserts one
     * categoryTypes row per enum member, in enum order, then sets the defaults.
     */
    constructor (db: Database, isNewDB: bool)
      requires db.Valid()
      modifies db
      ensures this.db == db && db.Valid()
      ensures !isNewDB ==> unchanged(db)
      ensures isNewDB ==> db.expenses == old(db.expenses)
      ensures isNewDB ==> db.categoryTypes == old(db.categoryTypes) + SeedRows(LastId(Ids(old(db.categoryTypes), TypeRowId)))
      ensures isNewDB ==> DefaultsSet(old(db.categories), db.categories, db.expenses, db.categoryTypes)
      ensures isNewDB && old(db.categoryTypes) == [] ==>
                db.categoryTypes == SeedRows(0) && InsertableDefaults(db.categoryTypes, DefaultCategories) == DefaultCategories
    {
      this.db := db;
      new;
      if isNewDB {
        SeedTypes();
        SetCategoriesToDefaults();
        if old(db.categoryTypes) == [] {
          SeededHasEveryType();
        }
      }
    }

    /** The constructor's loop over the enum: one categoryTypes row per member, named after it. */
    method SeedTypes()
      requires db.Valid()
      modifies db
      ensures db.Valid()
      ensures db.categories == old(db.categories) && db.expenses == old(db.expenses)
      ensures db.categoryTypes == old(db.categoryTypes) + SeedRows(LastId(Ids(old(db.categoryTypes), TypeRowId)))
    {
      ghost var types0 := db.categoryTypes;
      for k := 0 to |AllCategoryTypes|
        invariant db.Valid()
        invariant db.categories == old(db.categories) && db.expenses == old(db.expenses)
        invariant db.categoryTypes == types0 + SeedRows(LastId(Ids(types0, TypeRowId)))[..k]
      {
        SeedStep(types0, k, db.categoryTypes);
        db.categoryTypes := db.categoryTypes + [TypeRow(NextId(Ids(db.categoryTypes, TypeRowId)), TypeName(AllCategoryTypes[k]))];
      }
      assert SeedRows(LastId(Ids(types0, TypeRowId)))[..4] == SeedRows(LastId(Ids(types0, TypeRowId)));
    }

    /** Looks a category up by id; throws (here: `Failure`) when no row has it. */
    method GetCategoryFromId(i: int) returns (r: Result<Category, NotFound>)
      ensures r.Success? <==> HasCategory(db.categories, i)
      ensures r.Success? ==> r.value in db.categories && r.value.id == i
      ensures r.Failure? ==> r.error == CategoryNotFound(i)
    {
      var rows := db.categories;
      var c: Option<Category> := None;
      var k := 0;
      while k < |rows|
        invariant 0 <= k <= |rows|
        invariant c.Some? <==> exists j :: 0 <= j < k && rows[j].id == i
        invariant c.Some? ==> c.value in rows && c.value.id == i
      {
        if rows[k].id == i {
          c := Some(rows[k]);
        }
        k := k + 1;
      }
      if c.None? {
        return Failure(CategoryNotFound(i));
      }
      return Success(c.value);
    }

    /**
     * Deletes every category, through the guarded `Delete` (so categories that
     * expenses refer to survive), then adds the sixteen defaults in order.
     */
    method SetCategoriesToDefaults()
      requires db.Valid()
      modifies db
      ensures db.Valid()
      ensures db.categoryTypes == old(db.categoryTypes) && db.expenses == old(db.expenses)
      ensures DefaultsSet(old(db.categories), db.categories, db.expenses, db.categoryTypes)
    {
      DeleteAll();
      AddDefaults();
    }

    /** The delete loop of `SetCategoriesToDefaults`: a guarded `Delete` of every id the table held. */
    method DeleteAll()
      requires db.Valid()
      modifies db
      ensures db.Valid()
      ensures db.categoryTypes == old(db.categoryTypes) && db.expenses == old(db.expenses)
      ensures db.categories == Survivors(old(db.categories), db.expenses)
    {
      // SELECT Id FROM categories, then Delete each id read
      var ids := Ids(db.categories, CategoryId);
      ghost var cats0, exps := db.categories, db.expenses;
      assert InRowidOrder(cats0, CategoryId);
      for k := 0 to |ids|
        invariant db.Valid()
        invariant db.categoryTypes == old(db.categoryTypes) && db.expenses == exps
        invariant db.categories == Survivors(cats0[..k], exps) + cats0[k..]
      {
        DeleteNext(ids[k], cats0, exps, k);
      }
      assert cats0[..|ids|] == cats0;
    }

    /** One pass of the delete loop: the guarded `Delete` of the k-th id read. */
    method DeleteNext(id: int, ghost cats0: seq<Category>, ghost exps: seq<Expense>, ghost k: int)
      requires db.Valid()
      requires 0 <= k < |cats0| && id == cats0[k].id && InRowidOrder(cats0, CategoryId)
      requires db.expenses == exps && db.categories == Survivors(cats0[..k], exps) + cats0[k..]
      modifies db
      ensures db.Valid()
      ensures db.categoryTypes == old(db.categoryTypes) && db.expenses == exps
      ensures db.categories == Survivors(cats0[..k + 1], exps) + cats0[k + 1..]
    {
      DeleteStep(cats0, exps, k, db.categories);
      Delete(id);
    }

    /** The sixteen `Add` calls that end `SetCategoriesToDefaults`, in order. */
    method AddDefaults()
      requires db.Valid()
      modifies db
      ensures db.Valid()
      ensures db.categoryTypes == old(db.categoryTypes) && db.expenses == old(db.expenses)
      ensures AddedInOrder(old(db.categories), db.categories, db.categoryTypes, DefaultCategories)
    {
      ghost var start := db.categories;
      for k := 0 to |DefaultCategories|
        invariant db.Valid()
        invariant db.categoryTypes == old(db.categoryTypes) && db.expenses == old(db.expenses)
        invariant AddedInOrder(start, db.categories, db.categoryTypes, DefaultCategories[..k])
      {
        ghost var before := db.categories;
        Add(DefaultCategories[k].0, DefaultCategories[k].1);
        AddDefaultStep(DefaultCategories, db.categoryTypes, start, before, db.categories, k);
      }
      assert DefaultCategories[..|DefaultCategories|] == DefaultCategories;
    }

    /**
     * Appends a category with the next id when the categoryTypes table has a
     * row for its type; otherwise changes nothing.
     */
    method Add(desc: string, categoryType: CategoryType)
      requires db.Valid()
      modifies db
      ensures db.Valid()
      ensures db.categoryTypes == old(db.categoryTypes) && db.expenses == old(db.expenses)
      ensures db.categories == old(db.categories)
                + (if HasTypeRow(db.categoryTypes, TypeId(categoryType))
                   then [Category(NextId(Ids(old(db.categories), CategoryId)), desc, categoryType)]
                   else [])
    {
      if HasTypeRow(db.categoryTypes, TypeId(categoryType)) {
        var row := Category(NextId(Ids(db.categories, CategoryId)), desc, categoryType);
        db.categories := db.categories + [row];
        assert ReferencesResolve(db.categories, db.expenses) by {
          forall i | 0 <= i < |db.expenses| ensures HasCategory(db.categories, db.expenses[i].category) {
            var j :| 0 <= j < |old(db.categories)| && old(db.categories)[j].id == db.expenses[i].category;
            assert db.categories[j] == old(db.categories)[j];
          }
        }
      }
    }

    /**
     * Deletes a category. An id with no row is ignored; a category that some
     * expense refers to is kept; otherwise its row is removed.
     */
    method Delete(id: int)
      requires db.Valid()
      modifies db
      ensures db.Valid()
      ensures db.categoryTypes == old(db.categoryTypes) && db.expenses == old(db.expenses)
      ensures db.categories == (if ReferenceCount(db.expenses, id) == 0 then RemoveById(old(db.categories), CategoryId, id)
                                else old(db.categories))
    {
      var category := GetCategoryFromId(id);
      if category.Failure? {
        RemoveByIdAbsent(db.categories, CategoryId, id);
        return;
      }
      var count := ReferenceCount(db.expenses, id);
      if count == 0 {
        RemoveByIdKeepsOrder(db.categories, CategoryId, id);
        RemoveByIdMembers(db.categories, CategoryId, id);
        db.categories := RemoveById(db.categories, CategoryId, category.value.id);
        assert ReferencesResolve(db.categories, db.expenses) by {
          forall i | 0 <= i < |db.expenses| ensures HasCategory(db.categories, db.expenses[i].category) {
            var j :| 0 <= j < |old(db.categories)| && old(db.categories)[j].id == db.expenses[i].category;
            assert old(db.categories)[j] in db.categories;
          }
        }
      }
    }

    /** Every category, in table order; the store is left as it is. */
    method List() returns (list: seq<Category>)
      ensures list == db.categories
    {
      list := [];
      var rows := db.categories;
      var k := 0;
      while k < |rows|
        invariant 0 <= k <= |rows|
        invariant list == rows[..k]
      {
        list := list + [NewCategory(rows[k].id, rows[k].description, rows[k].categoryType)];
        k := k + 1;
      }
    }

    /**
     * Sets the description and type of the category with that id. An unknown
     * id or a type without a categoryTypes row changes nothing.
     */
    method UpdateProperties(id: int, newDescr: string, categoryType: CategoryType)
      requires db.Valid()
      modifies db
      ensures db.Valid()
      ensures db.categoryTypes == old(db.categoryTypes) && db.expenses == old(db.expenses)
      ensures |db.categories| == |old(db.categories)|
      ensures forall k :: 0 <= k < |db.categories| ==>
                db.categories[k] == (if old(db.categories)[k].id == id && HasTypeRow(db.categoryTypes, TypeId(categoryType))
                                     then Category(id, newDescr, categoryType)
                                     else old(db.categories)[k])
    {
      var category := GetCategoryFromId(id);
      if category.Failure? {
        return;
      }
      if HasTypeRow(db.categoryTypes, TypeId(categoryType)) {
        var cats := db.categories;
        var updated := seq(|cats|, k requires 0 <= k < |cats| =>
                         if cats[k].id == id then Category(id, newDescr, categoryType) else cats[k]);
        db.categories := updated;
        assert ReferencesResolve(db.categories, db.expenses) by {
          forall i | 0 <= i < |db.expenses| ensures HasCategory(db.categories, db.expenses[i].category) {
            var j :| 0 <= j < |cats| && cats[j].id == db.expenses[i].category;
            assert db.categories[j].id == cats[j].id;
          }
        }
      }
    }
  }

  /** The expenses of a database. */
  class Expenses {
    const db: Database

    /**
     * Wires the store to the database; for a new database it also builds a
     * `Categories` on the same connection, which seeds the category types
     * and resets the default categories once more.
     */
    constructor (db: Database, isNewDB: bool)
      requires db.Valid()
      modifies db
      ensures this.db == db && db.Valid()
      ensures !isNewDB ==> unchanged(db)
      ensures isNewDB ==> db.expenses == old(db.expenses)
      ensures isNewDB ==> db.categoryTypes == old(db.categoryTypes) + SeedRows(LastId(Ids(old(db.categoryTypes), TypeRowId)))
      ensures isNewDB ==> DefaultsSet(old(db.categories), db.categories, db.expenses, db.categoryTypes)
    {
      this.db := db;
      new;
      if isNewDB {
        var categories := new Categories(db, isNewDB);
      }
    }

    /**
     * Appends an expense with the next id when a category has the given id;
     * otherwise changes nothing.
     */
    method Add(date: Date, category: int, amount: real, description: string)
      requires db.Valid()
      modifies db
      ensures db.Valid()
      ensures db.categoryTypes == old(db.categoryTypes) && db.categories == old(db.categories)
      ensures db.expenses == old(db.expenses)
                + (if HasCategory(db.categories, category)
                   then [Expense.Expense(NextId(Ids(old(db.expenses), ExpenseId)), date, category, amount, description)]
                   else [])
    {
      if HasCategory(db.categories, category) {
        db.expenses := db.expenses + [Expense.Expense(NextId(Ids(db.expenses, ExpenseId)), date, category, amount, description)];
      }
    }

    /** Deletes the expense with that id; an unknown id changes nothing. */
    method Delete(id: int)
      requires db.Valid()
      modifies db
      ensures db.Valid()
      ensures db.categoryTypes == old(db.categoryTypes) && db.categories == old(db.categories)
      ensures db.expenses == RemoveById(old(db.expenses), ExpenseId, id)
      ensures !HasExpense(db.expenses, id)
    {
      var expense := GetExpenseFromId(id);
      RemoveByIdMembers(db.expenses, ExpenseId, id);
      if expense.Failure? {
        RemoveByIdAbsent(db.expenses, ExpenseId, id);
        return;
      }
      RemoveByIdKeepsOrder(db.expenses, ExpenseId, id);
      db.expenses := RemoveById(db.expenses, ExpenseId, expense.value.id);
      assert ReferencesResolve(db.categories, db.expenses) by {
        forall i | 0 <= i < |db.expenses| ensures HasCategory(db.categories, db.expenses[i].category) {
          var j :| 0 <= j < |old(db.expenses)| && old(db.expenses)[j] == db.expenses[i];
        }
      }
    }

    /** Every expense, in table order; the store is left as it is. */
    method List() returns (list: seq<Expense>)
      ensures list == db.expenses
    {
      list := [];
      var rows := db.expenses;
      var k := 0;
      while k < |rows|
        invariant 0 <= k <= |rows|
        invariant list == rows[..k]
      {
        list := list + [NewExpense(rows[k].id, rows[k].date, rows[k].category, rows[k].amount, rows[k].description)];
        k := k + 1;
      }
    }

    /** Looks an expense up by id; throws (here: `Failure`) when no row has it. */
    method GetExpenseFromId(i: int) returns (r: Result<Expense, NotFound>)
      ensures r.Success? <==> HasExpense(db.expenses, i)
      ensures r.Success? ==> r.value in db.expenses && r.value.id == i
      ensures r.Failure? ==> r.error == ExpenseNotFound(i)
    {
      var rows := db.expenses;
      var e: Option<Expense> := None;
      var k := 0;
      while k < |rows|
        invariant 0 <= k <= |rows|
        invariant e.Some? <==> exists j :: 0 <= j < k && rows[j].id == i
        invariant e.Some? ==> e.value in rows && e.value.id == i
      {
        if rows[k].id == i {
          e := Some(rows[k]);
        }
        k := k + 1;
      }
      if e.None? {
        return Failure(ExpenseNotFound(i));
      }
      return Success(e.value);
    }

    /**
     * Replaces the date, category, amount and description of the expense with
     * that id. An unknown expense id or an unknown category id changes nothing.
     */
    method UpdateProperties(id: int, newDate: Date, categoryId: int, newAmount: real, newDescr: string)
      requires db.Valid()
      modifies db
      ensures db.Valid()
      ensures db.categoryTypes == old(db.categoryTypes) && db.categories == old(db.categories)
      ensures |db.expenses| == |old(db.expenses)|
      ensures forall k :: 0 <= k < |db.expenses| ==>
                db.expenses[k] == (if old(db.expenses)[k].id == id && HasCategory(db.categories, categoryId)
                                   then Expense.Expense(id, newDate, categoryId, newAmount, newDescr)
                                   else old(db.expenses)[k])
    {
      var expense := GetExpenseFromId(id);
      if expense.Failure? {
        return;
      }
      if HasCategory(db.categories, categoryId) {
        var exps := db.expenses;
        db.expenses := seq(|exps|, k requires 0 <= k < |exps| =>
                         if exps[k].id == id then Expense.Expense(id, newDate, categoryId, newAmount, newDescr) else exps[k]);
      }
    }
  }

  /** One pass of the seeding loop appends the next seeded row and keeps rowid order. */
  lemma SeedStep(types0: seq<TypeRow>, k: int, cur: seq<TypeRow>)
    requires 0 <= k < 4
    requires InRowidOrder(types0, TypeRowId)
    requires cur == types0 + SeedRows(LastId(Ids(types0, TypeRowId)))[..k]
    ensures InRowidOrder(cur, TypeRowId)
    ensures cur + [TypeRow(NextId(Ids(cur, TypeRowId)), TypeName(AllCategoryTypes[k]))]
            == types0 + SeedRows(LastId(Ids(types0, TypeRowId)))[..k + 1]
  {
    var rows := SeedRows(LastId(Ids(types0, TypeRowId)));
    SeedPrefixInOrder(types0, k);
    NextIdAfterSeedPrefix(types0, k);
    assert rows[..k + 1] == rows[..k] + [rows[k]];
  }

  /** After the old rows and k seeded rows, the next id is that of the (k+1)-th seeded row. */
  lemma NextIdAfterSeedPrefix(types0: seq<TypeRow>, k: int)
    requires 0 <= k < 4
    requires InRowidOrder(types0 + SeedRows(LastId(Ids(types0, TypeRowId)))[..k], TypeRowId)
    ensures NextId(Ids(types0 + SeedRows(LastId(Ids(types0, TypeRowId)))[..k], TypeRowId)) == LastId(Ids(types0, TypeRowId)) + k + 1
  {
    if k > 0 {
      var ids := Ids(types0 + SeedRows(LastId(Ids(types0, TypeRowId)))[..k], TypeRowId);
      assert ids[|ids| - 1] == LastId(Ids(types0, TypeRowId)) + k;
      NextIdOfIncreasing(ids);
    } else {
      assert types0 + SeedRows(LastId(Ids(types0, TypeRowId)))[..k] == types0;
    }
  }

  /** The old rows followed by the first k seeded rows are in rowid order. */
  lemma SeedPrefixInOrder(types0: seq<TypeRow>, k: int)
    requires 0 <= k <= 4
    requires InRowidOrder(types0, TypeRowId)
    ensures InRowidOrder(types0 + SeedRows(LastId(Ids(types0, TypeRowId)))[..k], TypeRowId)
  {
    var base := LastId(Ids(types0, TypeRowId));
    var rows := SeedRows(base)[..k];
    var cur := types0 + rows;
    forall i, j | 0 <= i < j < |cur| ensures cur[i].id < cur[j].id {
      if j >= |types0| {
        assert cur[j].id == base + 1 + (j - |types0|);
        if i < |types0| {
          assert Ids(types0, TypeRowId)[i] == types0[i].id;
        } else {
          assert cur[i].id == base + 1 + (i - |types0|);
        }
      }
    }
  }

  /** A table seeded from empty has a row for every category type. */
  lemma SeededHasEveryType()
    ensures forall t :: HasTypeRow(SeedRows(0), TypeId(t))
  {
    forall t ensures HasTypeRow(SeedRows(0), TypeId(t)) {
      assert SeedRows(0)[TypeId(t) - 1].id == TypeId(t);
    }
  }

  /**
   * What `SetCategoriesToDefaults` leaves: the categories that expenses refer
   * to, in their old order, followed by the defaults whose type exists.
   */
  ghost predicate DefaultsSet(before: seq<Category>, after: seq<Category>, exps: seq<Expense>, types: seq<TypeRow>) {
    AddedInOrder(Survivors(before, exps), after, types, DefaultCategories)
  }

  /**
   * `after` is `start` followed by one new row per pair of `defaults` whose
   * type exists, in order; on an empty start the ids run 1, 2, 3, ...
   */
  ghost predicate AddedInOrder(start: seq<Category>, after: seq<Category>, types: seq<TypeRow>, defaults: seq<(string, CategoryType)>) {
    && |after| >= |start|
    && after[..|start|] == start
    && Described(after[|start|..]) == InsertableDefaults(types, defaults)
    && (start == [] ==> forall j :: 0 <= j < |after| ==> after[j].id == j + 1)
  }

  /** One `Add` of the k-th default extends `AddedInOrder` from the first k defaults to the first k+1. */
  lemma AddDefaultStep(defaults: seq<(string, CategoryType)>, types: seq<TypeRow>,
                       start: seq<Category>, before: seq<Category>, after: seq<Category>, k: int)
    requires 0 <= k < |defaults|
    requires InRowidOrder(before, CategoryId)
    requires AddedInOrder(start, before, types, defaults[..k])
    requires after == before + (if HasTypeRow(types, TypeId(defaults[k].1))
                                then [Category(NextId(Ids(before, CategoryId)), defaults[k].0, defaults[k].1)]
                                else [])
    ensures AddedInOrder(start, after, types, defaults[..k + 1])
  {
    var added := after[|before|..];
    assert after == before + added;
    assert after[..|start|] == start by {
      assert after[..|start|] == before[..|start|];
    }
    assert Described(after[|start|..]) == InsertableDefaults(types, defaults[..k + 1]) by {
      assert defaults[..k + 1][..k] == defaults[..k];
      assert after[|start|..] == before[|start|..] + added;
      DescribedAppend(before[|start|..], added);
    }
    if start == [] {
      forall j | 0 <= j < |after| ensures after[j].id == j + 1 {
        if j == |before| {
          if before != [] {
            NextIdOfIncreasing(Ids(before, CategoryId));
          }
        } else {
          assert after[j] == before[j];
        }
      }
    }
  }

  lemma DescribedAppend(a: seq<Category>, b: seq<Category>)
    ensures Described(a + b) == Described(a) + Described(b)
  {
  }

  /** After a delete, the remaining rows are exactly those with another id. */
  lemma {:induction false} RemoveByIdMembers<T(!new)>(rows: seq<T>, id: T -> int, k: int)
    ensures forall x :: x in RemoveById(rows, id, k) <==> x in rows && id(x) != k
  {
    if rows != [] {
      var init := rows[..|rows| - 1];
      assert rows == init + [rows[|rows| - 1]];
      RemoveByIdMembers(init, id, k);
    }
  }

  /** A delete keeps a table in rowid order. */
  lemma {:induction false} RemoveByIdKeepsOrder<T(!new)>(rows: seq<T>, id: T -> int, k: int)
    requires InRowidOrder(rows, id)
    ensures InRowidOrder(RemoveById(rows, id, k), id)
  {
    if rows != [] {
      var init, last := rows[..|rows| - 1], rows[|rows| - 1];
      RemoveByIdKeepsOrder(init, id, k);
      RemoveByIdMembers(init, id, k);
      var r := RemoveById(init, id, k);
      if id(last) != k {
        forall i | 0 <= i < |r| ensures id(r[i]) < id(last) {
          assert r[i] in r;
          assert r[i] in init;
        }
      }
    }
  }

  /** Deleting an id no row has changes nothing. */
  lemma {:induction false} RemoveByIdAbsent<T>(rows: seq<T>, id: T -> int, k: int)
    requires forall i :: 0 <= i < |rows| ==> id(rows[i]) != k
    ensures RemoveById(rows, id, k) == rows
  {
    if rows != [] {
      var init := rows[..|rows| - 1];
      assert rows == init + [rows[|rows| - 1]];
      RemoveByIdAbsent(init, id, k);
    }
  }

  lemma {:induction false} RemoveByIdAppend<T>(a: seq<T>, b: seq<T>, id: T -> int, k: int)
    ensures RemoveById(a + b, id, k) == RemoveById(a, id, k) + RemoveById(b, id, k)
  {
    if b == [] {
      assert a + b == a;
    } else {
      var init := b[..|b| - 1];
      assert (a + b)[..|a + b| - 1] == a + init;
      RemoveByIdAppend(a, init, id, k);
    }
  }

  lemma {:induction false} SurvivorsFromPrefix(cats: seq<Category>, exps: seq<Expense>)
    ensures forall c :: c in Survivors(cats, exps) ==> c in cats
  {
    if cats != [] {
      var init := cats[..|cats| - 1];
      assert cats == init + [cats[|cats| - 1]];
      SurvivorsFromPrefix(init, exps);
    }
  }

  /** In rowid order, no row before the k-th carries the k-th id, so neither does any survivor among them. */
  lemma SurvivorsBeforeLackId(cats0: seq<Category>, exps: seq<Expense>, k: int)
    requires 0 <= k < |cats0|
    requires InRowidOrder(cats0, CategoryId)
    ensures RemoveById(Survivors(cats0[..k], exps), CategoryId, cats0[k].id) == Survivors(cats0[..k], exps)
  {
    var s := Survivors(cats0[..k], exps);
    SurvivorsFromPrefix(cats0[..k], exps);
    forall i | 0 <= i < |s| ensures s[i].id != cats0[k].id {
      assert s[i] in cats0[..k];
    }
    RemoveByIdAbsent(s, CategoryId, cats0[k].id);
  }

  /** Deleting the k-th id from the rows from k on leaves the rows after k. */
  lemma RemoveHeadOfSuffix(cats0: seq<Category>, k: int)
    requires 0 <= k < |cats0|
    requires InRowidOrder(cats0, CategoryId)
    ensures RemoveById(cats0[k..], CategoryId, cats0[k].id) == cats0[k + 1..]
  {
    var c, rest := cats0[k], cats0[k + 1..];
    assert cats0[k..] == [c] + rest;
    forall i | 0 <= i < |rest| ensures rest[i].id != c.id {
      assert rest[i] == cats0[k + 1 + i];
    }
    RemoveByIdAbsent(rest, CategoryId, c.id);
    RemoveByIdAppend([c], rest, CategoryId, c.id);
    assert RemoveById([c], CategoryId, c.id) == [] by {
      assert [c][..0] == [];
    }
  }

  /**
   * One step of the delete loop: when the table holds the survivors of the
   * first k original rows followed by the rest, the guarded delete of the
   * k-th original id leaves the survivors of the first k+1 rows followed by
   * the rest.
   */
  lemma DeleteStep(cats0: seq<Category>, exps: seq<Expense>, k: int, cur: seq<Category>)
    requires 0 <= k < |cats0|
    requires InRowidOrder(cats0, CategoryId)
    requires cur == Survivors(cats0[..k], exps) + cats0[k..]
    ensures ReferenceCount(exps, cats0[k].id) == 0 ==>
              RemoveById(cur, CategoryId, cats0[k].id) == Survivors(cats0[..k + 1], exps) + cats0[k + 1..]
    ensures ReferenceCount(exps, cats0[k].id) > 0 ==> cur == Survivors(cats0[..k + 1], exps) + cats0[k + 1..]
  {
    var s := Survivors(cats0[..k], exps);
    assert cats0[..k + 1][..k] == cats0[..k];
    if ReferenceCount(exps, cats0[k].id) == 0 {
      assert Survivors(cats0[..k + 1], exps) == s;
      SurvivorsBeforeLackId(cats0, exps, k);
      RemoveHeadOfSuffix(cats0, k);
      RemoveByIdAppend(s, cats0[k..], CategoryId, cats0[k].id);
    } else {
      assert Survivors(cats0[..k + 1], exps) == s + [cats0[k]];
      assert cats0[k..] == [cats0[k]] + cats0[k + 1..];
    }
  }
}
