/**
 * The value types of the budget library: a category and an expense. Both
 * expose only getters in the library, so they are immutable values here.
 */
module Records {
  import opened Wrappers
  import opened Dates

  /** The kinds of category, numbered from 1 as the C# enum declares them. */
  datatype CategoryType = Income | Expense | Credit | Savings

  /** The enum values in declaration order, as `Enum.GetValues` lists them. */
  const AllCategoryTypes: seq<CategoryType> := [Income, CategoryType.Expense, Credit, Savings]

  /** The integer value of an enum member: Income = 1, then counting up. */
  function TypeId(t: CategoryType): (n: int)
    ensures 1 <= n <= 4
    ensures AllCategoryTypes[n - 1] == t
  {
    match t
    case Income => 1
    case Expense => 2
    case Credit => 3
    case Savings => 4
  }

  /** The enum member with a given integer value, if any (the `(CategoryType)n` cast on 1..4). */
  function TypeOfId(n: int): (r: Option<CategoryType>)
    ensures r.Some? <==> 1 <= n <= 4
    ensures r.Some? ==> TypeId(r.value) == n
  {
    if 1 <= n <= 4 then Some(AllCategoryTypes[n - 1]) else None
  }

  /** The enum member's name, as `ToString()` gives it. */
  function TypeName(t: CategoryType): string {
    match t
    case Income => "Income"
    case Expense => "Expense"
    case Credit => "Credit"
    case Savings => "Savings"
  }

  /** A category: an id, a description and a type. */
  datatype Category = Category(id: int, description: string, categoryType: CategoryType)

  /** The constructor `Category(id, description, type = Expense)`. */
  function NewCategory(id: int, description: string, categoryType: CategoryType := CategoryType.Expense): (c: Category)
    ensures c.id == id && c.description == description && c.categoryType == categoryType
  {
    Category(id, description, categoryType)
  }

  /** The copy constructor `Category(Category)`. */
  function CopyCategory(original: Category): (c: Category)
    ensures c.id == original.id
    ensures c.description == original.description
    ensures c.categoryType == original.categoryType
  {
    Category(original.id, original.description, original.categoryType)
  }

  /** `Category.ToString()`: the description alone. */
  function CategoryToString(c: Category): (s: string)
    ensures s == c.description
  {
    c.description
  }

  /**
   * An expense: an id, a date, the id of its category, an amount and a
   * description. Nothing here checks that the category exists; the store does.
   */
  datatype Expense = Expense(id: int, date: Date, category: int, amount: real, description: string)

  /** The constructor `Expense(id, date, category, amount, description)`. */
  function NewExpense(id: int, date: Date, category: int, amount: real, description: string): (e: Expense)
    ensures e.id == id && e.date == date && e.category == category
    ensures e.amount == amount && e.description == description
  {
    Expense.Expense(id, date, category, amount, description)
  }

  /** The copy constructor `Expense(Expense)`. */
  function CopyExpense(original: Expense): (e: Expense)
    ensures e.id == original.id && e.date == original.date && e.category == original.category
    ensures e.amount == original.amount && e.description == original.description
  {
    Expense.Expense(original.id, original.date, original.category, original.amount, original.description)
  }

  /** The default argument of the category constructor is the Expense type. */
  lemma NewCategoryDefaultsToExpense(id: int, description: string)
    ensures NewCategory(id, description).categoryType == CategoryType.Expense
  {
  }

  /** The type ids 1..4 are exactly the enum's members, each once. */
  lemma TypeIdRoundTrip(t: CategoryType)
    ensures TypeOfId(TypeId(t)) == Some(t)
  {
  }
}
