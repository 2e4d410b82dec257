/**
 * The month by category pivot (`GetBudgetDictionaryByCategoryAndMonth`): one
 * record per month of the month report, keyed by "Month", "Total", each
 * category description of the month's items (its subtotal) and
 * "details:" + description (its items), followed by a TOTALS record holding,
 * for each category of the categories table, the total over all months.
 */
module Pivot {
  import opened Wrappers
  import opened Dates
  import opened Records
  import opened Collections
  import opened Store
  import opened Budget
  import opened Reports

  /** The values a pivot record holds under its keys. */
  datatype Value = Text(text: string) | Num(amount: real) | ItemList(items: seq<BudgetItem>)

  type Record = map<string, Value>

  // ---------------------------------------------------------------------------
  // Ordering of category keys (`OrderBy(g => g.Key)`, compared ordinally)
  // ---------------------------------------------------------------------------

  /** Ordinal string order: a proper prefix comes first, otherwise the first differing character decides. */
  predicate StringLess(a: string, b: string) {
    if a == [] then b != []
    else if b == [] then false
    else if a[0] == b[0] then StringLess(a[1..], b[1..])
    else a[0] < b[0]
  }

  lemma {:induction false} StringLessIrreflexive(a: string)
    ensures !StringLess(a, a)
  {
    if a != [] {
      StringLessIrreflexive(a[1..]);
    }
  }

  lemma {:induction false} StringLessTransitive(a: string, b: string, c: string)
    requires StringLess(a, b) && StringLess(b, c)
    ensures StringLess(a, c)
  {
    if a != [] && b != [] && c != [] && a[0] == b[0] && b[0] == c[0] {
      StringLessTransitive(a[1..], b[1..], c[1..]);
    }
  }

  lemma {:induction false} StringLessTotal(a: string, b: string)
    requires a != b
    ensures StringLess(a, b) || StringLess(b, a)
  {
    if a != [] && b != [] && a[0] == b[0] {
      assert a == [a[0]] + a[1..] && b == [b[0]] + b[1..];
      StringLessTotal(a[1..], b[1..]);
    }
  }

  predicate StrictlySorted(s: seq<string>) {
    forall i, j :: 0 <= i < j < |s| ==> StringLess(s[i], s[j])
  }

  /** Inserts `x` before the first element it is less than. */
  function InsertString(s: seq<string>, x: string): seq<string> {
    if s == [] then [x]
    else if StringLess(x, s[0]) then [x] + s
    else [s[0]] + InsertString(s[1..], x)
  }

  function SortStrings(s: seq<string>): seq<string> {
    if s == [] then [] else InsertString(SortStrings(s[..|s| - 1]), s[|s| - 1])
  }

  lemma {:induction false} InsertStringPermutes(s: seq<string>, x: string)
    ensures multiset(InsertString(s, x)) == multiset(s) + multiset{x}
  {
    if s != [] && !StringLess(x, s[0]) {
      assert s == [s[0]] + s[1..];
      InsertStringPermutes(s[1..], x);
    }
  }

  lemma {:induction false} InsertStringSorted(s: seq<string>, x: string)
    requires StrictlySorted(s) && x !in s
    ensures multiset(InsertString(s, x)) == multiset(s) + multiset{x}
    ensures StrictlySorted(InsertString(s, x))
  {
    InsertStringPermutes(s, x);
    if s != [] && !StringLess(x, s[0]) {
      var tail := s[1..];
      assert StrictlySorted(tail) by {
        forall a, b | 0 <= a < b < |tail| ensures StringLess(tail[a], tail[b]) {
          assert tail[a] == s[a + 1] && tail[b] == s[b + 1];
        }
      }
      InsertStringSorted(tail, x);
      var t := InsertString(tail, x);
      assert InsertString(s, x) == [s[0]] + t;
      StringLessTotal(x, s[0]);
      forall j | 0 <= j < |t| ensures StringLess(s[0], t[j]) {
        assert t[j] in multiset(t);
        if t[j] != x {
          assert t[j] in tail;
          var k :| 0 <= k < |tail| && tail[k] == t[j];
          assert s[k + 1] == t[j];
        }
      }
    } else if s != [] {
      forall j | 0 < j < |s| ensures StringLess(x, s[j]) {
        StringLessTransitive(x, s[0], s[j]);
      }
    }
  }

  /** Sorting distinct strings gives them all, each once, in strictly increasing order. */
  lemma {:induction false} SortStringsSorted(s: seq<string>)
    requires NoDuplicates(s)
    ensures multiset(SortStrings(s)) == multiset(s)
    ensures StrictlySorted(SortStrings(s))
  {
    if s != [] {
      var init, x := s[..|s| - 1], s[|s| - 1];
      assert s == init + [x];
      SortStringsSorted(init);
      assert x !in multiset(SortStrings(init));
      InsertStringSorted(SortStrings(init), x);
    }
  }

  lemma StrictlySortedNoDuplicates(s: seq<string>)
    requires StrictlySorted(s)
    ensures NoDuplicates(s)
  {
    forall i, j | 0 <= i < j < |s| ensures s[i] != s[j] {
      if s[i] == s[j] {
        StringLessIrreflexive(s[i]);
      }
    }
  }

  // ---------------------------------------------------------------------------
  // Grouping the details of one month by category description
  // ---------------------------------------------------------------------------

  function ItemCategories(details: seq<BudgetItem>): (r: seq<string>)
    ensures |r| == |details|
  {
    seq(|details|, i requires 0 <= i < |details| => details[i].category)
  }

  /** The keys of `GroupBy(c => c.Category)`, in key order. */
  function GroupKeys(details: seq<BudgetItem>): seq<string> {
    SortStrings(Distinct(ItemCategories(details)))
  }

  /** The items of one group, in the order of the details. */
  function Group(details: seq<BudgetItem>, k: string): seq<BudgetItem> {
    Where(details, ItemCategory, k)
  }

  function GroupTotal(details: seq<BudgetItem>, k: string): real {
    SumOf(Group(details, k), ItemAmount)
  }

  /** The group keys are exactly the categories of the items, each once, strictly increasing. */
  lemma GroupKeysExact(details: seq<BudgetItem>)
    ensures forall k :: k in GroupKeys(details) <==> exists item :: item in details && item.category == k
    ensures StrictlySorted(GroupKeys(details)) && NoDuplicates(GroupKeys(details))
  {
    var cs := ItemCategories(details);
    SortStringsSorted(Distinct(cs));
    StrictlySortedNoDuplicates(GroupKeys(details));
    forall k ensures k in GroupKeys(details) <==> k in cs {
      assert k in GroupKeys(details) <==> k in multiset(GroupKeys(details));
      assert k in Distinct(cs) <==> k in multiset(Distinct(cs));
    }
    forall k ensures k in cs <==> exists item :: item in details && item.category == k {
      if k in cs {
        var i :| 0 <= i < |cs| && cs[i] == k;
        assert details[i] in details;
      }
      if exists item :: item in details && item.category == k {
        var item :| item in details && item.category == k;
        var i :| 0 <= i < |details| && details[i] == item;
        assert cs[i] == k;
      }
    }
  }

  /** The subtotals of the groups add up to the sum of all the month's amounts. */
  lemma GroupsPartitionDetails(details: seq<BudgetItem>)
    ensures SumGroups(details, ItemCategory, GroupKeys(details), ItemAmount) == SumOf(details, ItemAmount)
  {
    GroupKeysExact(details);
    forall item | item in details ensures ItemCategory(item) in GroupKeys(details) {
    }
    Partition(details, ItemCategory, GroupKeys(details), ItemAmount);
  }

  // ---------------------------------------------------------------------------
  // The record of one month
  // ---------------------------------------------------------------------------

  function DetailsKey(k: string): string { "details:" + k }

  /** A key of the form "details:..." */
  predicate IsDetailsKey(k: string) {
    |k| >= 8 && k[..8] == "details:"
  }

  /** Category descriptions that collide with no other key of a month record. */
  predicate CleanKeys(ks: seq<string>) {
    forall k :: k in ks ==> k != "Month" && k != "Total" && !IsDetailsKey(k)
  }

  /** Sets "details:" + k and then k for each key in order; later keys overwrite earlier ones. */
  function AddGroups(rec: Record, details: seq<BudgetItem>, ks: seq<string>): (r: Record)
    ensures forall key :: key in rec ==> key in r
    ensures forall k :: k in ks ==> k in r && DetailsKey(k) in r
  {
    if ks == [] then rec
    else
      var k := ks[|ks| - 1];
      AddGroups(rec, details, ks[..|ks| - 1])[DetailsKey(k) := ItemList(Group(details, k))][k := Num(GroupTotal(details, k))]
  }

  /** The record of one month: "Month", "Total", then one subtotal and one detail list per category. */
  function MonthRecord(m: BudgetItemsByMonth): (r: Record)
    ensures "Month" in r && "Total" in r
    ensures forall k :: k in GroupKeys(m.details) ==> k in r && DetailsKey(k) in r
  {
    AddGroups(map["Month" := Text(m.month), "Total" := Num(m.total)], m.details, GroupKeys(m.details))
  }

  lemma DetailsKeyFacts(k: string, k2: string)
    ensures IsDetailsKey(DetailsKey(k))
    ensures DetailsKey(k) != "Month" && DetailsKey(k) != "Total"
    ensures DetailsKey(k) == DetailsKey(k2) ==> k == k2
  {
    assert DetailsKey(k)[..8] == "details:";
    if DetailsKey(k) == DetailsKey(k2) {
      assert k == DetailsKey(k)[8..] && k2 == DetailsKey(k2)[8..];
    }
  }

  /** With clean keys, no details key is a category key, "Month" or "Total", and details keys are distinct. */
  lemma DetailsKeysApart(ks: seq<string>)
    requires CleanKeys(ks)
    ensures forall k, k2 :: k in ks && k2 in ks ==> DetailsKey(k) != k2
    ensures forall k :: k in ks ==> DetailsKey(k) != "Month" && DetailsKey(k) != "Total"
    ensures forall k, k2 :: k in ks && k2 in ks && k != k2 ==> DetailsKey(k) != DetailsKey(k2)
  {
    forall k, k2 | k in ks && k2 in ks
      ensures DetailsKey(k) != k2 && DetailsKey(k) != "Month" && DetailsKey(k) != "Total"
      ensures k != k2 ==> DetailsKey(k) != DetailsKey(k2)
    {
      DetailsKeyFacts(k, k2);
    }
  }

  /** Some key of `ks` has `key` as its details key. */
  predicate DetailsOf(ks: seq<string>, key: string) {
    exists j :: 0 <= j < |ks| && DetailsKey(ks[j]) == key
  }

  /** The keys of a month record: the initial ones, the categories and their details keys. */
  lemma {:induction false} AddGroupsKeys(rec: Record, details: seq<BudgetItem>, ks: seq<string>)
    ensures forall key :: key in AddGroups(rec, details, ks) <==> key in rec || key in ks || DetailsOf(ks, key)
  {
    if ks != [] {
      var init, last := ks[..|ks| - 1], ks[|ks| - 1];
      AddGroupsKeys(rec, details, init);
      forall key ensures DetailsOf(ks, key) <==> DetailsOf(init, key) || DetailsKey(last) == key {
        DetailsOfSnoc(ks, key);
      }
      assert ks == init + [last];
    }
  }

  lemma DetailsOfSnoc(ks: seq<string>, key: string)
    requires ks != []
    ensures DetailsOf(ks, key) <==> DetailsOf(ks[..|ks| - 1], key) || DetailsKey(ks[|ks| - 1]) == key
  {
    var init := ks[..|ks| - 1];
    if DetailsOf(ks, key) {
      var j :| 0 <= j < |ks| && DetailsKey(ks[j]) == key;
      if j < |init| {
        assert init[j] == ks[j];
        assert DetailsOf(init, key);
      }
    }
    if DetailsOf(init, key) {
      var j :| 0 <= j < |init| && DetailsKey(init[j]) == key;
      assert ks[j] == init[j];
      assert DetailsOf(ks, key);
    }
    if DetailsKey(ks[|ks| - 1]) == key {
      assert DetailsOf(ks, key);
    }
  }

  /** The keys before the last of clean, distinct keys are clean and distinct, and differ from the last. */
  lemma CleanPrefix(ks: seq<string>)
    requires ks != [] && CleanKeys(ks) && NoDuplicates(ks)
    ensures CleanKeys(ks[..|ks| - 1]) && NoDuplicates(ks[..|ks| - 1])
    ensures ks[|ks| - 1] !in ks[..|ks| - 1]
  {
    var init := ks[..|ks| - 1];
    forall k | k in init ensures k in ks && k != ks[|ks| - 1] {
      var j :| 0 <= j < |init| && init[j] == k;
      assert ks[j] == k;
    }
  }

  /** With clean keys, every group lands under its own two keys and "Month" and "Total" survive. */
  lemma {:induction false} AddGroupsClean(rec: Record, details: seq<BudgetItem>, ks: seq<string>)
    requires "Month" in rec && "Total" in rec
    requires CleanKeys(ks) && NoDuplicates(ks)
    ensures var r := AddGroups(rec, details, ks);
            && r["Month"] == rec["Month"] && r["Total"] == rec["Total"]
            && (forall k :: k in ks ==> r[k] == Num(GroupTotal(details, k)))
            && (forall k :: k in ks ==> r[DetailsKey(k)] == ItemList(Group(details, k)))
  {
    if ks != [] {
      var init, last := ks[..|ks| - 1], ks[|ks| - 1];
      assert last in ks;
      CleanPrefix(ks);
      AddGroupsClean(rec, details, init);
      var r0 := AddGroups(rec, details, init);
      var r := AddGroups(rec, details, ks);
      assert r == r0[DetailsKey(last) := ItemList(Group(details, last))][last := Num(GroupTotal(details, last))];
      DetailsKeyFacts(last, last);
      assert last != "Month" && last != "Total";
      forall k | k in ks ensures r[k] == Num(GroupTotal(details, k)) {
        if k != last {
          DetailsKeyFacts(last, k);
          assert k in init;
        }
      }
      forall k | k in ks ensures r[DetailsKey(k)] == ItemList(Group(details, k)) {
        if k != last {
          DetailsKeyFacts(k, last);
          assert k in init;
        }
      }
    }
  }

  /** A month record holds the month's key and total, and each category's subtotal and items. */
  lemma MonthRecordClean(m: BudgetItemsByMonth)
    requires CleanKeys(GroupKeys(m.details))
    ensures var r := MonthRecord(m);
            && (forall key :: key in r <==> key == "Month" || key == "Total" || key in GroupKeys(m.details) || DetailsOf(GroupKeys(m.details), key))
            && r["Month"] == Text(m.month) && r["Total"] == Num(m.total)
            && (forall k :: k in GroupKeys(m.details) ==> r[k] == Num(GroupTotal(m.details, k)))
            && (forall k :: k in GroupKeys(m.details) ==> r[DetailsKey(k)] == ItemList(Group(m.details, k)))
  {
    var rec := map["Month" := Text(m.month), "Total" := Num(m.total)];
    GroupKeysExact(m.details);
    AddGroupsKeys(rec, m.details, GroupKeys(m.details));
    AddGroupsClean(rec, m.details, GroupKeys(m.details));
  }

  /** A category named "Total" overwrites the month's total with its own subtotal. */
  lemma TotalKeyOverwritten(m: BudgetItemsByMonth)
    requires exists item :: item in m.details && item.category == "Total"
    ensures MonthRecord(m)["Total"] == Num(GroupTotal(m.details, "Total"))
  {
    var ks := GroupKeys(m.details);
    GroupKeysExact(m.details);
    var item :| item in m.details && item.category == "Total";
    assert "Total" in ks;
    var i :| 0 <= i < |ks| && ks[i] == "Total";
    forall j | i < j < |ks| ensures DetailsKey(ks[j]) != ks[i] {
      DetailsKeyFacts(ks[j], ks[j]);
    }
    AddGroupsLastWins(map["Month" := Text(m.month), "Total" := Num(m.total)], m.details, ks, i);
  }

  /** After the whole fold, the key `ks[i]` holds its group's subtotal when no later key or details key is the same. */
  lemma {:induction false} AddGroupsLastWins(rec: Record, details: seq<BudgetItem>, ks: seq<string>, i: int)
    requires 0 <= i < |ks| && NoDuplicates(ks)
    requires forall j :: i < j < |ks| ==> DetailsKey(ks[j]) != ks[i]
    ensures AddGroups(rec, details, ks)[ks[i]] == Num(GroupTotal(details, ks[i]))
  {
    var init, last := ks[..|ks| - 1], ks[|ks| - 1];
    var r0 := AddGroups(rec, details, init);
    assert AddGroups(rec, details, ks) == r0[DetailsKey(last) := ItemList(Group(details, last))][last := Num(GroupTotal(details, last))];
    if i < |ks| - 1 {
      assert init[i] == ks[i];
      assert NoDuplicates(init) by {
        forall a, b | 0 <= a < b < |init| ensures init[a] != init[b] {
          assert init[a] == ks[a] && init[b] == ks[b];
        }
      }
      forall j | i < j < |init| ensures DetailsKey(init[j]) != init[i] {
        assert init[j] == ks[j];
      }
      AddGroupsLastWins(rec, details, init, i);
      assert last != ks[i] && DetailsKey(last) != ks[i];
    }
  }

  /** In every record of the month report, the category subtotals add up to the month's total. */
  lemma MonthSubtotalsAddUp(cats: seq<Category>, exps: seq<Expense>, start: Option<Date>, end: Option<Date>,
                            filterFlag: bool, cid: int, m: BudgetItemsByMonth)
    requires m in MonthReport(cats, exps, start, end, filterFlag, cid)
    ensures SumGroups(m.details, ItemCategory, GroupKeys(m.details), ItemAmount) == m.total
  {
    GroupsPartitionDetails(m.details);
  }

  // ---------------------------------------------------------------------------
  // Totals per category and the TOTALS record
  // ---------------------------------------------------------------------------

  /** Adds one subtotal to a running total (`TryGetValue`, then add or insert). */
  function AddSubtotal(totals: map<string, real>, k: string, subtotal: real): map<string, real> {
    totals[k := if k in totals then totals[k] + subtotal else subtotal]
  }

  /** Adds each group's subtotal to the running totals. */
  function AddToTotals(totals: map<string, real>, details: seq<BudgetItem>, ks: seq<string>): map<string, real> {
    if ks == [] then totals
    else
      var k := ks[|ks| - 1];
      AddSubtotal(AddToTotals(totals, details, ks[..|ks| - 1]), k, GroupTotal(details, k))
  }

  /** `totalsPerCategory` after the loop over the months. */
  function Totals(months: seq<BudgetItemsByMonth>): map<string, real> {
    if months == [] then map[]
    else
      var m := months[|months| - 1];
      AddToTotals(Totals(months[..|months| - 1]), m.details, GroupKeys(m.details))
  }

  /** The subtotal of category `k`, summed over the months. */
  function MonthsGroupTotal(months: seq<BudgetItemsByMonth>, k: string): real {
    if months == [] then 0.0
    else MonthsGroupTotal(months[..|months| - 1], k) + GroupTotal(months[|months| - 1].details, k)
  }

  /** Some month has an item of category `k`. */
  predicate InSomeMonth(months: seq<BudgetItemsByMonth>, k: string) {
    exists i :: 0 <= i < |months| && k in GroupKeys(months[i].details)
  }

  lemma {:induction false} AddToTotalsExact(totals: map<string, real>, details: seq<BudgetItem>, ks: seq<string>)
    requires NoDuplicates(ks)
    ensures var r := AddToTotals(totals, details, ks);
            && (forall k :: k in r <==> k in totals || k in ks)
            && (forall k :: k in r ==>
                  r[k] == (if k in totals then totals[k] else 0.0) + (if k in ks then GroupTotal(details, k) else 0.0))
  {
    if ks != [] {
      var init, last := ks[..|ks| - 1], ks[|ks| - 1];
      assert ks == init + [last];
      AddToTotalsExact(totals, details, init);
    }
  }

  /** A group absent from a month contributes nothing. */
  lemma AbsentGroupTotal(details: seq<BudgetItem>, k: string)
    requires k !in GroupKeys(details)
    ensures GroupTotal(details, k) == 0.0
  {
    GroupKeysExact(details);
    WhereNone(details, ItemCategory, k);
  }

  /** `totalsPerCategory` holds exactly the categories seen in some month, each with its sum over the months. */
  lemma {:induction false} TotalsExact(months: seq<BudgetItemsByMonth>)
    ensures forall k :: k in Totals(months) <==> InSomeMonth(months, k)
    ensures forall k :: k in Totals(months) ==> Totals(months)[k] == MonthsGroupTotal(months, k)
  {
    if months != [] {
      var init := months[..|months| - 1];
      TotalsExact(init);
      assert months == init + [months[|months| - 1]];
      TotalsKeysStep(init, months[|months| - 1]);
      TotalsValuesStep(init, months[|months| - 1]);
    }
  }

  lemma InSomeMonthSnoc(months: seq<BudgetItemsByMonth>, k: string)
    requires months != []
    ensures InSomeMonth(months, k) <==> InSomeMonth(months[..|months| - 1], k) || k in GroupKeys(months[|months| - 1].details)
  {
    var init, last := months[..|months| - 1], |months| - 1;
    if InSomeMonth(months, k) {
      var i :| 0 <= i < |months| && k in GroupKeys(months[i].details);
      if i < last {
        assert init[i] == months[i];
        assert InSomeMonth(init, k);
      }
    }
    if InSomeMonth(init, k) {
      var i :| 0 <= i < |init| && k in GroupKeys(init[i].details);
      assert months[i] == init[i];
      assert InSomeMonth(months, k);
    }
    if k in GroupKeys(months[last].details) {
      assert InSomeMonth(months, k);
    }
  }

  /** One more month adds exactly its categories to the keys of the totals. */
  lemma TotalsKeysStep(init: seq<BudgetItemsByMonth>, m: BudgetItemsByMonth)
    requires forall k :: k in Totals(init) <==> InSomeMonth(init, k)
    ensures forall k :: k in Totals(init + [m]) <==> InSomeMonth(init + [m], k)
  {
    var months := init + [m];
    assert months[..|months| - 1] == init;
    GroupKeysExact(m.details);
    AddToTotalsExact(Totals(init), m.details, GroupKeys(m.details));
    forall k ensures k in Totals(months) <==> InSomeMonth(months, k) {
      InSomeMonthSnoc(months, k);
    }
  }

  /** One more month adds its subtotal to each category's total. */
  lemma TotalsValuesStep(init: seq<BudgetItemsByMonth>, m: BudgetItemsByMonth)
    requires forall k :: k in Totals(init) <==> InSomeMonth(init, k)
    requires forall k :: k in Totals(init) ==> Totals(init)[k] == MonthsGroupTotal(init, k)
    ensures forall k :: k in Totals(init + [m]) ==> Totals(init + [m])[k] == MonthsGroupTotal(init + [m], k)
  {
    var months := init + [m];
    assert months[..|months| - 1] == init;
    GroupKeysExact(m.details);
    AddToTotalsExact(Totals(init), m.details, GroupKeys(m.details));
    forall k | k in Totals(months) ensures Totals(months)[k] == MonthsGroupTotal(months, k) {
      if k !in GroupKeys(m.details) {
        AbsentGroupTotal(m.details, k);
      }
      if k !in Totals(init) {
        MonthsGroupTotalAbsent(init, k);
      }
    }
  }

  lemma {:induction false} MonthsGroupTotalAbsent(months: seq<BudgetItemsByMonth>, k: string)
    requires !InSomeMonth(months, k)
    ensures MonthsGroupTotal(months, k) == 0.0
  {
    if months != [] {
      var init, m := months[..|months| - 1], months[|months| - 1];
      forall i | 0 <= i < |init| ensures k !in GroupKeys(init[i].details) {
        assert months[i] == init[i];
      }
      MonthsGroupTotalAbsent(init, k);
      assert k !in GroupKeys(m.details) by {
        assert months[|months| - 1] == m;
      }
      AbsentGroupTotal(m.details, k);
    }
  }

  /**
   * The TOTALS record: "Month" is "TOTALS", then for each category of the table,
   * in order, its total is added unless the description is already a key or has
   * no total (the failing `Add` or lookup is caught and skipped).
   */
  function TotalsRecord(cats: seq<Category>, totals: map<string, real>): (r: Record)
    ensures "Month" in r && r["Month"] == Text("TOTALS")
  {
    if cats == [] then map["Month" := Text("TOTALS")]
    else
      var r := TotalsRecord(cats[..|cats| - 1], totals);
      var d := cats[|cats| - 1].description;
      if d in r || d !in totals then r else r[d := Num(totals[d])]
  }

  /** Some category of the table has description `d`. */
  predicate HasDescription(cats: seq<Category>, d: string) {
    exists i :: 0 <= i < |cats| && cats[i].description == d
  }

  /** The TOTALS record has "Month" = "TOTALS" and the total of every described category that has one. */
  lemma {:induction false} TotalsRecordExact(cats: seq<Category>, totals: map<string, real>)
    ensures var r := TotalsRecord(cats, totals);
            && (forall d :: d != "Month" ==> (d in r <==> d in totals && HasDescription(cats, d)))
            && (forall d :: d in r && d != "Month" ==> r[d] == Num(totals[d]))
  {
    if cats != [] {
      var init := cats[..|cats| - 1];
      TotalsRecordExact(init, totals);
      forall d ensures HasDescription(cats, d) <==> HasDescription(init, d) || cats[|cats| - 1].description == d {
        if HasDescription(cats, d) {
          var i :| 0 <= i < |cats| && cats[i].description == d;
          if i < |init| {
            assert init[i] == cats[i];
          }
        }
        if HasDescription(init, d) {
          var i :| 0 <= i < |init| && init[i].description == d;
          assert cats[i] == init[i];
        }
      }
    }
  }

  // ---------------------------------------------------------------------------
  // The pivot
  // ---------------------------------------------------------------------------

  function MonthRecords(months: seq<BudgetItemsByMonth>): (rs: seq<Record>)
    ensures |rs| == |months|
  {
    seq(|months|, i requires 0 <= i < |months| => MonthRecord(months[i]))
  }

  /** The month records followed by the TOTALS record built from the category table. */
  function PivotRows(cats: seq<Category>, months: seq<BudgetItemsByMonth>): seq<Record> {
    MonthRecords(months) + [TotalsRecord(cats, Totals(months))]
  }

  /** `GetBudgetDictionaryByCategoryAndMonth(Start, End, FilterFlag, CategoryID)`. */
  function PivotReport(cats: seq<Category>, exps: seq<Expense>, start: Option<Date>, end: Option<Date>,
                       filterFlag: bool, cid: int): seq<Record> {
    PivotRows(cats, MonthReport(cats, exps, start, end, filterFlag, cid))
  }

  /**
   * The pivot has one record per month and a final TOTALS record; a category
   * appears in TOTALS exactly when the table describes it and some month has
   * items of it, and its value is its subtotals summed over the months.
   */
  lemma PivotShape(cats: seq<Category>, months: seq<BudgetItemsByMonth>)
    ensures var rows := PivotRows(cats, months);
            && |rows| == |months| + 1
            && (forall i :: 0 <= i < |months| ==> rows[i] == MonthRecord(months[i]))
            && rows[|months|]["Month"] == Text("TOTALS")
            && (forall d :: d != "Month" ==> (d in rows[|months|] <==> HasDescription(cats, d) && InSomeMonth(months, d)))
            && (forall d :: d != "Month" && d in rows[|months|] ==> rows[|months|][d] == Num(MonthsGroupTotal(months, d)))
  {
    TotalsExact(months);
    TotalsRecordExact(cats, Totals(months));
  }
}
