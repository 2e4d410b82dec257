/**
 * Sequence helpers shared by the reports: first-encounter de-duplication
 * (`List.Contains` then `List.Add`, or `SELECT DISTINCT` read in table order),
 * filtering by a key, and sums of amounts, with the partition lemma that says
 * summing the groups of a grouping gives the sum of everything.
 */
module Collections {

  predicate NoDuplicates<T(==)>(s: seq<T>) {
    forall i, j :: 0 <= i < j < |s| ==> s[i] != s[j]
  }

  /** The elements of `s`, each once, in the order of their first occurrence. */
  function Distinct<T(==,!new)>(s: seq<T>): (r: seq<T>)
    ensures NoDuplicates(r)
    ensures forall x :: x in r <==> x in s
    ensures |r| <= |s|
  {
    if s == [] then []
    else
      var init := s[..|s| - 1];
      var d := Distinct(init);
      assert s == init + [s[|s| - 1]];
      if s[|s| - 1] in d then d else d + [s[|s| - 1]]
  }

  /** The position of the first occurrence of `x` in `s`. */
  function FirstIndex<T(==)>(s: seq<T>, x: T): (i: nat)
    requires x in s
    ensures i < |s| && s[i] == x
    ensures forall j :: 0 <= j < i ==> s[j] != x
  {
    if s[0] == x then 0 else 1 + FirstIndex(s[1..], x)
  }

  lemma {:induction false} FirstIndexOfPrefix<T>(s: seq<T>, t: seq<T>, x: T)
    requires x in s
    ensures FirstIndex(s + t, x) == FirstIndex(s, x)
  {
    if s[0] != x {
      assert (s + t)[1..] == s[1..] + t;
      FirstIndexOfPrefix(s[1..], t, x);
    }
  }

  lemma FirstIndexOfNewLast<T>(s: seq<T>, x: T)
    requires x !in s
    ensures FirstIndex(s + [x], x) == |s|
  {
  }

  /** `Distinct` keeps the order in which values are first encountered. */
  lemma {:induction false} DistinctInFirstEncounterOrder<T(!new)>(s: seq<T>)
    ensures forall i, j :: 0 <= i < j < |Distinct(s)| ==>
              FirstIndex(s, Distinct(s)[i]) < FirstIndex(s, Distinct(s)[j])
  {
    if s != [] {
      var init, last := s[..|s| - 1], s[|s| - 1];
      assert s == init + [last];
      DistinctInFirstEncounterOrder(init);
      var d := Distinct(init);
      forall x | x in d
        ensures FirstIndex(s, x) == FirstIndex(init, x) < |init|
      {
        FirstIndexOfPrefix(init, [last], x);
      }
      if last !in d {
        FirstIndexOfNewLast(init, last);
      }
    }
  }

  /** The elements of `s` whose key is `k`, in order. */
  function Where<T(!new), K(==)>(s: seq<T>, key: T -> K, k: K): (r: seq<T>)
    ensures |r| <= |s|
    ensures forall x :: x in r <==> x in s && key(x) == k
  {
    if s == [] then []
    else
      var init := s[..|s| - 1];
      assert s == init + [s[|s| - 1]];
      Where(init, key, k) + (if key(s[|s| - 1]) == k then [s[|s| - 1]] else [])
  }

  /** No element has key `k`, so none is kept. */
  lemma {:induction false} WhereNone<T(!new), K>(s: seq<T>, key: T -> K, k: K)
    requires forall x :: x in s ==> key(x) != k
    ensures Where(s, key, k) == []
  {
    if s != [] {
      WhereNone(s[..|s| - 1], key, k);
    }
  }

  /** The sum of the amounts of the elements of `s`. */
  function SumOf<T>(s: seq<T>, amount: T -> real): real {
    if s == [] then 0.0 else SumOf(s[..|s| - 1], amount) + amount(s[|s| - 1])
  }

  lemma {:induction false} SumOfAppend<T>(a: seq<T>, b: seq<T>, amount: T -> real)
    ensures SumOf(a + b, amount) == SumOf(a, amount) + SumOf(b, amount)
  {
    if b == [] {
      assert a + b == a;
    } else {
      var init := b[..|b| - 1];
      assert (a + b)[..|a + b| - 1] == a + init;
      SumOfAppend(a, init, amount);
    }
  }

  lemma SumOfSnoc<T>(a: seq<T>, x: T, amount: T -> real)
    ensures SumOf(a + [x], amount) == SumOf(a, amount) + amount(x)
  {
    assert (a + [x])[..|a|] == a;
  }

  lemma WhereSnoc<T(!new), K>(s: seq<T>, x: T, key: T -> K, k: K)
    ensures Where(s + [x], key, k) == Where(s, key, k) + (if key(x) == k then [x] else [])
  {
    assert (s + [x])[..|s|] == s;
  }

  /** The sum, over the keys `ks` in order, of the sums of the elements with that key. */
  function SumGroups<T(!new), K(==)>(s: seq<T>, key: T -> K, ks: seq<K>, amount: T -> real): real {
    if ks == [] then 0.0
    else SumGroups(s, key, ks[..|ks| - 1], amount) + SumOf(Where(s, key, ks[|ks| - 1]), amount)
  }

  /** The amount `a` counted once for every occurrence of `k` in `ks`. */
  function PerOccurrence<K(==)>(ks: seq<K>, k: K, a: real): real {
    if ks == [] then 0.0
    else PerOccurrence(ks[..|ks| - 1], k, a) + (if ks[|ks| - 1] == k then a else 0.0)
  }

  lemma {:induction false} PerOccurrenceAbsent<K>(ks: seq<K>, k: K, a: real)
    requires k !in ks
    ensures PerOccurrence(ks, k, a) == 0.0
  {
    if ks != [] {
      PerOccurrenceAbsent(ks[..|ks| - 1], k, a);
    }
  }

  lemma {:induction false} PerOccurrenceOfDistinct<K>(ks: seq<K>, k: K, a: real)
    requires NoDuplicates(ks) && k in ks
    ensures PerOccurrence(ks, k, a) == a
  {
    var init := ks[..|ks| - 1];
    if ks[|ks| - 1] == k {
      assert k !in init;
      PerOccurrenceAbsent(init, k, a);
    } else {
      assert k in init;
      PerOccurrenceOfDistinct(init, k, a);
    }
  }

  /** Adding one element to the grouped data adds its amount once per occurrence of its key. */
  lemma {:induction false} SumGroupsSnoc<T(!new), K>(s: seq<T>, x: T, key: T -> K, ks: seq<K>, amount: T -> real)
    ensures SumGroups(s + [x], key, ks, amount)
         == SumGroups(s, key, ks, amount) + PerOccurrence(ks, key(x), amount(x))
  {
    if ks != [] {
      var init, k := ks[..|ks| - 1], ks[|ks| - 1];
      SumGroupsSnoc(s, x, key, init, amount);
      var w := Where(s, key, k);
      WhereSnoc(s, x, key, k);
      var extra := if key(x) == k then amount(x) else 0.0;
      assert SumOf(Where(s + [x], key, k), amount) == SumOf(w, amount) + extra by {
        if key(x) == k {
          SumOfSnoc(w, x, amount);
        } else {
          assert Where(s + [x], key, k) == w;
        }
      }
      assert PerOccurrence(ks, key(x), amount(x)) == PerOccurrence(init, key(x), amount(x)) + extra;
      assert SumGroups(s + [x], key, ks, amount)
          == SumGroups(s + [x], key, init, amount) + SumOf(Where(s + [x], key, k), amount);
      assert SumGroups(s, key, ks, amount) == SumGroups(s, key, init, amount) + SumOf(w, amount);
    }
  }

  /**
   * Partition: when the keys are distinct and cover every element, the sums of
   * the groups add up to the sum of all elements.
   */
  lemma {:induction false} Partition<T(!new), K>(s: seq<T>, key: T -> K, ks: seq<K>, amount: T -> real)
    requires NoDuplicates(ks)
    requires forall x :: x in s ==> key(x) in ks
    ensures SumGroups(s, key, ks, amount) == SumOf(s, amount)
  {
    if s == [] {
      SumGroupsOfEmpty(key, ks, amount);
    } else {
      var init, x := s[..|s| - 1], s[|s| - 1];
      assert s == init + [x];
      Partition(init, key, ks, amount);
      SumGroupsSnoc(init, x, key, ks, amount);
      PerOccurrenceOfDistinct(ks, key(x), amount(x));
    }
  }

  lemma {:induction false} SumGroupsOfEmpty<T(!new), K>(key: T -> K, ks: seq<K>, amount: T -> real)
    ensures SumGroups([], key, ks, amount) == 0.0
  {
    if ks != [] {
      SumGroupsOfEmpty(key, ks[..|ks| - 1], amount);
    }
  }
}
