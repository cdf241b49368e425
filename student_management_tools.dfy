/**
 * The filter-and-sort dialog of src/components/school-admin/StudentManagementTools.tsx:
 * per-class student counts, local copies of the filters and the sort order, and the two
 * buttons that hand them to the student list. The calls into the list are recorded as
 * events.
 */
module StudentManagementTools {
  import opened Wrappers
  import opened Lists
  import opened Strings

  // ---------------------------------------------------------------- class statistics

  /** `student.class_name || 'Unknown'`. */
  function ClassKey(className: Option<string>): (r: string)
    ensures r == "Unknown" <==> className.None? || className == Some("") || className == Some("Unknown")
  {
    if className.None? || className.value == "" then "Unknown" else className.value
  }

  function ClassKeys(rows: seq<Option<string>>): (r: seq<string>)
    ensures |r| == |rows| && forall k :: 0 <= k < |rows| ==> r[k] == ClassKey(rows[k])
  {
    Map(rows, ClassKey)
  }

  /** How often `k` occurs in `l`. */
  function CountOf(l: seq<string>, k: string): nat
  {
    if l == [] then 0 else CountOf(l[..|l| - 1], k) + (if l[|l| - 1] == k then 1 else 0)
  }

  lemma {:induction false} CountOfPositive(l: seq<string>, k: string)
    ensures CountOf(l, k) > 0 <==> k in l
  {
    if l != [] {
      CountOfPositive(l[..|l| - 1], k);
      assert l == l[..|l| - 1] + [l[|l| - 1]];
    }
  }

  // ---------------------------------------------------------------- the order of an object's keys

  /**
   * A key that JavaScript treats as an array index: "0", or decimal digits without a
   * leading zero, below 2^32 - 1.
   */
  predicate IsIndexKey(k: string)
  {
    && k != []
    && (forall i :: 0 <= i < |k| ==> IsDigit(k[i]))
    && (k[0] != '0' || |k| == 1)
    && ParseDigits(k) < 0xFFFF_FFFF
  }

  predicate IsNameKey(k: string)
  {
    !IsIndexKey(k)
  }

  function IndexValue(k: string): int
    requires IsIndexKey(k)
  {
    ParseDigits(k)
  }

  /** Index keys come first, in ascending order of their values. */
  predicate EntryOrdered(o: seq<string>)
  {
    forall i, j :: 0 <= i < j < |o| && IsIndexKey(o[j]) ==> IsIndexKey(o[i]) && IndexValue(o[i]) <= IndexValue(o[j])
  }

  /** The leading index keys of `o` whose values are below `v`. */
  function IndexKeysBelow(o: seq<string>, v: int): (p: nat)
    ensures p <= |o|
    ensures forall i :: 0 <= i < p ==> IsIndexKey(o[i]) && IndexValue(o[i]) < v
    ensures p < |o| ==> !(IsIndexKey(o[p]) && IndexValue(o[p]) < v)
  {
    if o == [] || !(IsIndexKey(o[0]) && IndexValue(o[0]) < v) then 0 else 1 + IndexKeysBelow(o[1..], v)
  }

  /** Where a new key goes among the keys of an object: an index key by value, any other key last. */
  function InsertPos(o: seq<string>, k: string): (p: nat)
    ensures p <= |o|
  {
    if IsIndexKey(k) then IndexKeysBelow(o, IndexValue(k)) else |o|
  }

  /** The object's keys after a new key `k` is added. */
  function AddKey(o: seq<string>, k: string): (r: seq<string>)
    requires NoDup(o) && k !in o
    ensures NoDup(r) && |r| == |o| + 1
    ensures forall x :: x in r <==> x in o || x == k
  {
    InsertKeepsNoDup(o, k, InsertPos(o, k));
    o[..InsertPos(o, k)] + [k] + o[InsertPos(o, k)..]
  }

  /** Adding a key keeps index keys first and ascending. */
  lemma AddKeyOrdered(o: seq<string>, k: string)
    requires NoDup(o) && k !in o && EntryOrdered(o)
    ensures EntryOrdered(AddKey(o, k))
  {
    var p := InsertPos(o, k);
    var r := AddKey(o, k);
    forall i, j | 0 <= i < j < |r| && IsIndexKey(r[j])
      ensures IsIndexKey(r[i]) && IndexValue(r[i]) <= IndexValue(r[j])
    {
      if j < p {
        assert r[i] == o[i] && r[j] == o[j];
      } else if j == p {
        assert r[i] == o[i];
      } else if i > p {
        assert r[i] == o[i - 1] && r[j] == o[j - 1];
      } else if i == p {
        assert r[j] == o[j - 1];
        assert IsIndexKey(o[p]) && !(IndexValue(o[p]) < IndexValue(k));
      } else {
        assert r[i] == o[i] && r[j] == o[j - 1];
      }
    }
  }

  /**
   * The keys of an object built by adding the keys of `l` in turn, in the order
   * `Object.entries` lists them.
   */
  function EntryOrder(l: seq<string>): (r: seq<string>)
    ensures NoDup(r)
    ensures forall x :: x in r <==> x in l
    ensures |r| <= |l|
  {
    if l == [] then []
    else
      var o := EntryOrder(l[..|l| - 1]);
      assert forall x :: x in l <==> x in l[..|l| - 1] || x == l[|l| - 1] by {
        assert l == l[..|l| - 1] + [l[|l| - 1]];
      }
      if l[|l| - 1] in o then o else AddKey(o, l[|l| - 1])
  }

  lemma FilterAddNameKey(o: seq<string>, k: string)
    requires NoDup(o) && k !in o
    ensures Filter(AddKey(o, k), IsNameKey) == Filter(o, IsNameKey) + (if IsNameKey(k) then [k] else [])
  {
    var p := InsertPos(o, k);
    if IsNameKey(k) {
      assert AddKey(o, k) == o + [k];
      FilterSnoc(o, k, IsNameKey);
    } else {
      FilterInsert(o, k, p, IsNameKey);
    }
  }

  /**
   * `Object.entries` order: every index key comes before every other key, the index keys
   * ascend, and the other keys keep the order in which they were first added.
   */
  lemma {:induction false} EntryOrderRule(l: seq<string>)
    ensures EntryOrdered(EntryOrder(l))
    ensures Filter(EntryOrder(l), IsNameKey) == Filter(Distinct(l), IsNameKey)
  {
    if l != [] {
      var init, x := l[..|l| - 1], l[|l| - 1];
      EntryOrderRule(init);
      var o := EntryOrder(init);
      if x !in o {
        AddKeyOrdered(o, x);
        FilterAddNameKey(o, x);
        FilterSnoc(Distinct(init), x, IsNameKey);
      }
    }
  }

  /** Without index keys, the entries come in order of first appearance. */
  lemma NameKeysInFirstOrder(l: seq<string>)
    requires forall i :: 0 <= i < |l| ==> IsNameKey(l[i])
    ensures EntryOrder(l) == Distinct(l)
  {
    var o, d := EntryOrder(l), Distinct(l);
    assert forall x :: x in l ==> IsNameKey(x);
    assert forall i :: 0 <= i < |o| ==> o[i] in l;
    assert forall i :: 0 <= i < |d| ==> d[i] in l;
    EntryOrderRule(l);
    FilterAll(o, IsNameKey);
    FilterAll(d, IsNameKey);
  }

  datatype ClassStat = ClassStat(className: string, count: nat)

  /** One entry per class, in the order `Object.entries` lists the counter's keys, with its number of students. */
  function ClassStats(rows: seq<Option<string>>): (r: seq<ClassStat>)
    ensures |r| == |EntryOrder(ClassKeys(rows))|
    ensures forall i :: 0 <= i < |r| ==> r[i] == ClassStat(EntryOrder(ClassKeys(rows))[i], CountOf(ClassKeys(rows), EntryOrder(ClassKeys(rows))[i]))
  {
    var keys := ClassKeys(rows);
    var classes := EntryOrder(keys);
    seq(|classes|, i requires 0 <= i < |classes| => ClassStat(classes[i], CountOf(keys, classes[i])))
  }

  lemma KeysSnoc(rows: seq<Option<string>>, i: nat)
    requires i < |rows|
    ensures ClassKeys(rows[..i + 1]) == ClassKeys(rows[..i]) + [ClassKey(rows[i])]
  {
    assert rows[..i + 1] == rows[..i] + [rows[i]];
    MapSnoc(rows[..i], rows[i], ClassKey);
  }

  lemma CountSnoc(l: seq<string>, x: string)
    ensures forall k :: CountOf(l + [x], k) == CountOf(l, k) + (if x == k then 1 else 0)
  {
    assert (l + [x])[..|l|] == l;
  }

  /** The counter holds exactly the keys seen so far, each with its number of occurrences. */
  ghost predicate Counted(acc: map<string, nat>, keys: seq<string>)
  {
    && (forall k :: k in acc <==> k in keys)
    && (forall k :: k in acc ==> acc[k] == CountOf(keys, k))
  }

  /** Incrementing the counter of `x` keeps it correct for one more key. */
  lemma CountedStep(acc: map<string, nat>, keys: seq<string>, x: string)
    requires Counted(acc, keys)
    ensures Counted(acc[x := (if x in acc then acc[x] else 0) + 1], keys + [x])
  {
    CountSnoc(keys, x);
    CountOfPositive(keys, x);
  }

  /** The `reduce`: a counter per class, incremented once per row. */
  method CountClasses(rows: seq<Option<string>>) returns (acc: map<string, nat>)
    ensures forall k :: k in acc <==> k in ClassKeys(rows)
    ensures forall k :: k in acc ==> acc[k] == CountOf(ClassKeys(rows), k)
  {
    acc := map[];
    ghost var keys: seq<string> := [];
    for i := 0 to |rows|
      invariant keys == ClassKeys(rows[..i])
      invariant Counted(acc, keys)
    {
      var className := ClassKey(rows[i]);
      KeysSnoc(rows, i);
      CountedStep(acc, keys, className);
      acc := acc[className := (if className in acc then acc[className] else 0) + 1];
      keys := keys + [className];
    }
    assert rows[..|rows|] == rows;
  }

  /** `Object.entries(stats).map(...)` over a counter that is correct for `keys`. */
  method StatsFromCounts(keys: seq<string>, acc: map<string, nat>) returns (stats: seq<ClassStat>)
    requires forall k :: k in acc <==> k in keys
    requires forall k :: k in acc ==> acc[k] == CountOf(keys, k)
    ensures |stats| == |EntryOrder(keys)|
    ensures forall j :: 0 <= j < |stats| ==> stats[j] == ClassStat(EntryOrder(keys)[j], CountOf(keys, EntryOrder(keys)[j]))
  {
    var classes := EntryOrder(keys);
    stats := [];
    for i := 0 to |classes|
      invariant |stats| == i
      invariant forall j :: 0 <= j < i ==> stats[j] == ClassStat(classes[j], CountOf(keys, classes[j]))
    {
      stats := stats + [ClassStat(classes[i], acc[classes[i]])];
    }
  }

  /** The statistics the dialog shows, in `Object.entries` order: array-index class names ascending, then the others in order of first appearance. */
  method ClassStatsOf(rows: seq<Option<string>>) returns (stats: seq<ClassStat>)
    ensures stats == ClassStats(rows)
  {
    var acc := CountClasses(rows);
    stats := StatsFromCounts(ClassKeys(rows), acc);
  }

  function Counts(stats: seq<ClassStat>): nat
  {
    if stats == [] then 0 else Counts(stats[..|stats| - 1]) + stats[|stats| - 1].count
  }

  /** The sum of the counts of `classes` within `l`. */
  function SumCounts(classes: seq<string>, l: seq<string>): nat
  {
    if classes == [] then 0 else SumCounts(classes[..|classes| - 1], l) + CountOf(l, classes[|classes| - 1])
  }

  /** Adding `x` to the list raises the sum by one if `x` is among the classes, else leaves it. */
  lemma {:induction false} SumCountsSnoc(classes: seq<string>, l: seq<string>, x: string)
    requires NoDup(classes)
    ensures SumCounts(classes, l + [x]) == SumCounts(classes, l) + (if x in classes then 1 else 0)
  {
    assert (l + [x])[..|l + [x]| - 1] == l;
    if classes != [] {
      var init := classes[..|classes| - 1];
      assert classes == init + [classes[|classes| - 1]];
      SumCountsSnoc(init, l, x);
    }
  }

  lemma {:induction false} SumCountsAppendClass(classes: seq<string>, l: seq<string>, x: string)
    ensures SumCounts(classes + [x], l) == SumCounts(classes, l) + CountOf(l, x)
  {
    assert (classes + [x])[..|classes|] == classes;
  }

  lemma {:induction false} SumCountsAppend(a: seq<string>, b: seq<string>, l: seq<string>)
    ensures SumCounts(a + b, l) == SumCounts(a, l) + SumCounts(b, l)
    decreases |b|
  {
    if b != [] {
      var init := b[..|b| - 1];
      assert (a + b)[..|a + b| - 1] == a + init;
      SumCountsAppend(a, init, l);
    } else {
      assert a + b == a;
    }
  }

  /** Adding a key anywhere among the classes adds its count to the sum. */
  lemma SumCountsAddKey(o: seq<string>, l: seq<string>, x: string)
    requires NoDup(o) && x !in o
    ensures SumCounts(AddKey(o, x), l) == SumCounts(o, l) + CountOf(l, x)
  {
    var p := InsertPos(o, x);
    var a, b := o[..p], o[p..];
    assert AddKey(o, x) == (a + [x]) + b;
    SumCountsAppend(a + [x], b, l);
    SumCountsAppendClass(a, l, x);
    assert o == a + b;
    SumCountsAppend(a, b, l);
  }

  /** Counting every key of a list, in entry order, accounts for each entry once. */
  lemma {:induction false} SumOfEntries(l: seq<string>)
    ensures SumCounts(EntryOrder(l), l) == |l|
  {
    if l != [] {
      var init, x := l[..|l| - 1], l[|l| - 1];
      assert l == init + [x];
      SumOfEntries(init);
      var o := EntryOrder(init);
      SumCountsSnoc(o, init, x);
      if x !in o {
        SumCountsAddKey(o, l, x);
        assert CountOf(l, x) == CountOf(init, x) + 1;
        CountOfPositive(init, x);
      }
    }
  }

  /** Entries carrying each class's count: the counts of the first `n` entries sum those classes' counts. */
  lemma {:induction false} CountsOfStats(stats: seq<ClassStat>, classes: seq<string>, keys: seq<string>, n: nat)
    requires |stats| == |classes| && n <= |stats|
    requires forall i :: 0 <= i < |stats| ==> stats[i] == ClassStat(classes[i], CountOf(keys, classes[i]))
    ensures Counts(stats[..n]) == SumCounts(classes[..n], keys)
  {
    if n > 0 {
      CountsOfStats(stats, classes, keys, n - 1);
      assert stats[..n][..n - 1] == stats[..n - 1];
      assert classes[..n][..n - 1] == classes[..n - 1];
    }
  }

  /**
   * Each class appears once, exactly the classes of the rows appear (a missing class as
   * "Unknown"), every count is positive, and the counts add up to the number of rows.
   */
  lemma ClassStatsRule(rows: seq<Option<string>>)
    ensures forall i, j :: 0 <= i < j < |ClassStats(rows)| ==> ClassStats(rows)[i].className != ClassStats(rows)[j].className
    ensures forall c :: (exists i :: 0 <= i < |ClassStats(rows)| && ClassStats(rows)[i].className == c) <==> c in ClassKeys(rows)
    ensures forall i :: 0 <= i < |ClassStats(rows)| ==> ClassStats(rows)[i].count > 0
    ensures Counts(ClassStats(rows)) == |rows|
  {
    var keys := ClassKeys(rows);
    var stats := ClassStats(rows);
    forall c | c in keys
      ensures exists i :: 0 <= i < |stats| && stats[i].className == c
    {
      var i :| 0 <= i < |EntryOrder(keys)| && EntryOrder(keys)[i] == c;
      assert stats[i].className == c;
    }
    forall i | 0 <= i < |stats|
      ensures stats[i].count > 0
    {
      CountOfPositive(keys, EntryOrder(keys)[i]);
    }
    CountsOfStats(stats, EntryOrder(keys), keys, |stats|);
    assert stats[..|stats|] == stats;
    assert EntryOrder(keys)[..|stats|] == EntryOrder(keys);
    SumOfEntries(keys);
  }

  // ---------------------------------------------------------------- filters and sort

  datatype Filters = Filters(classFilter: string, genderFilter: string, hasContact: bool, hasParentInfo: bool,
    dateStart: string, dateEnd: string)

  datatype Direction = Asc | Desc

  datatype Sort = Sort(field: string, direction: Direction)

  const DefaultFilters: Filters := Filters("", "", false, false, "", "")

  const DefaultSort: Sort := Sort("name", Asc)

  /** A call from the dialog into the student list. */
  datatype Event = FilterChanged(filters: Filters) | SortChanged(sort: Sort) | Closed

  class ToolsDialog {
    var filters: Filters
    var sort: Sort
    /** The calls made so far to `onFilterChange`, `onSortChange` and `onClose`, in order. */
    var events: seq<Event>

    /** The dialog opens on copies of the list's current filters and sort. */
    constructor(currentFilters: Filters, currentSort: Sort)
      ensures filters == currentFilters && sort == currentSort && events == []
    {
      filters := currentFilters;
      sort := currentSort;
      events := [];
    }

    /** Editing a filter changes only the local copy. */
    method EditFilters(f: Filters)
      modifies this
      ensures filters == f && sort == old(sort) && events == old(events)
    {
      filters := f;
    }

    /** Editing the sort changes only the local copy. */
    method EditSort(s: Sort)
      modifies this
      ensures sort == s && filters == old(filters) && events == old(events)
    {
      sort := s;
    }

    /** `handleApplyFilters`: the filters, then the sort, then closing. */
    method HandleApplyFilters()
      modifies this
      ensures events == old(events) + [FilterChanged(filters), SortChanged(sort), Closed]
      ensures filters == old(filters) && sort == old(sort)
    {
      events := events + [FilterChanged(filters), SortChanged(sort), Closed];
    }

    /** `handleResetFilters`: the defaults, locally and at once to the list; the dialog stays open. */
    method HandleResetFilters()
      modifies this
      ensures filters == DefaultFilters && sort == DefaultSort
      ensures events == old(events) + [FilterChanged(DefaultFilters), SortChanged(DefaultSort)]
    {
      filters := DefaultFilters;
      sort := DefaultSort;
      events := events + [FilterChanged(DefaultFilters), SortChanged(DefaultSort)];
    }
  }
}
