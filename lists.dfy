/**
 * The array idioms the screens share: toggling an id in a selection list,
 * `filter`, de-duplication through a `Set` (first occurrence wins, as `Set`
 * iteration follows insertion order), grouping by a key with `reduce`, and
 * the "first N, and M more" truncation of long lists.
 */
module Lists {

  predicate NoDup<T(==)>(l: seq<T>)
  {
    forall i, j :: 0 <= i < j < |l| ==> l[i] != l[j]
  }

  /** `l.filter(p)`. */
  function Filter<T(!new)>(l: seq<T>, p: T -> bool): (r: seq<T>)
    ensures |r| <= |l|
    ensures forall x :: x in r <==> x in l && p(x)
  {
    if l == [] then [] else (if p(l[0]) then [l[0]] else []) + Filter(l[1..], p)
  }

  lemma FilterAppend<T(!new)>(a: seq<T>, b: seq<T>, p: T -> bool)
    ensures Filter(a + b, p) == Filter(a, p) + Filter(b, p)
  {
    if a == [] {
      assert a + b == b;
    } else {
      assert (a + b)[0] == a[0];
      assert (a + b)[1..] == a[1..] + b;
      FilterAppend(a[1..], b, p);
      var h := if p(a[0]) then [a[0]] else [];
      calc {
        Filter(a + b, p);
        h + Filter(a[1..] + b, p);
        h + (Filter(a[1..], p) + Filter(b, p));
        (h + Filter(a[1..], p)) + Filter(b, p);
        Filter(a, p) + Filter(b, p);
      }
    }
  }

  lemma FilterSnoc<T(!new)>(l: seq<T>, x: T, p: T -> bool)
    ensures Filter(l + [x], p) == Filter(l, p) + (if p(x) then [x] else [])
  {
    FilterAppend(l, [x], p);
    FilterSingle(x, p);
  }

  /** `l.map(f)`. */
  function Map<T, U>(l: seq<T>, f: T -> U): (r: seq<U>)
    ensures |r| == |l|
    ensures forall i :: 0 <= i < |l| ==> r[i] == f(l[i])
  {
    if l == [] then [] else [f(l[0])] + Map(l[1..], f)
  }

  lemma MapSnoc<T, U>(l: seq<T>, x: T, f: T -> U)
    ensures Map(l + [x], f) == Map(l, f) + [f(x)]
  {
    var m, n := Map(l + [x], f), Map(l, f) + [f(x)];
    forall i | 0 <= i < |m|
      ensures m[i] == n[i]
    {
      if i < |l| {
        assert (l + [x])[i] == l[i];
      } else {
        assert (l + [x])[i] == x;
      }
    }
  }

  lemma NoDupSnoc<T>(l: seq<T>, x: T)
    requires NoDup(l) && x !in l
    ensures NoDup(l + [x])
  {
  }

  lemma ImageAbsent<T, U>(l: seq<T>, x: T, f: T -> U)
    requires forall k :: 0 <= k < |l| ==> f(l[k]) != f(x)
    ensures f(x) !in Map(l, f)
  {
  }

  /** Appending an element whose image differs from every earlier image keeps the images distinct. */
  lemma MapSnocNoDup<T, U>(l: seq<T>, x: T, f: T -> U)
    requires NoDup(Map(l, f))
    requires forall k :: 0 <= k < |l| ==> f(l[k]) != f(x)
    ensures NoDup(Map(l + [x], f))
  {
    ImageAbsent(l, x, f);
    NoDupSnoc(Map(l, f), f(x));
    MapSnoc(l, x, f);
  }

  /** `l.filter(y => y !== x)`: every occurrence of `x` removed, everything else kept in order. */
  function Remove<T(==,!new)>(l: seq<T>, x: T): (r: seq<T>)
    ensures x !in r
    ensures forall y :: y != x ==> (y in r <==> y in l)
    ensures x !in l ==> r == l
  {
    if l == [] then []
    else if l[0] == x then Remove(l[1..], x)
    else [l[0]] + Remove(l[1..], x)
  }

  lemma RemoveNoDup<T(!new)>(l: seq<T>, x: T)
    requires NoDup(l)
    ensures NoDup(Remove(l, x))
  {
    if l != [] {
      assert NoDup(l[1..]);
      RemoveNoDup(l[1..], x);
      assert l[0] !in l[1..];
      assert l[0] !in Remove(l[1..], x);
    }
  }

  /** `l.includes(x) ? l.filter(y => y !== x) : [...l, x]`. */
  function Toggle<T(==,!new)>(l: seq<T>, x: T): seq<T>
  {
    if x in l then Remove(l, x) else l + [x]
  }

  /** Toggling flips the membership of exactly the toggled id. */
  lemma ToggleMembership<T(!new)>(l: seq<T>, x: T)
    ensures x in Toggle(l, x) <==> x !in l
    ensures forall y :: y != x ==> (y in Toggle(l, x) <==> y in l)
  {
  }

  /** Toggling an absent id twice restores the list exactly. */
  lemma ToggleTwice<T(!new)>(l: seq<T>, x: T)
    requires x !in l
    ensures Toggle(Toggle(l, x), x) == l
  {
    RemoveAppendAbsent(l, x);
  }

  lemma {:induction false} RemoveAppendAbsent<T(!new)>(l: seq<T>, x: T)
    requires x !in l
    ensures Remove(l + [x], x) == l
  {
    if l != [] {
      assert (l + [x])[1..] == l[1..] + [x];
      RemoveAppendAbsent(l[1..], x);
    }
  }

  /** A list without duplicates stays without duplicates under toggling. */
  lemma ToggleNoDup<T(!new)>(l: seq<T>, x: T)
    requires NoDup(l)
    ensures NoDup(Toggle(l, x))
  {
    if x in l {
      RemoveNoDup(l, x);
    }
  }

  /** `Array.from(new Set(l))`: the first occurrence of each value, in order. */
  function Distinct<T(==,!new)>(l: seq<T>): (r: seq<T>)
    ensures NoDup(r)
    ensures forall x :: x in r <==> x in l
    ensures |r| <= |l|
  {
    if l == [] then []
    else
      var d := Distinct(l[..|l| - 1]);
      assert forall x :: x in l <==> x in l[..|l| - 1] || x == l[|l| - 1] by {
        assert l == l[..|l| - 1] + [l[|l| - 1]];
      }
      if l[|l| - 1] in d then d else d + [l[|l| - 1]]
  }

  /** De-duplicating a list that has no duplicates changes nothing. */
  lemma {:induction false} DistinctOfNoDup<T(!new)>(l: seq<T>)
    requires NoDup(l)
    ensures Distinct(l) == l
  {
    if l != [] {
      DistinctOfNoDup(l[..|l| - 1]);
      assert l == l[..|l| - 1] + [l[|l| - 1]];
    }
  }

  /** Removing `x` drops every copy of it and keeps every other value as often as before. */
  lemma {:induction false} RemoveMultiset<T(!new)>(l: seq<T>, x: T)
    ensures multiset(Remove(l, x))[x] == 0
    ensures forall y :: y != x ==> multiset(Remove(l, x))[y] == multiset(l)[y]
  {
    if l != [] {
      RemoveMultiset(l[1..], x);
      assert l == [l[0]] + l[1..];
    }
  }

  /** `l.indexOf(x)` for a present `x`. */
  function IndexOf<T(==)>(l: seq<T>, x: T): (i: nat)
    requires x in l
    ensures i < |l| && l[i] == x && x !in l[..i]
  {
    if l[0] == x then 0 else 1 + IndexOf(l[1..], x)
  }

  lemma {:induction false} IndexOfSnoc<T>(l: seq<T>, y: T, x: T)
    requires x in l
    ensures IndexOf(l + [y], x) == IndexOf(l, x)
  {
    if l[0] != x {
      assert (l + [y])[1..] == l[1..] + [y];
      IndexOfSnoc(l[1..], y, x);
    }
  }

  /** `Distinct` keeps values in the order of their first occurrence. */
  lemma {:induction false} DistinctOrder<T(!new)>(l: seq<T>)
    ensures forall i, j :: 0 <= i < j < |Distinct(l)| ==> IndexOf(l, Distinct(l)[i]) < IndexOf(l, Distinct(l)[j])
  {
    if l != [] {
      var init, last := l[..|l| - 1], l[|l| - 1];
      assert l == init + [last];
      DistinctOrder(init);
      var d := Distinct(init);
      forall x | x in d
        ensures IndexOf(l, x) == IndexOf(init, x)
      {
        IndexOfSnoc(init, last, x);
      }
      if last !in d {
        assert last !in init;
      }
    }
  }

  /** `l.findIndex(p)`: the first position satisfying `p`, or -1. */
  function FindIndex<T>(l: seq<T>, p: T -> bool): (r: int)
    ensures -1 <= r < |l|
    ensures r == -1 <==> forall i :: 0 <= i < |l| ==> !p(l[i])
    ensures r >= 0 ==> p(l[r]) && forall i :: 0 <= i < r ==> !p(l[i])
  {
    if l == [] then -1
    else if p(l[0]) then 0
    else
      var k := FindIndex(l[1..], p);
      if k == -1 then -1 else k + 1
  }

  /** The first `n` entries (`l.slice(0, n)`). */
  function Take<T>(l: seq<T>, n: nat): (r: seq<T>)
    ensures |r| == if |l| < n then |l| else n
    ensures r <= l
  {
    if |l| <= n then l else l[..n]
  }

  /** The number announced in "... and N more" beneath a list cut at `n`, when the list is longer. */
  function MoreCount<T>(l: seq<T>, n: nat): (r: nat)
    ensures |Take(l, n)| + r == |l|
  {
    if |l| > n then |l| - n else 0
  }

  // ---------------------------------------------------------------- grouping

  /** Adds `x` to the bucket for `k`, opening a new bucket at the end when `k` is new. */
  function AddToGroup<T, K(==)>(g: seq<(K, seq<T>)>, k: K, x: T): (r: seq<(K, seq<T>)>)
    ensures |r| == |g| || |r| == |g| + 1
  {
    if g == [] then [(k, [x])]
    else if g[0].0 == k then [(k, g[0].1 + [x])] + g[1..]
    else [g[0]] + AddToGroup(g[1..], k, x)
  }

  /** `l.reduce((acc, x) => { (acc[key(x)] ||= []).push(x); return acc }, {})`, buckets in insertion order. */
  function GroupBy<T, K(==)>(l: seq<T>, key: T -> K): seq<(K, seq<T>)>
  {
    if l == [] then [] else AddToGroup(GroupBy(l[..|l| - 1], key), key(l[|l| - 1]), l[|l| - 1])
  }

  function Keys<T, K>(g: seq<(K, seq<T>)>): (r: seq<K>)
    ensures |r| == |g|
    ensures forall i :: 0 <= i < |g| ==> r[i] == g[i].0
  {
    if g == [] then [] else [g[0].0] + Keys(g[1..])
  }

  /** The test "has key `k`" that a bucket filters on. */
  function KeyIs<T, K(==)>(key: T -> K, k: K): T -> bool
  {
    x => key(x) == k
  }

  /** The buckets of `g` agree with `l`: one per distinct key in first-occurrence order, each the filter of `l` on its key. */
  ghost predicate GroupsOf<T(!new), K(!new)>(g: seq<(K, seq<T>)>, l: seq<T>, key: T -> K)
  {
    && Keys(g) == Distinct(Map(l, key))
    && forall i :: 0 <= i < |g| ==> g[i].1 == Filter(l, KeyIs(key, g[i].0))
  }

  lemma {:induction false} AddToGroupKeys<T, K>(g: seq<(K, seq<T>)>, k: K, x: T)
    ensures Keys(AddToGroup(g, k, x)) == if k in Keys(g) then Keys(g) else Keys(g) + [k]
  {
    if g != [] && g[0].0 != k {
      AddToGroupKeys(g[1..], k, x);
      assert Keys(g) == [g[0].0] + Keys(g[1..]);
    }
  }

  lemma {:induction false} AddToGroupBuckets<T, K>(g: seq<(K, seq<T>)>, k: K, x: T)
    requires NoDup(Keys(g))
    ensures Bucketed(g, k, x, AddToGroup(g, k, x))
  {
    if g == [] {
      assert AddToGroup(g, k, x) == [(k, [x])];
    } else {
      var tail := g[1..];
      if g[0].0 != k {
        NoDupKeysTail(g, tail);
        AddToGroupBuckets(tail, k, x);
        BucketedOtherHead(g, tail, k, x);
      } else {
        BucketedSameHead(g, tail, k, x);
      }
    }
  }

  lemma NoDupKeysTail<T, K>(g: seq<(K, seq<T>)>, tail: seq<(K, seq<T>)>)
    requires g != [] && tail == g[1..] && NoDup(Keys(g))
    ensures NoDup(Keys(tail))
  {
    assert Keys(tail) == Keys(g)[1..];
  }

  /** What adding `x` under `k` did to the buckets `g`, with `r` the result. */
  predicate Bucketed<T(==), K(==)>(g: seq<(K, seq<T>)>, k: K, x: T, r: seq<(K, seq<T>)>)
  {
    && |r| == (if k in Keys(g) then |g| else |g| + 1)
    && (forall i :: 0 <= i < |g| && g[i].0 != k ==> r[i] == g[i])
    && (forall i :: 0 <= i < |g| && g[i].0 == k ==> r[i] == (k, g[i].1 + [x]))
    && (k !in Keys(g) ==> r[|g|] == (k, [x]))
  }

  lemma BucketedOtherHead<T, K>(g: seq<(K, seq<T>)>, tail: seq<(K, seq<T>)>, k: K, x: T)
    requires g != [] && tail == g[1..] && g[0].0 != k
    requires Bucketed(tail, k, x, AddToGroup(tail, k, x))
    ensures Bucketed(g, k, x, AddToGroup(g, k, x))
  {
    assert AddToGroup(g, k, x) == [g[0]] + AddToGroup(tail, k, x);
    assert (k in Keys(g)) == (k in Keys(tail)) by {
      assert Keys(g) == [g[0].0] + Keys(tail);
    }
    ConsBucketed(g, tail, k, x, AddToGroup(g, k, x), AddToGroup(tail, k, x));
  }

  /** Buckets behind an untouched first bucket. */
  lemma ConsBucketed<T, K>(g: seq<(K, seq<T>)>, tail: seq<(K, seq<T>)>, k: K, x: T, r: seq<(K, seq<T>)>, rt: seq<(K, seq<T>)>)
    requires g != [] && tail == g[1..] && g[0].0 != k && r == [g[0]] + rt
    requires (k in Keys(g)) == (k in Keys(tail))
    requires Bucketed(tail, k, x, rt)
    ensures Bucketed(g, k, x, r)
  {
    forall i | 0 <= i < |g| && g[i].0 != k
      ensures r[i] == g[i]
    {
      if i > 0 {
        assert r[i] == rt[i - 1] && g[i] == tail[i - 1];
      }
    }
    forall i | 0 <= i < |g| && g[i].0 == k
      ensures r[i] == (k, g[i].1 + [x])
    {
      assert r[i] == rt[i - 1] && g[i] == tail[i - 1];
    }
    if k !in Keys(g) {
      assert r[|g|] == rt[|tail|];
    }
  }

  lemma BucketedSameHead<T, K>(g: seq<(K, seq<T>)>, tail: seq<(K, seq<T>)>, k: K, x: T)
    requires g != [] && tail == g[1..] && g[0].0 == k && NoDup(Keys(g))
    ensures Bucketed(g, k, x, AddToGroup(g, k, x))
  {
    var r := AddToGroup(g, k, x);
    assert r == [(k, g[0].1 + [x])] + tail;
    assert k in Keys(g) by {
      assert Keys(g)[0] == k;
    }
    forall i | 1 <= i < |g|
      ensures g[i].0 != k && r[i] == g[i]
    {
      assert Keys(g)[0] != Keys(g)[i];
    }
  }


  lemma {:induction false} GroupByKeys<T(!new), K(!new)>(l: seq<T>, key: T -> K)
    ensures Keys(GroupBy(l, key)) == Distinct(Map(l, key))
  {
    if l != [] {
      var init, x := l[..|l| - 1], l[|l| - 1];
      GroupByKeys(init, key);
      AddToGroupKeys(GroupBy(init, key), key(x), x);
      assert Map(l, key)[..|l| - 1] == Map(init, key);
    }
  }

  lemma FilterSingle<T(!new)>(x: T, p: T -> bool)
    ensures Filter([x], p) == if p(x) then [x] else []
  {
    assert [x][1..] == [];
  }

  lemma FilterNoKey<T(!new), K(!new)>(l: seq<T>, key: T -> K, k: K)
    requires k !in Map(l, key)
    ensures Filter(l, KeyIs(key, k)) == []
  {
  }

  /** One bucket after adding `x` to the grouping of `init` is the filter of `init + [x]` on its key. */
  lemma {:induction false} AddToGroupBucket<T(!new), K(!new)>(g: seq<(K, seq<T>)>, init: seq<T>, x: T, key: T -> K, i: nat)
    requires NoDup(Keys(g))
    requires forall j :: 0 <= j < |g| ==> g[j].1 == Filter(init, KeyIs(key, g[j].0))
    requires key(x) in Keys(g) || key(x) !in Map(init, key)
    requires i < |AddToGroup(g, key(x), x)|
    ensures AddToGroup(g, key(x), x)[i].1 == Filter(init + [x], KeyIs(key, AddToGroup(g, key(x), x)[i].0))
  {
    var r := AddToGroup(g, key(x), x);
    AddToGroupBuckets(g, key(x), x);
    var k := r[i].0;
    FilterAppend(init, [x], KeyIs(key, k));
    FilterSingle(x, KeyIs(key, k));
    if i < |g| && g[i].0 != key(x) {
      assert r[i] == g[i];
      assert Filter([x], KeyIs(key, k)) == [];
    } else if i < |g| {
      assert r[i] == (key(x), g[i].1 + [x]);
    } else {
      assert r[i] == (key(x), [x]);
      FilterNoKey(init, key, key(x));
    }
  }

  /** Grouping by a key yields exactly one bucket per distinct key, in first-occurrence order, each holding that key's entries in order. */
  lemma {:induction false} GroupByCorrect<T(!new), K(!new)>(l: seq<T>, key: T -> K)
    ensures GroupsOf(GroupBy(l, key), l, key)
  {
    GroupByKeys(l, key);
    if l != [] {
      var init, x := l[..|l| - 1], l[|l| - 1];
      assert l == init + [x];
      GroupByCorrect(init, key);
      var g := GroupBy(init, key);
      assert key(x) in Keys(g) || key(x) !in Map(init, key);
      forall i | 0 <= i < |GroupBy(l, key)|
        ensures GroupBy(l, key)[i].1 == Filter(l, KeyIs(key, GroupBy(l, key)[i].0))
      {
        AddToGroupBucket(g, init, x, key, i);
      }
    }
  }

  /** Each entry lands in exactly one bucket: the one for its own key, and keys are never repeated. */
  lemma GroupedOnce<T(!new), K(!new)>(l: seq<T>, key: T -> K, x: T)
    requires x in l
    ensures key(x) in Keys(GroupBy(l, key)) && NoDup(Keys(GroupBy(l, key)))
    ensures forall i :: 0 <= i < |GroupBy(l, key)| ==> (x in GroupBy(l, key)[i].1 <==> GroupBy(l, key)[i].0 == key(x))
  {
    GroupByCorrect(l, key);
    var j :| 0 <= j < |l| && l[j] == x;
    assert Map(l, key)[j] == key(x);
  }

  /** Every entry of a list satisfies `p`, so filtering keeps it whole. */
  lemma {:induction false} FilterAll<T(!new)>(l: seq<T>, p: T -> bool)
    requires forall i :: 0 <= i < |l| ==> p(l[i])
    ensures Filter(l, p) == l
  {
    if l != [] {
      assert p(l[0]);
      assert forall i :: 0 <= i < |l[1..]| ==> l[1..][i] == l[i + 1];
      FilterAll(l[1..], p);
      assert [l[0]] + l[1..] == l;
    }
  }

  /** Inserting a new value anywhere into a list without repeats gives a list without repeats. */
  lemma InsertKeepsNoDup<T>(l: seq<T>, x: T, p: nat)
    requires NoDup(l) && x !in l && p <= |l|
    ensures NoDup(l[..p] + [x] + l[p..])
    ensures forall y :: y in l[..p] + [x] + l[p..] <==> y in l || y == x
  {
    var r := l[..p] + [x] + l[p..];
    assert l == l[..p] + l[p..];
    forall i, j | 0 <= i < j < |r|
      ensures r[i] != r[j]
    {
      if i < p && j > p {
        assert r[j] == l[j - 1];
      } else if i > p {
        assert r[i] == l[i - 1] && r[j] == l[j - 1];
      } else if i == p {
        assert r[j] == l[j - 1];
      } else if j == p {
        assert r[i] == l[i];
      }
    }
  }

  /** A value that filtering drops can be inserted anywhere without changing the filter. */
  lemma FilterInsert<T(!new)>(l: seq<T>, x: T, p: nat, f: T -> bool)
    requires !f(x) && p <= |l|
    ensures Filter(l[..p] + [x] + l[p..], f) == Filter(l, f)
  {
    assert l == l[..p] + l[p..];
    FilterSkip(l[..p], x, l[p..], f);
  }

  lemma FilterSkip<T(!new)>(a: seq<T>, x: T, b: seq<T>, f: T -> bool)
    requires !f(x)
    ensures Filter(a + [x] + b, f) == Filter(a + b, f)
  {
    FilterAppend(a + [x], b, f);
    FilterSnoc(a, x, f);
    assert Filter(a + [x], f) == Filter(a, f);
    FilterAppend(a, b, f);
  }

  /** Filtering drops the whole list exactly when no entry satisfies `p`. */
  lemma FilterDropsAll<T(!new)>(l: seq<T>, p: T -> bool)
    ensures |Filter(l, p)| == 0 <==> forall i :: 0 <= i < |l| ==> !p(l[i])
  {
    var r := Filter(l, p);
    if r != [] {
      assert r[0] in l && p(r[0]);
    }
    if i :| 0 <= i < |l| && p(l[i]) {
      assert l[i] in r;
    }
  }

  /** Filtering keeps the whole list exactly when every entry satisfies `p`. */
  lemma {:induction false} FilterKeepsAll<T(!new)>(l: seq<T>, p: T -> bool)
    ensures |Filter(l, p)| == |l| <==> forall i :: 0 <= i < |l| ==> p(l[i])
  {
    if l != [] {
      FilterKeepsAll(l[1..], p);
      assert forall i :: 0 <= i < |l[1..]| ==> l[1..][i] == l[i + 1];
      if !p(l[0]) {
        assert |Filter(l, p)| <= |l[1..]|;
      }
    }
  }

  lemma MapAppend<T, U>(a: seq<T>, b: seq<T>, f: T -> U)
    ensures Map(a + b, f) == Map(a, f) + Map(b, f)
  {
    assert forall i :: 0 <= i < |a + b| ==> Map(a + b, f)[i] == (Map(a, f) + Map(b, f))[i];
  }

  /** Appending more copies of one new value adds that value once to the de-duplicated list. */
  lemma {:induction false} DistinctAppendSame<T(!new)>(l: seq<T>, m: seq<T>, x: T)
    requires x !in l && |m| > 0
    requires forall k :: 0 <= k < |m| ==> m[k] == x
    ensures Distinct(l + m) == Distinct(l) + [x]
    decreases |m|
  {
    var init := m[..|m| - 1];
    assert (l + m)[..|l + m| - 1] == l + init;
    if init == [] {
      assert l + m == l + [x];
    } else {
      DistinctAppendSame(l, init, x);
    }
  }

  /** De-duplicating a longer list starts with the de-duplicated prefix. */
  lemma {:induction false} DistinctPrefix<T(!new)>(l: seq<T>, m: seq<T>)
    ensures |Distinct(l)| <= |Distinct(l + m)| && Distinct(l + m)[..|Distinct(l)|] == Distinct(l)
    decreases |m|
  {
    if m == [] {
      assert l + m == l;
    } else {
      var init := m[..|m| - 1];
      assert (l + m)[..|l + m| - 1] == l + init;
      DistinctPrefix(l, init);
    }
  }
}
