/**
 * The default order of JavaScript's `Array.prototype.sort` on strings: lexicographic,
 * character by character, a proper prefix first. Used for the sorted class lists.
 */
module StringOrder {
  import opened Lists

  /** `a` sorts no later than `b`. */
  predicate LexLe(a: string, b: string)
  {
    a == [] || (b != [] && (a[0] < b[0] || (a[0] == b[0] && LexLe(a[1..], b[1..]))))
  }

  lemma {:induction false} LexLeTotal(a: string, b: string)
    ensures LexLe(a, b) || LexLe(b, a)
  {
    if a != [] && b != [] && a[0] == b[0] {
      LexLeTotal(a[1..], b[1..]);
    }
  }

  lemma {:induction false} LexLeTrans(a: string, b: string, c: string)
    requires LexLe(a, b) && LexLe(b, c)
    ensures LexLe(a, c)
  {
    if a != [] && b != [] && c != [] && a[0] == b[0] && b[0] == c[0] {
      LexLeTrans(a[1..], b[1..], c[1..]);
    }
  }

  lemma {:induction false} LexLeAntisym(a: string, b: string)
    requires LexLe(a, b) && LexLe(b, a)
    ensures a == b
  {
    if a != [] && b != [] {
      LexLeAntisym(a[1..], b[1..]);
      assert a == [a[0]] + a[1..] && b == [b[0]] + b[1..];
    }
  }

  predicate Sorted(l: seq<string>)
  {
    forall i, j :: 0 <= i < j < |l| ==> LexLe(l[i], l[j])
  }

  function Insert(x: string, l: seq<string>): (r: seq<string>)
    ensures multiset(r) == multiset(l) + multiset{x}
  {
    if l == [] then [x]
    else if LexLe(x, l[0]) then [x] + l
    else
      assert l == [l[0]] + l[1..];
      [l[0]] + Insert(x, l[1..])
  }

  lemma {:induction false} InsertSorted(x: string, l: seq<string>)
    requires Sorted(l)
    ensures Sorted(Insert(x, l))
  {
    if l == [] {
    } else if LexLe(x, l[0]) {
      forall j | 0 <= j < |l|
        ensures LexLe(x, l[j])
      {
        if j > 0 {
          LexLeTrans(x, l[0], l[j]);
        }
      }
    } else {
      LexLeTotal(x, l[0]);
      InsertSorted(x, l[1..]);
      var rest := Insert(x, l[1..]);
      forall k | 0 <= k < |rest|
        ensures LexLe(l[0], rest[k])
      {
        assert rest[k] in multiset(rest);
        if rest[k] != x {
          assert rest[k] in multiset(l[1..]);
          var j :| 0 <= j < |l[1..]| && l[1..][j] == rest[k];
          assert l[j + 1] == rest[k];
        }
      }
    }
  }

  /** `.sort()` on strings. */
  function Sort(l: seq<string>): (r: seq<string>)
    ensures multiset(r) == multiset(l)
  {
    if l == [] then []
    else
      assert l == [l[0]] + l[1..];
      Insert(l[0], Sort(l[1..]))
  }

  /** The sorted list is in order and a permutation of the input. */
  lemma {:induction false} SortSorted(l: seq<string>)
    ensures Sorted(Sort(l)) && multiset(Sort(l)) == multiset(l)
  {
    if l != [] {
      SortSorted(l[1..]);
      InsertSorted(l[0], Sort(l[1..]));
    }
  }

  /** A sorted list without repeats is strictly increasing, so each value has one place. */
  lemma SortedUnique(l: seq<string>, i: int, j: int)
    requires Sorted(l) && 0 <= i < j < |l| && l[i] != l[j]
    ensures !LexLe(l[j], l[i])
  {
    if LexLe(l[j], l[i]) {
      LexLeAntisym(l[i], l[j]);
    }
  }

  lemma {:induction false} InsertNoDup(x: string, l: seq<string>)
    requires NoDup(l) && x !in l
    ensures NoDup(Insert(x, l))
  {
    if l != [] && !LexLe(x, l[0]) {
      InsertNoDup(x, l[1..]);
      var rest := Insert(x, l[1..]);
      assert l[0] !in multiset(rest);
      assert forall k :: 0 <= k < |rest| ==> rest[k] in multiset(rest);
    }
  }

  /** Sorting a list without repeats gives a list without repeats. */
  lemma {:induction false} SortNoDup(l: seq<string>)
    requires NoDup(l)
    ensures NoDup(Sort(l))
  {
    if l != [] {
      SortNoDup(l[1..]);
      assert l[0] !in multiset(l[1..]);
      InsertNoDup(l[0], Sort(l[1..]));
    }
  }
}
