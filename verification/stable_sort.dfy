/**
 Stable sorting by an integer key, the behaviour of `Array.prototype.sort` (stable since
 ECMAScript 2019) called with the comparator `(a, b) => key(a) - key(b)`.
 */
module StableSort {
  import opened Seqs

  /** `s` is non-decreasing in `key`. */
  predicate SortedBy<T>(key: T -> int, s: seq<T>)
  {
    forall i, j :: 0 <= i < j < |s| ==> key(s[i]) <= key(s[j])
  }

  /** The elements whose key is `k`. */
  function HasKey<T>(key: T -> int, k: int): T -> bool
  {
    x => key(x) == k
  }

  /** `r` lists the elements of each key in the same relative order as `s` does. */
  ghost predicate SameOrderPerKey<T>(key: T -> int, r: seq<T>, s: seq<T>)
  {
    forall k :: Filter(HasKey(key, k), r) == Filter(HasKey(key, k), s)
  }

  /** `r` is a stable sort of `s` by `key`. */
  ghost predicate IsStableSortOf<T>(key: T -> int, r: seq<T>, s: seq<T>)
  {
    SortedBy(key, r) && SameOrderPerKey(key, r, s)
  }

  /** Putting an element no larger than the head in front keeps a sequence sorted. */
  lemma SortedCons<T>(key: T -> int, x: T, t: seq<T>)
    requires SortedBy(key, t)
    requires t != [] ==> key(x) <= key(t[0])
    ensures SortedBy(key, [x] + t)
  {
    forall i, j | 0 <= i < j < |t| + 1
      ensures key(([x] + t)[i]) <= key(([x] + t)[j])
    {
      if i > 0 {
        assert ([x] + t)[i] == t[i - 1];
      }
      assert ([x] + t)[j] == t[j - 1];
    }
  }

  /** The multiset of a sequence with a new head. */
  lemma MultisetCons<T>(x: T, t: seq<T>)
    ensures multiset([x] + t) == multiset{x} + multiset(t)
  {
  }

  /** Inserts `x` before the first element whose key is not smaller than its own. */
  function Insert<T>(key: T -> int, x: T, s: seq<T>): (r: seq<T>)
    requires SortedBy(key, s)
    ensures SortedBy(key, r)
    ensures |r| == |s| + 1
    ensures r[0] == x || (s != [] && r[0] == s[0])
  {
    if s == [] then [x]
    else if key(x) <= key(s[0]) then
      SortedCons(key, x, s);
      [x] + s
    else
      SortedTail(key, s);
      var t := Insert(key, x, s[1..]);
      assert key(s[0]) <= key(t[0]) by {
        if t[0] != x {
          assert t[0] == s[1];
        }
      }
      SortedCons(key, s[0], t);
      [s[0]] + t
  }

  /** Inserting adds `x` and keeps every other element. */
  lemma {:induction false} InsertPermutes<T>(key: T -> int, x: T, s: seq<T>)
    requires SortedBy(key, s)
    ensures multiset(Insert(key, x, s)) == multiset(s) + multiset{x}
  {
    if s != [] && key(s[0]) < key(x) {
      SortedTail(key, s);
      InsertPermutes(key, x, s[1..]);
      MultisetCons(s[0], Insert(key, x, s[1..]));
      MultisetCons(s[0], s[1..]);
      assert s == [s[0]] + s[1..];
    } else if s != [] {
      MultisetCons(x, s);
    }
  }

  /** Insertion sort: the head is inserted ahead of every equal key of the sorted tail. */
  function SortBy<T>(key: T -> int, s: seq<T>): (r: seq<T>)
    ensures SortedBy(key, r)
    ensures multiset(r) == multiset(s)
    ensures |r| == |s|
  {
    if s == [] then []
    else
      var t := SortBy(key, s[1..]);
      InsertPermutes(key, s[0], t);
      MultisetCons(s[0], s[1..]);
      assert s == [s[0]] + s[1..];
      Insert(key, s[0], t)
  }

  /** Per key, inserting `x` puts it ahead of every element with its key. */
  lemma {:induction false} InsertPerKey<T>(key: T -> int, x: T, s: seq<T>, k: int)
    requires SortedBy(key, s)
    ensures Filter(HasKey(key, k), Insert(key, x, s))
         == (if key(x) == k then [x] else []) + Filter(HasKey(key, k), s)
    decreases |s|, 1
  {
    var p := HasKey(key, k);
    FilterCons(p, [x]);
    if s == [] {
      assert Insert(key, x, s) == [x];
    } else if key(x) <= key(s[0]) {
      assert Insert(key, x, s) == [x] + s;
      FilterAppend(p, [x], s);
    } else {
      SortedTail(key, s);
      InsertAfterHead(key, x, s, k);
    }
  }

  /** The step of `InsertPerKey` where `x` goes after the head of `s`. */
  lemma {:induction false} InsertAfterHead<T>(key: T -> int, x: T, s: seq<T>, k: int)
    requires s != [] && SortedBy(key, s) && SortedBy(key, s[1..]) && key(s[0]) < key(x)
    ensures Filter(HasKey(key, k), Insert(key, x, s))
         == (if key(x) == k then [x] else []) + Filter(HasKey(key, k), s)
    decreases |s|, 0
  {
    var p := HasKey(key, k);
    var t := Insert(key, x, s[1..]);
    var hx: seq<T> := if key(x) == k then [x] else [];
    var h0: seq<T> := if key(s[0]) == k then [s[0]] else [];
    var rest := Filter(p, s[1..]);
    assert Insert(key, x, s) == [s[0]] + t;
    InsertPerKey(key, x, s[1..], k);
    assert Filter(p, t) == hx + rest;
    FilterCons(p, [s[0]] + t);
    assert ([s[0]] + t)[1..] == t;
    assert Filter(p, [s[0]] + t) == h0 + (hx + rest);
    FilterCons(p, s);
    assert Filter(p, s) == h0 + rest;
    SwapFront(h0, hx, rest);
  }

  /** Two fronts of which one is empty can be swapped. */
  lemma SwapFront<T>(h0: seq<T>, hx: seq<T>, rest: seq<T>)
    requires h0 == [] || hx == []
    ensures h0 + (hx + rest) == hx + (h0 + rest)
  {
    if h0 == [] {
      assert h0 + (hx + rest) == hx + rest;
    } else {
      assert hx + (h0 + rest) == h0 + rest;
    }
  }

  /** The insertion sort is stable. */
  lemma {:induction false} SortByIsStable<T>(key: T -> int, s: seq<T>)
    ensures IsStableSortOf(key, SortBy(key, s), s)
  {
    if s != [] {
      SortByIsStable(key, s[1..]);
      forall k
        ensures Filter(HasKey(key, k), SortBy(key, s)) == Filter(HasKey(key, k), s)
      {
        InsertPerKey(key, s[0], SortBy(key, s[1..]), k);
      }
    }
  }

  /** Sorting an already sorted sequence changes nothing. */
  lemma SortByIdempotent<T>(key: T -> int, s: seq<T>)
    ensures SortBy(key, SortBy(key, s)) == SortBy(key, s)
  {
    var r := SortBy(key, s);
    SortByIsStable(key, r);
    StableSortUnique(key, SortBy(key, r), r);
  }

  /** Elements with the same per-key order are the same elements. */
  lemma MemberPerKey<T>(key: T -> int, x: T, a: seq<T>, b: seq<T>)
    requires SameOrderPerKey(key, a, b)
    requires x in a
    ensures x in b
  {
    assert x in Filter(HasKey(key, key(x)), a);
  }

  /** The head of a sorted sequence has the least key. */
  lemma SortedHeadLeast<T>(key: T -> int, x: T, a: seq<T>)
    requires SortedBy(key, a)
    requires x in a
    ensures key(a[0]) <= key(x)
  {
    var j :| 0 <= j < |a| && a[j] == x;
    assert j == 0 || key(a[0]) <= key(a[j]);
  }

  /** Removing equal heads keeps the per-key order equal. */
  lemma SameOrderPerKeyTails<T>(key: T -> int, a: seq<T>, b: seq<T>)
    requires a != [] && b != [] && a[0] == b[0]
    requires SameOrderPerKey(key, a, b)
    ensures SameOrderPerKey(key, a[1..], b[1..])
  {
    forall k
      ensures Filter(HasKey(key, k), a[1..]) == Filter(HasKey(key, k), b[1..])
    {
      var p := HasKey(key, k);
      FilterCons(p, a);
      FilterCons(p, b);
      var h := if p(a[0]) then [a[0]] else [];
      assert Filter(p, a) == Filter(p, b);
      assert Filter(p, a[1..]) == Filter(p, a)[|h|..];
      assert Filter(p, b[1..]) == Filter(p, b)[|h|..];
    }
  }

  /** Sorted sequences with the same per-key order start with the same element. */
  lemma SameOrderPerKeyHeads<T>(key: T -> int, a: seq<T>, b: seq<T>)
    requires a != [] && b != []
    requires SortedBy(key, a) && SortedBy(key, b)
    requires SameOrderPerKey(key, a, b)
    ensures a[0] == b[0]
  {
    MemberPerKey(key, b[0], b, a);
    MemberPerKey(key, a[0], a, b);
    SortedHeadLeast(key, b[0], a);
    SortedHeadLeast(key, a[0], b);
    var k := key(a[0]);
    assert key(b[0]) == k;
    var p := HasKey(key, k);
    assert p(a[0]) && p(b[0]);
    FilterCons(p, a);
    FilterCons(p, b);
    var fa, fb := Filter(p, a), Filter(p, b);
    assert fa == fb;
    assert fa[0] == a[0];
    assert fb[0] == b[0];
  }

  /** Dropping the head keeps a sequence sorted. */
  lemma SortedTail<T>(key: T -> int, a: seq<T>)
    requires a != [] && SortedBy(key, a)
    ensures SortedBy(key, a[1..])
  {
    forall i, j | 0 <= i < j < |a| - 1
      ensures key(a[1..][i]) <= key(a[1..][j])
    {
      assert a[1..][i] == a[i + 1] && a[1..][j] == a[j + 1];
    }
  }

  /** Sequences with the same per-key order are empty together. */
  lemma SameOrderPerKeyEmpty<T>(key: T -> int, a: seq<T>, b: seq<T>)
    requires SameOrderPerKey(key, a, b)
    ensures a == [] <==> b == []
  {
    if a != [] {
      MemberPerKey(key, a[0], a, b);
    }
    if b != [] {
      MemberPerKey(key, b[0], b, a);
    }
  }

  /** A stable sort is unique: two sorted sequences with the same per-key order are equal. */
  lemma {:induction false} StableSortUnique<T>(key: T -> int, a: seq<T>, b: seq<T>)
    requires SortedBy(key, a) && SortedBy(key, b)
    requires SameOrderPerKey(key, a, b)
    ensures a == b
  {
    SameOrderPerKeyEmpty(key, a, b);
    if a != [] {
      SameOrderPerKeyHeads(key, a, b);
      SameOrderPerKeyTails(key, a, b);
      SortedTail(key, a);
      SortedTail(key, b);
      StableSortUnique(key, a[1..], b[1..]);
      assert a == [a[0]] + a[1..];
      assert b == [b[0]] + b[1..];
    }
  }

  /** The insertion sort is the stable sort: any stable sort of `s` equals it. */
  lemma SortByIsTheStableSort<T>(key: T -> int, s: seq<T>, r: seq<T>)
    requires IsStableSortOf(key, r, s)
    ensures r == SortBy(key, s)
  {
    SortByIsStable(key, s);
    StableSortUnique(key, r, SortBy(key, s));
  }
}
