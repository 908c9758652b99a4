/** Python's stable descending sort (`sorted(xs, key=k, reverse=True)` and
    `xs.sort(key=k, reverse=True)`), as an insertion sort on sequences. */
module Sorting {

  /** Inserts `x` in front of the first element whose key does not exceed its own. */
  function Insert<T>(x: T, s: seq<T>, key: T -> real): (r: seq<T>)
    ensures |r| == |s| + 1
  {
    if s == [] || key(s[0]) <= key(x) then [x] + s
    else [s[0]] + Insert(x, s[1..], key)
  }

  /** The sorted list: descending keys, equal keys in their original order. */
  function SortDesc<T>(s: seq<T>, key: T -> real): (r: seq<T>)
    ensures |r| == |s|
  {
    if s == [] then [] else Insert(s[0], SortDesc(s[1..], key), key)
  }

  lemma {:induction false} InsertPermutes<T>(x: T, s: seq<T>, key: T -> real)
    ensures multiset(Insert(x, s, key)) == multiset(s) + multiset{x}
  {
    if s != [] && key(s[0]) > key(x) {
      InsertPermutes(x, s[1..], key);
      assert s == [s[0]] + s[1..];
    }
  }

  /** The result is a permutation of the input. */
  lemma {:induction false} SortDescPermutes<T>(s: seq<T>, key: T -> real)
    ensures multiset(SortDesc(s, key)) == multiset(s)
  {
    if s != [] {
      SortDescPermutes(s[1..], key);
      InsertPermutes(s[0], SortDesc(s[1..], key), key);
      assert s == [s[0]] + s[1..];
    }
  }

  ghost predicate SortedDesc<T>(s: seq<T>, key: T -> real) {
    forall i, j :: 0 <= i < j < |s| ==> key(s[i]) >= key(s[j])
  }

  /** The elements of `s` whose key is `k`, in order. */
  function WithKey<T>(s: seq<T>, key: T -> real, k: real): (r: seq<T>)
  {
    if s == [] then []
    else (if key(s[0]) == k then [s[0]] else []) + WithKey(s[1..], key, k)
  }

  /** The elements of `s` that satisfy `p`, in order. */
  function Filter<T>(s: seq<T>, p: T -> bool): (r: seq<T>)
    ensures |r| <= |s|
  {
    if s == [] then [] else (if p(s[0]) then [s[0]] else []) + Filter(s[1..], p)
  }

  /** Sum of `f` over the elements of `s`. */
  function SumOf<T>(s: seq<T>, f: T -> int): int {
    if s == [] then 0 else f(s[0]) + SumOf(s[1..], f)
  }

  lemma InsertCons<T>(x: T, a: T, t: seq<T>, key: T -> real)
    ensures Insert(x, [a] + t, key)
         == if key(a) <= key(x) then [x] + ([a] + t) else [a] + Insert(x, t, key)
  {
    assert ([a] + t)[0] == a && ([a] + t)[1..] == t;
  }

  lemma SortDescCons<T>(a: T, t: seq<T>, key: T -> real)
    ensures SortDesc([a] + t, key) == Insert(a, SortDesc(t, key), key)
  {
    assert ([a] + t)[0] == a && ([a] + t)[1..] == t;
  }

  lemma FilterCons<T>(a: T, t: seq<T>, p: T -> bool)
    ensures Filter([a] + t, p) == (if p(a) then [a] else []) + Filter(t, p)
  {
    assert ([a] + t)[0] == a && ([a] + t)[1..] == t;
  }

  lemma WithKeyCons<T>(a: T, t: seq<T>, key: T -> real, k: real)
    ensures WithKey([a] + t, key, k) == (if key(a) == k then [a] else []) + WithKey(t, key, k)
  {
    assert ([a] + t)[0] == a && ([a] + t)[1..] == t;
  }

  lemma {:induction false} InsertSorted<T>(x: T, s: seq<T>, key: T -> real)
    requires SortedDesc(s, key)
    ensures SortedDesc(Insert(x, s, key), key)
  {
    if s != [] && key(s[0]) > key(x) {
      InsertSorted(x, s[1..], key);
      InsertPermutes(x, s[1..], key);
      var r := Insert(x, s, key);
      var t := Insert(x, s[1..], key);
      assert r == [s[0]] + t;
      assert multiset(t) == multiset(s[1..]) + multiset{x};
      forall j | 0 < j < |r| ensures key(r[0]) >= key(r[j]) {
        assert r[j] in multiset(t);
        assert r[j] == x || r[j] in multiset(s[1..]);
        if r[j] != x {
          var k :| 0 <= k < |s[1..]| && s[1..][k] == r[j];
          assert s[1..][k] == s[k + 1];
        }
      }
    }
  }

  /** The result is ordered by descending key. */
  lemma {:induction false} SortDescSorted<T>(s: seq<T>, key: T -> real)
    ensures SortedDesc(SortDesc(s, key), key)
  {
    if s != [] {
      SortDescSorted(s[1..], key);
      InsertSorted(s[0], SortDesc(s[1..], key), key);
    }
  }

  lemma {:induction false} WithKeyAppend<T>(a: seq<T>, b: seq<T>, key: T -> real, k: real)
    ensures WithKey(a + b, key, k) == WithKey(a, key, k) + WithKey(b, key, k)
  {
    if a != [] {
      assert (a + b)[1..] == a[1..] + b;
      WithKeyAppend(a[1..], b, key, k);
    } else {
      assert a + b == b;
    }
  }

  lemma {:induction false} InsertWithKey<T>(x: T, s: seq<T>, key: T -> real, k: real)
    requires SortedDesc(s, key)
    ensures WithKey(Insert(x, s, key), key, k)
         == (if key(x) == k then [x] else []) + WithKey(s, key, k)
  {
    if s == [] || key(s[0]) <= key(x) {
      WithKeyCons(x, s, key, k);
    } else {
      SortedTail(s, key);
      InsertWithKey(x, s[1..], key, k);
      assert s == [s[0]] + s[1..];
      InsertCons(x, s[0], s[1..], key);
      InsertWithKeyStep(s[0], x, s[1..], Insert(x, s[1..], key), key, k);
    }
  }

  lemma InsertWithKeyStep<T>(a: T, x: T, t: seq<T>, inserted: seq<T>, key: T -> real, k: real)
    requires key(a) > key(x)
    requires WithKey(inserted, key, k) == (if key(x) == k then [x] else []) + WithKey(t, key, k)
    ensures WithKey([a] + inserted, key, k) == (if key(x) == k then [x] else []) + WithKey([a] + t, key, k)
  {
    WithKeyCons(a, inserted, key, k);
    WithKeyCons(a, t, key, k);
  }

  /** Stability: for every key, the elements carrying it keep their relative order. */
  lemma {:induction false} SortDescStable<T>(s: seq<T>, key: T -> real, k: real)
    ensures WithKey(SortDesc(s, key), key, k) == WithKey(s, key, k)
  {
    if s != [] {
      SortDescStable(s[1..], key, k);
      SortDescSorted(s[1..], key);
      InsertWithKey(s[0], SortDesc(s[1..], key), key, k);
    }
  }

  lemma {:induction false} SumOfAppend<T>(a: seq<T>, b: seq<T>, f: T -> int)
    ensures SumOf(a + b, f) == SumOf(a, f) + SumOf(b, f)
  {
    if a != [] {
      assert (a + b)[1..] == a[1..] + b;
      SumOfAppend(a[1..], b, f);
    } else {
      assert a + b == b;
    }
  }

  lemma {:induction false} SumOfInsert<T>(x: T, s: seq<T>, key: T -> real, f: T -> int)
    ensures SumOf(Insert(x, s, key), f) == f(x) + SumOf(s, f)
  {
    if s == [] || key(s[0]) <= key(x) {
      assert ([x] + s)[1..] == s;
    } else {
      SumOfInsert(x, s[1..], key, f);
      assert ([s[0]] + Insert(x, s[1..], key))[1..] == Insert(x, s[1..], key);
    }
  }

  /** Sorting does not change a sum over the elements. */
  lemma {:induction false} SumOfSortDesc<T>(s: seq<T>, key: T -> real, f: T -> int)
    ensures SumOf(SortDesc(s, key), f) == SumOf(s, f)
  {
    if s != [] {
      SumOfSortDesc(s[1..], key, f);
      SumOfInsert(s[0], SortDesc(s[1..], key), key, f);
    }
  }

  lemma {:induction false} FilterHeadIn<T>(s: seq<T>, p: T -> bool)
    requires Filter(s, p) != []
    ensures exists i :: 0 <= i < |s| && s[i] == Filter(s, p)[0]
  {
    if !p(s[0]) {
      FilterHeadIn(s[1..], p);
      var i :| 0 <= i < |s[1..]| && s[1..][i] == Filter(s[1..], p)[0];
      assert s[i + 1] == Filter(s, p)[0];
    } else {
      assert s[0] == Filter(s, p)[0];
    }
  }

  lemma SortedTail<T>(s: seq<T>, key: T -> real)
    requires s != [] && SortedDesc(s, key)
    ensures SortedDesc(s[1..], key)
  {
    forall i, j | 0 <= i < j < |s[1..]| ensures key(s[1..][i]) >= key(s[1..][j]) {
      assert s[1..][i] == s[i + 1] && s[1..][j] == s[j + 1];
    }
  }

  lemma FilterInsertFront<T>(x: T, s: seq<T>, key: T -> real, p: T -> bool)
    requires SortedDesc(s, key)
    requires s == [] || key(s[0]) <= key(x)
    ensures Filter(Insert(x, s, key), p)
         == if p(x) then Insert(x, Filter(s, p), key) else Filter(s, p)
  {
    FilterCons(x, s, p);
    assert Insert(x, s, key) == [x] + s;
    var fs := Filter(s, p);
    if p(x) {
      if fs == [] {
        assert Insert(x, fs, key) == [x];
      } else {
        FilterHeadIn(s, p);
        var i :| 0 <= i < |s| && s[i] == fs[0];
        assert key(fs[0]) <= key(x) by {
          assert i == 0 || key(s[0]) >= key(s[i]);
        }
        assert Insert(x, fs, key) == [x] + fs;
      }
    }
  }

  lemma {:induction false} FilterInsert<T>(x: T, s: seq<T>, key: T -> real, p: T -> bool)
    requires SortedDesc(s, key)
    ensures Filter(Insert(x, s, key), p)
         == if p(x) then Insert(x, Filter(s, p), key) else Filter(s, p)
  {
    if s == [] || key(s[0]) <= key(x) {
      FilterInsertFront(x, s, key, p);
    } else {
      SortedTail(s, key);
      FilterInsert(x, s[1..], key, p);
      assert s == [s[0]] + s[1..];
      InsertCons(x, s[0], s[1..], key);
      FilterInsertStep(s[0], x, s[1..], Insert(x, s[1..], key), key, p);
    }
  }

  lemma FilterInsertStep<T>(a: T, x: T, t: seq<T>, inserted: seq<T>, key: T -> real, p: T -> bool)
    requires key(a) > key(x)
    requires Filter(inserted, p) == if p(x) then Insert(x, Filter(t, p), key) else Filter(t, p)
    ensures Filter([a] + inserted, p) == if p(x) then Insert(x, Filter([a] + t, p), key) else Filter([a] + t, p)
  {
    FilterCons(a, inserted, p);
    FilterCons(a, t, p);
    if p(a) {
      InsertCons(x, a, Filter(t, p), key);
      assert Filter([a] + t, p) == [a] + Filter(t, p);
      assert Filter([a] + inserted, p) == [a] + Filter(inserted, p);
    } else {
      assert Filter([a] + t, p) == Filter(t, p);
      assert Filter([a] + inserted, p) == Filter(inserted, p);
    }
  }

  /** Filtering before or after the sort gives the same list. */
  lemma {:induction false} FilterSortDesc<T>(s: seq<T>, key: T -> real, p: T -> bool)
    ensures Filter(SortDesc(s, key), p) == SortDesc(Filter(s, p), key)
  {
    if s != [] {
      FilterSortDesc(s[1..], key, p);
      SortDescSorted(s[1..], key);
      FilterInsert(s[0], SortDesc(s[1..], key), key, p);
      assert s == [s[0]] + s[1..];
      FilterCons(s[0], s[1..], p);
      if p(s[0]) {
        SortDescCons(s[0], Filter(s[1..], p), key);
      } else {
        assert Filter(s, p) == Filter(s[1..], p);
      }
    }
  }

  /** Inserting puts `x` at one place and leaves the rest in order. */
  lemma {:induction false} InsertSplits<T>(x: T, s: seq<T>, key: T -> real)
    ensures exists k :: 0 <= k <= |s| && Insert(x, s, key) == s[..k] + [x] + s[k..]
  {
    if s == [] || key(s[0]) <= key(x) {
      assert Insert(x, s, key) == s[..0] + [x] + s[0..];
    } else {
      InsertSplits(x, s[1..], key);
      var k :| 0 <= k <= |s[1..]| && Insert(x, s[1..], key) == s[1..][..k] + [x] + s[1..][k..];
      assert s[..k + 1] == [s[0]] + s[1..][..k];
      assert s[k + 1..] == s[1..][k..];
      assert Insert(x, s, key) == s[..k + 1] + [x] + s[k + 1..];
    }
  }

  /** The images of the elements under `f` are pairwise different. */
  predicate DistinctBy<T, U(==)>(s: seq<T>, f: T -> U) {
    forall i, j :: 0 <= i < j < |s| ==> f(s[i]) != f(s[j])
  }

  lemma InsertDistinctBy<T, U>(x: T, s: seq<T>, key: T -> real, f: T -> U)
    requires DistinctBy(s, f)
    requires forall i :: 0 <= i < |s| ==> f(s[i]) != f(x)
    ensures DistinctBy(Insert(x, s, key), f)
  {
    InsertSplits(x, s, key);
    var k :| 0 <= k <= |s| && Insert(x, s, key) == s[..k] + [x] + s[k..];
    SpliceDistinctBy(x, s, k, f);
  }

  lemma SpliceDistinctBy<T, U>(x: T, s: seq<T>, k: nat, f: T -> U)
    requires k <= |s| && DistinctBy(s, f)
    requires forall i :: 0 <= i < |s| ==> f(s[i]) != f(x)
    ensures DistinctBy(s[..k] + [x] + s[k..], f)
  {
    var r := s[..k] + [x] + s[k..];
    forall i, j | 0 <= i < j < |r| ensures f(r[i]) != f(r[j]) {
      var si := if i < k then i else i - 1;
      var sj := if j < k then j else j - 1;
      assert i != k ==> r[i] == s[si];
      assert j != k ==> r[j] == s[sj];
    }
  }

  /** Sorting keeps elements that differ under `f` different. */
  lemma {:induction false} SortDescDistinctBy<T, U>(s: seq<T>, key: T -> real, f: T -> U)
    requires DistinctBy(s, f)
    ensures DistinctBy(SortDesc(s, key), f)
  {
    if s != [] {
      var t := s[1..];
      assert DistinctBy(t, f) by {
        forall i, j | 0 <= i < j < |t| ensures f(t[i]) != f(t[j]) {
          assert t[i] == s[i + 1] && t[j] == s[j + 1];
        }
      }
      SortDescDistinctBy(t, key, f);
      var st := SortDesc(t, key);
      forall i | 0 <= i < |st| ensures f(st[i]) != f(s[0]) {
        SortDescPermutes(t, key);
        assert st[i] in multiset(t);
        var k :| 0 <= k < |t| && t[k] == st[i];
        assert t[k] == s[k + 1];
      }
      InsertDistinctBy(s[0], st, key, f);
    }
  }

  /** Sorting does not change which elements are present. */
  lemma SortDescMembers<T>(s: seq<T>, key: T -> real, x: T)
    ensures x in SortDesc(s, key) <==> x in s
  {
    SortDescPermutes(s, key);
    assert x in multiset(SortDesc(s, key)) <==> x in multiset(s);
  }
}
