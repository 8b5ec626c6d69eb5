/**
 * Sequence helpers that mirror the JavaScript array operations the ledger is
 * built from: `filter`, `reduce` (summation), the stable `sort`, `findIndex`
 * and the copy-and-assign upsert used by the store handlers.
 */
module SeqUtil {

  datatype Option<+T> = None | Some(value: T)

  /** Every two positions hold different values. */
  predicate Distinct<T(==)>(s: seq<T>) {
    forall i, j :: 0 <= i < j < |s| ==> s[i] != s[j]
  }

  lemma AppendFresh<T>(s: seq<T>, x: T)
    requires Distinct(s) && x !in s
    ensures Distinct(s + [x])
  {
  }

  // ---------------------------------------------------------------- filter

  /** The complement of a predicate. */
  function Not<T>(p: T -> bool): T -> bool {
    x => !p(x)
  }

  /** The elements whose key is `k`. */
  function KeyIs<T, K(==)>(key: T -> K, k: K): T -> bool {
    x => key(x) == k
  }

  /** `s.filter(p)`: the elements of `s` satisfying `p`, in their original order. */
  function Filter<T(!new)>(s: seq<T>, p: T -> bool): (r: seq<T>)
    ensures |r| <= |s|
    ensures forall i :: 0 <= i < |r| ==> p(r[i])
  {
    if s == [] then [] else Filter(s[..|s| - 1], p) + (if p(s[|s| - 1]) then [s[|s| - 1]] else [])
  }

  /** Each element is kept exactly as often as it occurs, if it satisfies `p`, and dropped otherwise. */
  lemma {:induction false} FilterCount<T(!new)>(s: seq<T>, p: T -> bool)
    ensures forall x :: multiset(Filter(s, p))[x] == if p(x) then multiset(s)[x] else 0
  {
    if s != [] {
      var init, last := s[..|s| - 1], s[|s| - 1];
      assert s == init + [last];
      FilterCount(init, p);
    }
  }

  /** The kept elements are the elements of `s` that satisfy `p`. */
  lemma FilterMembers<T(!new)>(s: seq<T>, p: T -> bool)
    ensures forall x :: x in Filter(s, p) <==> x in s && p(x)
  {
    FilterCount(s, p);
    forall x ensures x in Filter(s, p) <==> x in s && p(x) {
      assert x in Filter(s, p) <==> x in multiset(Filter(s, p));
      assert x in s <==> x in multiset(s);
    }
  }

  /** Filtering distributes over concatenation: the kept elements stay in order. */
  lemma {:induction false} FilterConcat<T(!new)>(a: seq<T>, b: seq<T>, p: T -> bool)
    ensures Filter(a + b, p) == Filter(a, p) + Filter(b, p)
  {
    if b == [] {
      assert a + b == a;
    } else {
      var b' := b[..|b| - 1];
      assert (a + b)[..|a + b| - 1] == a + b';
      assert (a + b)[|a + b| - 1] == b[|b| - 1];
      FilterConcat(a, b', p);
    }
  }

  /** Filtering twice is filtering once by the conjunction. */
  lemma {:induction false} FilterFilter<T(!new)>(s: seq<T>, p: T -> bool, q: T -> bool)
    ensures Filter(Filter(s, p), q) == Filter(s, x => p(x) && q(x))
  {
    if s != [] {
      var init, last := s[..|s| - 1], s[|s| - 1];
      FilterFilter(init, p, q);
      FilterConcat(Filter(init, p), if p(last) then [last] else [], q);
    }
  }

  /** A filter whose predicate holds everywhere keeps everything. */
  lemma {:induction false} FilterAll<T(!new)>(s: seq<T>, p: T -> bool)
    requires forall i :: 0 <= i < |s| ==> p(s[i])
    ensures Filter(s, p) == s
  {
    if s != [] {
      FilterAll(s[..|s| - 1], p);
      assert s == s[..|s| - 1] + [s[|s| - 1]];
    }
  }

  /** A filter whose predicate holds nowhere keeps nothing. */
  lemma {:induction false} FilterNone<T(!new)>(s: seq<T>, p: T -> bool)
    requires forall i :: 0 <= i < |s| ==> !p(s[i])
    ensures Filter(s, p) == []
  {
    if s != [] {
      FilterNone(s[..|s| - 1], p);
    }
  }

  /** Two predicates that agree on every element keep the same elements. */
  lemma {:induction false} FilterCongruence<T(!new)>(s: seq<T>, p: T -> bool, q: T -> bool)
    requires forall i :: 0 <= i < |s| ==> p(s[i]) == q(s[i])
    ensures Filter(s, p) == Filter(s, q)
  {
    if s != [] {
      FilterCongruence(s[..|s| - 1], p, q);
    }
  }

  // ---------------------------------------------------------------- sums

  /** `s.reduce((acc, x) => acc + f(x), 0)`. */
  function SumBy<T(!new)>(s: seq<T>, f: T -> int): int {
    if s == [] then 0 else SumBy(s[..|s| - 1], f) + f(s[|s| - 1])
  }

  lemma {:induction false} SumByConcat<T(!new)>(a: seq<T>, b: seq<T>, f: T -> int)
    ensures SumBy(a + b, f) == SumBy(a, f) + SumBy(b, f)
  {
    if b == [] {
      assert a + b == a;
    } else {
      var b' := b[..|b| - 1];
      assert (a + b)[..|a + b| - 1] == a + b';
      SumByConcat(a, b', f);
    }
  }

  /** The part of a sum over the elements satisfying `p` and the part over the rest add up to the whole. */
  lemma {:induction false} SumByPartition<T(!new)>(s: seq<T>, p: T -> bool, f: T -> int)
    ensures SumBy(Filter(s, p), f) + SumBy(Filter(s, Not(p)), f) == SumBy(s, f)
  {
    if s != [] {
      var init, last := s[..|s| - 1], s[|s| - 1];
      SumByPartition(init, p, f);
      SumByConcat(Filter(init, p), if p(last) then [last] else [], f);
      SumByConcat(Filter(init, Not(p)), if !p(last) then [last] else [], f);
    }
  }

  /** Sums of two functions that agree on every element are equal. */
  lemma {:induction false} SumByCongruence<T(!new)>(s: seq<T>, f: T -> int, g: T -> int)
    requires forall i :: 0 <= i < |s| ==> f(s[i]) == g(s[i])
    ensures SumBy(s, f) == SumBy(s, g)
  {
    if s != [] {
      SumByCongruence(s[..|s| - 1], f, g);
    }
  }

  /** A sum of non-negative terms is non-negative. */
  lemma {:induction false} SumByNonNegative<T(!new)>(s: seq<T>, f: T -> int)
    requires forall i :: 0 <= i < |s| ==> f(s[i]) >= 0
    ensures SumBy(s, f) >= 0
  {
    if s != [] {
      SumByNonNegative(s[..|s| - 1], f);
    }
  }

  /** A sum of positive terms over a non-empty sequence is positive. */
  lemma {:induction false} SumByPositive<T(!new)>(s: seq<T>, f: T -> int)
    requires s != []
    requires forall i :: 0 <= i < |s| ==> f(s[i]) > 0
    ensures SumBy(s, f) > 0
  {
    SumByNonNegative(s[..|s| - 1], f);
  }

  // ---------------------------------------------------------------- stable sort

  /** No element has a larger key than an element before it. */
  predicate SortedDesc<T(!new)>(s: seq<T>, key: T -> int) {
    forall i, j :: 0 <= i < j < |s| ==> key(s[i]) >= key(s[j])
  }

  /** Inserts `x` into `r` after the leading elements whose key is at least `key(x)`. */
  function InsertDesc<T(!new)>(r: seq<T>, x: T, key: T -> int): (r': seq<T>)
    ensures multiset(r') == multiset(r) + multiset{x}
    ensures |r'| == |r| + 1
  {
    if r == [] then [x]
    else if key(r[0]) >= key(x) then
      assert r == [r[0]] + r[1..];
      [r[0]] + InsertDesc(r[1..], x, key)
    else [x] + r
  }

  /** Inserting into a key-descending sequence keeps it key-descending. */
  lemma {:induction false} InsertDescSorted<T(!new)>(r: seq<T>, x: T, key: T -> int)
    requires SortedDesc(r, key)
    ensures SortedDesc(InsertDesc(r, x, key), key)
  {
    if r != [] && key(r[0]) >= key(x) {
      var tail := r[1..];
      InsertDescSorted(tail, x, key);
      var t' := InsertDesc(tail, x, key);
      forall j | 0 <= j < |t'| ensures key(r[0]) >= key(t'[j]) {
        assert t'[j] in multiset(t');
        if t'[j] != x {
          assert t'[j] in multiset(tail);
          assert t'[j] in tail;
        }
      }
    }
  }

  /**
   * `[...s].sort((a, b) => key(b) - key(a))`: JavaScript's sort is stable, so
   * elements with equal keys keep their relative order; this is an insertion
   * sort that inserts each later element after the equal ones.
   */
  function SortDesc<T(!new)>(s: seq<T>, key: T -> int): (r: seq<T>)
    ensures SortedDesc(r, key)
    ensures multiset(r) == multiset(s)
    ensures |r| == |s|
  {
    if s == [] then []
    else
      assert s == s[..|s| - 1] + [s[|s| - 1]];
      var r := SortDesc(s[..|s| - 1], key);
      InsertDescSorted(r, s[|s| - 1], key);
      InsertDesc(r, s[|s| - 1], key)
  }

  /** Filtering and insertion commute. */
  lemma {:induction false} FilterInsert<T(!new)>(r: seq<T>, x: T, key: T -> int, p: T -> bool)
    requires SortedDesc(r, key)
    ensures Filter(InsertDesc(r, x, key), p) ==
            if p(x) then InsertDesc(Filter(r, p), x, key) else Filter(r, p)
  {
    if r == [] {
      assert Filter([x], p) == Filter([], p) + (if p(x) then [x] else []);
    } else if key(r[0]) >= key(x) {
      FilterInsert(r[1..], x, key, p);
      FilterInsertBehind(r, x, key, p);
    } else {
      FilterInsertFront(r, x, key, p);
    }
  }

  lemma {:induction false} FilterSingle<T(!new)>(x: T, p: T -> bool)
    ensures Filter([x], p) == if p(x) then [x] else []
  {
    assert [x][..0] == [];
  }

  lemma {:induction false} FilterInsertBehind<T(!new)>(r: seq<T>, x: T, key: T -> int, p: T -> bool)
    requires r != [] && key(r[0]) >= key(x)
    requires Filter(InsertDesc(r[1..], x, key), p) ==
             if p(x) then InsertDesc(Filter(r[1..], p), x, key) else Filter(r[1..], p)
    ensures Filter(InsertDesc(r, x, key), p) ==
            if p(x) then InsertDesc(Filter(r, p), x, key) else Filter(r, p)
  {
    var head, tail := r[0], r[1..];
    var ins := InsertDesc(tail, x, key);
    assert r == [head] + tail;
    InsertBehindHead(head, tail, x, key);
    FilterConcat([head], ins, p);
    FilterConcat([head], tail, p);
    FilterSingle(head, p);
    var fh, ft := Filter([head], p), Filter(tail, p);
    assert Filter(r, p) == fh + ft;
    assert Filter(InsertDesc(r, x, key), p) == fh + Filter(ins, p);
    if p(x) && p(head) {
      assert fh == [head];
      InsertBehindHead(head, ft, x, key);
    } else if p(x) {
      assert fh == [];
      assert fh + ft == ft && fh + Filter(ins, p) == Filter(ins, p);
    }
  }

  /** An element that does not outrank the head is inserted behind it. */
  lemma InsertBehindHead<T(!new)>(head: T, s: seq<T>, x: T, key: T -> int)
    requires key(head) >= key(x)
    ensures InsertDesc([head] + s, x, key) == [head] + InsertDesc(s, x, key)
  {
    assert ([head] + s)[0] == head && ([head] + s)[1..] == s;
  }

  lemma {:induction false} FilterInsertFront<T(!new)>(r: seq<T>, x: T, key: T -> int, p: T -> bool)
    requires SortedDesc(r, key)
    requires r != [] && key(r[0]) < key(x)
    ensures Filter(InsertDesc(r, x, key), p) ==
            if p(x) then InsertDesc(Filter(r, p), x, key) else Filter(r, p)
  {
    assert InsertDesc(r, x, key) == [x] + r;
    FilterConcat([x], r, p);
    FilterSingle(x, p);
    var fr := Filter(r, p);
    if p(x) && fr != [] {
      FilterMembers(r, p);
      assert fr[0] in r;
      assert key(fr[0]) < key(x);
    }
  }

  /** A filtered sorted sequence is sorted. */
  lemma {:induction false} FilterSorted<T(!new)>(r: seq<T>, key: T -> int, p: T -> bool)
    requires SortedDesc(r, key)
    ensures SortedDesc(Filter(r, p), key)
  {
    if r != [] {
      var init, last := r[..|r| - 1], r[|r| - 1];
      FilterSorted(init, key, p);
      var fi := Filter(init, p);
      if p(last) {
        FilterMembers(init, p);
        forall i | 0 <= i < |fi| ensures key(fi[i]) >= key(last) {
          assert fi[i] in init;
        }
      }
    }
  }

  /**
   * Sorting then filtering gives the same sequence as filtering then sorting;
   * this holds because the sort is stable.
   */
  lemma {:induction false} SortFilterCommute<T(!new)>(s: seq<T>, key: T -> int, p: T -> bool)
    ensures Filter(SortDesc(s, key), p) == SortDesc(Filter(s, p), key)
  {
    if s != [] {
      var init, last := s[..|s| - 1], s[|s| - 1];
      SortFilterCommute(init, key, p);
      FilterInsert(SortDesc(init, key), last, key, p);
      FilterSorted(SortDesc(init, key), key, p);
      assert Filter(s, p) == Filter(init, p) + (if p(last) then [last] else []);
      if p(last) {
        assert Filter(s, p)[..|Filter(s, p)| - 1] == Filter(init, p);
      } else {
        assert Filter(s, p) == Filter(init, p);
      }
    }
  }

  /** A sequence already in key-descending order is left as it is. */
  lemma {:induction false} SortDescSorted<T(!new)>(s: seq<T>, key: T -> int)
    requires SortedDesc(s, key)
    ensures SortDesc(s, key) == s
  {
    if s != [] {
      var init, last := s[..|s| - 1], s[|s| - 1];
      SortDescSorted(init, key);
      InsertAtEnd(init, last, key);
    }
  }

  lemma {:induction false} InsertAtEnd<T(!new)>(r: seq<T>, x: T, key: T -> int)
    requires SortedDesc(r, key)
    requires forall i :: 0 <= i < |r| ==> key(r[i]) >= key(x)
    ensures InsertDesc(r, x, key) == r + [x]
  {
    if r != [] {
      InsertAtEnd(r[1..], x, key);
      assert r == [r[0]] + r[1..];
    }
  }

  /**
   * Stability: the elements sharing one key appear in the output in the
   * order they had in the input.
   */
  lemma SortStable<T(!new)>(s: seq<T>, key: T -> int, k: int)
    ensures Filter(SortDesc(s, key), KeyIs(key, k)) == Filter(s, KeyIs(key, k))
  {
    var p := KeyIs(key, k);
    SortFilterCommute(s, key, p);
    SortDescSorted(Filter(s, p), key);
  }

  /** Sorting keeps the same elements. */
  lemma SortDescMembers<T(!new)>(s: seq<T>, key: T -> int)
    ensures forall x :: x in SortDesc(s, key) <==> x in s
  {
    var r := SortDesc(s, key);
    forall x ensures x in r <==> x in s {
      assert x in r <==> x in multiset(r);
      assert x in s <==> x in multiset(s);
    }
  }

  /** Sorting does not change a sum. */
  lemma {:induction false} SumBySortDesc<T(!new)>(s: seq<T>, key: T -> int, f: T -> int)
    ensures SumBy(SortDesc(s, key), f) == SumBy(s, f)
  {
    if s != [] {
      var init, last := s[..|s| - 1], s[|s| - 1];
      SumBySortDesc(init, key, f);
      SumByInsert(SortDesc(init, key), last, key, f);
    }
  }

  lemma {:induction false} SumByInsert<T(!new)>(r: seq<T>, x: T, key: T -> int, f: T -> int)
    requires SortedDesc(r, key)
    ensures SumBy(InsertDesc(r, x, key), f) == SumBy(r, f) + f(x)
  {
    if r == [] {
      assert SumBy([x], f) == SumBy([], f) + f(x);
    } else if key(r[0]) >= key(x) {
      SumByInsert(r[1..], x, key, f);
      SumByConcat([r[0]], InsertDesc(r[1..], x, key), f);
      SumByConcat([r[0]], r[1..], f);
      assert r == [r[0]] + r[1..];
      assert SumBy([r[0]], f) == SumBy([], f) + f(r[0]);
    } else {
      SumByConcat([x], r, f);
      assert SumBy([x], f) == SumBy([], f) + f(x);
    }
  }

  /** `s.map(f)`. */
  function Map<T, U>(s: seq<T>, f: T -> U): (r: seq<U>)
    ensures |r| == |s|
    ensures forall k :: 0 <= k < |s| ==> r[k] == f(s[k])
  {
    if s == [] then [] else Map(s[..|s| - 1], f) + [f(s[|s| - 1])]
  }

  lemma MapConcat<T, U>(a: seq<T>, b: seq<T>, f: T -> U)
    ensures Map(a + b, f) == Map(a, f) + Map(b, f)
  {
    var l, r := Map(a + b, f), Map(a, f) + Map(b, f);
    forall k | 0 <= k < |l| ensures l[k] == r[k] {
      if k >= |a| {
        assert (a + b)[k] == b[k - |a|];
      }
    }
  }

  /** Inserting an element inserts its image, as a multiset. */
  lemma {:induction false} MapInsert<T(!new), U>(r: seq<T>, x: T, key: T -> int, f: T -> U)
    ensures multiset(Map(InsertDesc(r, x, key), f)) == multiset(Map(r, f)) + multiset{f(x)}
  {
    if r != [] && key(r[0]) >= key(x) {
      MapInsert(r[1..], x, key, f);
      assert r == [r[0]] + r[1..];
      MapInsertBehind(r[0], r[1..], x, key, f);
    } else {
      MapInsertFront(r, x, key, f);
    }
  }

  lemma MapInsertFront<T(!new), U>(r: seq<T>, x: T, key: T -> int, f: T -> U)
    requires r == [] || key(r[0]) < key(x)
    ensures multiset(Map(InsertDesc(r, x, key), f)) == multiset(Map(r, f)) + multiset{f(x)}
  {
    assert InsertDesc(r, x, key) == [x] + r;
    MapConcat([x], r, f);
    assert Map([x], f) == [f(x)];
    assert Map(InsertDesc(r, x, key), f) == [f(x)] + Map(r, f);
  }

  lemma MapInsertBehind<T(!new), U>(h: T, t: seq<T>, x: T, key: T -> int, f: T -> U)
    requires key(h) >= key(x)
    requires multiset(Map(InsertDesc(t, x, key), f)) == multiset(Map(t, f)) + multiset{f(x)}
    ensures multiset(Map(InsertDesc([h] + t, x, key), f)) == multiset(Map([h] + t, f)) + multiset{f(x)}
  {
    var ins := InsertDesc(t, x, key);
    assert Map(InsertDesc([h] + t, x, key), f) == [f(h)] + Map(ins, f) by {
      assert ([h] + t)[0] == h && ([h] + t)[1..] == t;
      assert InsertDesc([h] + t, x, key) == [h] + ins;
      MapConcat([h], ins, f);
      assert Map([h], f) == [f(h)];
    }
    assert Map([h] + t, f) == [f(h)] + Map(t, f) by {
      MapConcat([h], t, f);
      assert Map([h], f) == [f(h)];
    }
    ConsAdded(Map(ins, f), Map(t, f), f(h), f(x));
  }

  /** Putting the same element in front of both sides keeps a multiset difference of one element. */
  lemma ConsAdded<U>(a: seq<U>, b: seq<U>, y: U, z: U)
    requires multiset(a) == multiset(b) + multiset{z}
    ensures multiset([y] + a) == multiset([y] + b) + multiset{z}
  {
    calc {
      multiset([y] + a);
      multiset([y]) + multiset(a);
      multiset([y]) + multiset(b) + multiset{z};
      multiset([y] + b) + multiset{z};
    }
  }

  /** Sorting permutes the images. */
  lemma {:induction false} MapSortDesc<T(!new), U>(s: seq<T>, key: T -> int, f: T -> U)
    ensures multiset(Map(SortDesc(s, key), f)) == multiset(Map(s, f))
  {
    if s != [] {
      var init, last := s[..|s| - 1], s[|s| - 1];
      MapSortDesc(init, key, f);
      MapInsert(SortDesc(init, key), last, key, f);
      assert Map(s, f) == Map(init, f) + [f(last)];
    }
  }

  /** A permutation of the images of `b` holds only images of elements of `b`, and the image of each. */
  lemma MapCover<T, U>(a: seq<U>, b: seq<T>, f: T -> U)
    requires multiset(a) == multiset(Map(b, f))
    ensures forall k :: 0 <= k < |a| ==> exists x :: x in b && a[k] == f(x)
    ensures forall x :: x in b ==> f(x) in a
  {
    var q := Map(b, f);
    forall k | 0 <= k < |a| ensures exists x :: x in b && a[k] == f(x) {
      assert a[k] in multiset(q);
      var j :| 0 <= j < |q| && q[j] == a[k];
      assert b[j] in b;
    }
    forall x | x in b ensures f(x) in a {
      var j :| 0 <= j < |b| && b[j] == x;
      assert q[j] in multiset(a);
    }
  }

  /** No two positions hold elements with the same `id`. */
  ghost predicate DistinctBy<T, K>(s: seq<T>, id: T -> K) {
    forall i, j :: 0 <= i < j < |s| ==> id(s[i]) != id(s[j])
  }

  /** Sorting keeps the elements pairwise distinct under `id` when they were. */
  lemma {:induction false} SortDescDistinctBy<T(!new), K>(s: seq<T>, key: T -> int, id: T -> K)
    requires DistinctBy(s, id)
    ensures DistinctBy(SortDesc(s, key), id)
  {
    if s != [] {
      var init, last := s[..|s| - 1], s[|s| - 1];
      SortDescDistinctBy(init, key, id);
      var r := SortDesc(init, key);
      forall j | 0 <= j < |r| ensures id(r[j]) != id(last) {
        assert r[j] in multiset(r);
        assert r[j] in multiset(init);
        var k :| 0 <= k < |init| && init[k] == r[j];
        assert s[k] == init[k];
      }
      InsertDistinctBy(r, last, key, id);
    }
  }

  lemma {:induction false} InsertDistinctBy<T(!new), K>(r: seq<T>, x: T, key: T -> int, id: T -> K)
    requires DistinctBy(r, id)
    requires forall j :: 0 <= j < |r| ==> id(r[j]) != id(x)
    ensures DistinctBy(InsertDesc(r, x, key), id)
  {
    if r != [] && key(r[0]) >= key(x) {
      var tail := r[1..];
      InsertDistinctBy(tail, x, key, id);
      var t' := InsertDesc(tail, x, key);
      forall j | 0 <= j < |t'| ensures id(t'[j]) != id(r[0]) {
        assert t'[j] in multiset(t');
        if t'[j] != x {
          assert t'[j] in multiset(tail);
          var k :| 0 <= k < |tail| && tail[k] == t'[j];
          assert r[k + 1] == tail[k];
        }
      }
      var r' := [r[0]] + t';
      forall i, j | 0 <= i < j < |r'| ensures id(r'[i]) != id(r'[j]) {
        assert r'[j] == t'[j - 1];
        if i > 0 {
          assert r'[i] == t'[i - 1];
        } else {
          assert r'[i] == r[0];
        }
      }
    } else if r != [] {
      var r' := [x] + r;
      forall i, j | 0 <= i < j < |r'| ensures id(r'[i]) != id(r'[j]) {
        assert r'[j] == r[j - 1];
        if i > 0 {
          assert r'[i] == r[i - 1];
        }
      }
    }
  }

  // ---------------------------------------------------------------- find and upsert

  /** `s.findIndex(y => key(y) === k)`: the first position holding key `k`, or -1. */
  function FirstIndex<T(!new), K(==)>(s: seq<T>, key: T -> K, k: K): (i: int)
    ensures -1 <= i < |s|
    ensures i == -1 <==> forall j :: 0 <= j < |s| ==> key(s[j]) != k
    ensures 0 <= i ==> key(s[i]) == k && forall j :: 0 <= j < i ==> key(s[j]) != k
  {
    if s == [] then -1
    else if key(s[0]) == k then 0
    else
      var i := FirstIndex(s[1..], key, k);
      if i < 0 then -1 else i + 1
  }

  /**
   * The store's save handlers: if some element already has `x`'s key, the
   * first such element is replaced in place by `merge(old, x)`, every other
   * position keeps its element and the length is unchanged; otherwise `x` is
   * appended.
   */
  function Upsert<T(!new), K(==)>(s: seq<T>, x: T, key: T -> K, merge: (T, T) -> T): (r: seq<T>)
    ensures (exists j :: 0 <= j < |s| && key(s[j]) == key(x)) ==> |r| == |s|
    ensures (forall j :: 0 <= j < |s| ==> key(s[j]) != key(x)) ==> r == s + [x]
    ensures forall j :: 0 <= j < |s| && j != FirstIndex(s, key, key(x)) ==> r[j] == s[j]
    ensures FirstIndex(s, key, key(x)) >= 0 ==> r[FirstIndex(s, key, key(x))] == merge(s[FirstIndex(s, key, key(x))], x)
  {
    var i := FirstIndex(s, key, key(x));
    if i >= 0 then s[i := merge(s[i], x)] else s + [x]
  }

  /**
   * After an upsert whose merge keeps the key, the first element with `x`'s
   * key is the merged record, or `x` itself when it was appended.
   */
  lemma UpsertLookup<T(!new), K>(s: seq<T>, x: T, key: T -> K, merge: (T, T) -> T)
    requires forall y :: key(merge(y, x)) == key(x)
    ensures var r := Upsert(s, x, key, merge);
            var i := FirstIndex(s, key, key(x));
            var i' := FirstIndex(r, key, key(x));
            i' >= 0 && r[i'] == (if i >= 0 then merge(s[i], x) else x)
  {
    var r := Upsert(s, x, key, merge);
    var i := FirstIndex(s, key, key(x));
    if i >= 0 {
      FirstIndexPrefix(r, key, key(x), i);
    } else {
      FirstIndexPrefix(r, key, key(x), |s|);
    }
  }

  /** An upsert whose merge keeps the key leaves the elements with other keys as they were, in order. */
  lemma UpsertKeepsOthers<T(!new), K>(s: seq<T>, x: T, key: T -> K, merge: (T, T) -> T)
    requires forall y :: key(merge(y, x)) == key(x)
    ensures Filter(Upsert(s, x, key, merge), Not(KeyIs(key, key(x)))) == Filter(s, Not(KeyIs(key, key(x))))
  {
    var r := Upsert(s, x, key, merge);
    var i := FirstIndex(s, key, key(x));
    var p := Not(KeyIs(key, key(x)));
    if i >= 0 {
      var pre, post := s[..i], s[i + 1..];
      assert r == (pre + [merge(s[i], x)]) + post;
      assert s == (pre + [s[i]]) + post;
      FilterConcat(pre + [merge(s[i], x)], post, p);
      FilterConcat(pre, [merge(s[i], x)], p);
      FilterConcat(pre + [s[i]], post, p);
      FilterConcat(pre, [s[i]], p);
      assert Filter([merge(s[i], x)], p) == [];
      assert Filter([s[i]], p) == [];
    } else {
      FilterConcat(s, [x], p);
      assert Filter([x], p) == [];
    }
  }

  lemma {:induction false} FirstIndexPrefix<T(!new), K>(s: seq<T>, key: T -> K, k: K, i: int)
    requires 0 <= i < |s| && key(s[i]) == k
    requires forall j :: 0 <= j < i ==> key(s[j]) != k
    ensures FirstIndex(s, key, k) == i
  {
    if i > 0 {
      FirstIndexPrefix(s[1..], key, k, i - 1);
    }
  }

  // ---------------------------------------------------------------- sums over a keyed map

  /** The sum of `m[k]` over the keys listed in `keys`. */
  function SumOver<K>(keys: seq<K>, m: map<K, int>): int
    requires forall i :: 0 <= i < |keys| ==> keys[i] in m
  {
    if keys == [] then 0 else SumOver(keys[..|keys| - 1], m) + m[keys[|keys| - 1]]
  }

  /** Changing the entry of a key that is listed exactly once changes the sum by the difference. */
  lemma {:induction false} SumOverUpdate<K>(keys: seq<K>, m: map<K, int>, k: K, v: int)
    requires forall i :: 0 <= i < |keys| ==> keys[i] in m
    requires Distinct(keys)
    ensures SumOver(keys, m[k := v]) == SumOver(keys, m) + (if k in keys then v - m[k] else 0)
  {
    if keys != [] {
      var init := keys[..|keys| - 1];
      SumOverUpdate(init, m, k, v);
      assert keys == init + [keys[|keys| - 1]];
    }
  }

  // ---------------------------------------------------------------- sums per key

  /** The keys some element of `s` carries. */
  ghost function KeysOf<T(!new), K>(s: seq<T>, key: T -> Option<K>): set<K> {
    set x | x in s && key(x).Some? :: key(x).value
  }

  function IsKeyed<T, K>(key: T -> Option<K>): T -> bool {
    x => key(x).Some?
  }

  /** The sum of `f` over the elements whose key is `Some(k)`, element by element. */
  function SumWhere<T(!new), K(==)>(s: seq<T>, key: T -> Option<K>, k: K, f: T -> int): int {
    if s == [] then 0
    else SumWhere(s[..|s| - 1], key, k, f) + (if key(s[|s| - 1]) == Some(k) then f(s[|s| - 1]) else 0)
  }

  lemma SumWhereStep<T(!new), K>(s: seq<T>, key: T -> Option<K>, k: K, f: T -> int, i: int)
    requires 0 <= i < |s|
    ensures SumWhere(s[..i + 1], key, k, f) == SumWhere(s[..i], key, k, f) + (if key(s[i]) == Some(k) then f(s[i]) else 0)
  {
    assert s[..i + 1][..i] == s[..i];
  }

  lemma KeysOfStep<T(!new), K>(s: seq<T>, key: T -> Option<K>, i: int)
    requires 0 <= i < |s|
    ensures KeysOf(s[..i + 1], key) == KeysOf(s[..i], key) + (if key(s[i]).Some? then {key(s[i]).value} else {})
  {
    assert s[..i + 1] == s[..i] + [s[i]];
  }

  /** A key no element carries sums to zero. */
  lemma {:induction false} SumWhereAbsent<T(!new), K>(s: seq<T>, key: T -> Option<K>, k: K, f: T -> int)
    requires k !in KeysOf(s, key)
    ensures SumWhere(s, key, k, f) == 0
  {
    if s != [] {
      var init := s[..|s| - 1];
      assert KeysOf(init, key) <= KeysOf(s, key);
      SumWhereAbsent(init, key, k, f);
    }
  }

  /** The same sum as a `filter` followed by a `reduce`. */
  lemma {:induction false} SumWhereFiltered<T(!new), K>(s: seq<T>, key: T -> Option<K>, k: K, f: T -> int)
    ensures SumWhere(s, key, k, f) == SumBy(Filter(s, KeyIs(key, Some(k))), f)
  {
    if s != [] {
      var init, last := s[..|s| - 1], s[|s| - 1];
      SumWhereFiltered(init, key, k, f);
      var r := Filter(init, KeyIs(key, Some(k)));
      if key(last) == Some(k) {
        assert (r + [last])[..|r|] == r;
      } else {
        assert r + [] == r;
      }
    }
  }

  /** SumWhere added up over the keys in `keys`. */
  function SumsOver<T(!new), K(==)>(keys: seq<K>, s: seq<T>, key: T -> Option<K>, f: T -> int): int {
    if keys == [] then 0 else SumsOver(keys[..|keys| - 1], s, key, f) + SumWhere(s, key, keys[|keys| - 1], f)
  }

  lemma {:induction false} SumsOverEmpty<T(!new), K>(keys: seq<K>, key: T -> Option<K>, f: T -> int)
    ensures SumsOver(keys, [], key, f) == 0
  {
    if keys != [] {
      SumsOverEmpty(keys[..|keys| - 1], key, f);
    }
  }

  lemma {:induction false} SumsOverSnoc<T(!new), K>(keys: seq<K>, s: seq<T>, x: T, key: T -> Option<K>, f: T -> int)
    requires Distinct(keys)
    ensures SumsOver(keys, s + [x], key, f) ==
            SumsOver(keys, s, key, f) + (if key(x).Some? && key(x).value in keys then f(x) else 0)
  {
    if keys != [] {
      var init, last := keys[..|keys| - 1], keys[|keys| - 1];
      assert keys == init + [last];
      assert Distinct(init) by {
        forall i, j | 0 <= i < j < |init| ensures init[i] != init[j] {
          assert init[i] == keys[i] && init[j] == keys[j];
        }
      }
      assert last !in init by {
        forall i | 0 <= i < |init| ensures init[i] != last {
          assert init[i] == keys[i];
        }
      }
      SumsOverSnoc(init, s, x, key, f);
      var s' := s + [x];
      assert s'[..|s|] == s;
      assert s'[..|s| + 1] == s';
      SumWhereStep(s', key, last, f, |s|);
      assert SumsOver(keys, s', key, f) == SumsOver(init, s', key, f) + SumWhere(s', key, last, f);
      assert SumsOver(keys, s, key, f) == SumsOver(init, s, key, f) + SumWhere(s, key, last, f);
    }
  }

  /**
   * When `keys` lists every key the elements carry, once each, the per-key
   * sums add up to the sum over all keyed elements.
   */
  lemma {:induction false} SumsOverTotal<T(!new), K>(keys: seq<K>, s: seq<T>, key: T -> Option<K>, f: T -> int)
    requires Distinct(keys)
    requires KeysOf(s, key) <= set k | k in keys
    ensures SumsOver(keys, s, key, f) == SumBy(Filter(s, IsKeyed(key)), f)
  {
    if s == [] {
      SumsOverEmpty(keys, key, f);
    } else {
      var init, last := s[..|s| - 1], s[|s| - 1];
      assert init + [last] == s;
      assert KeysOf(init, key) <= KeysOf(s, key);
      SumsOverTotal(keys, init, key, f);
      SumsOverSnoc(keys, init, last, key, f);
      var r := Filter(init, IsKeyed(key));
      if key(last).Some? {
        assert key(last).value in KeysOf(s, key);
        assert (r + [last])[..|r|] == r;
      } else {
        assert r + [] == r;
      }
    }
  }

  /** A map holding SumWhere for each listed key sums to SumsOver. */
  lemma {:induction false} SumOverSums<T(!new), K>(keys: seq<K>, m: map<K, int>, s: seq<T>, key: T -> Option<K>, f: T -> int)
    requires forall i :: 0 <= i < |keys| ==> keys[i] in m && m[keys[i]] == SumWhere(s, key, keys[i], f)
    ensures SumOver(keys, m) == SumsOver(keys, s, key, f)
  {
    if keys != [] {
      SumOverSums(keys[..|keys| - 1], m, s, key, f);
    }
  }

  // ---------------------------------------------------------------- rows of a keyed map

  /**
   * `unsorted` is `Object.values(m)` for a map `totals` whose keys were
   * created in the order `keys`: one row per key, carrying the key and its
   * total.
   */
  ghost predicate RowsOf<R, K>(keys: seq<K>, totals: map<K, int>, unsorted: seq<R>, id: R -> K, val: R -> int) {
    && |unsorted| == |keys|
    && (forall i :: 0 <= i < |keys| ==> keys[i] in totals && id(unsorted[i]) == keys[i] && val(unsorted[i]) == totals[keys[i]])
  }

  lemma {:induction false} RowsOfSum<R(!new), K>(keys: seq<K>, totals: map<K, int>, unsorted: seq<R>, id: R -> K, val: R -> int)
    requires RowsOf(keys, totals, unsorted, id, val)
    ensures SumBy(unsorted, val) == SumOver(keys, totals)
  {
    if keys != [] {
      var n := |keys| - 1;
      RowsOfSum(keys[..n], totals, unsorted[..n], id, val);
    }
  }

  /**
   * Sorting the rows of a keyed map by value keeps one row per key, each
   * key's row, and the sum of the values.
   */
  lemma KeyedRows<R(!new), K>(keys: seq<K>, totals: map<K, int>, unsorted: seq<R>, id: R -> K, val: R -> int, rows: seq<R>)
    requires Distinct(keys) && RowsOf(keys, totals, unsorted, id, val)
    requires rows == SortDesc(unsorted, val)
    ensures forall i, j :: 0 <= i < j < |rows| ==> id(rows[i]) != id(rows[j])
    ensures forall k :: (exists j :: 0 <= j < |rows| && id(rows[j]) == k) <==> k in keys
    ensures forall j :: 0 <= j < |rows| ==> exists i :: 0 <= i < |keys| && rows[j] == unsorted[i]
    ensures SumBy(rows, val) == SumOver(keys, totals)
  {
    assert DistinctBy(unsorted, id) by {
      forall i, j | 0 <= i < j < |unsorted| ensures id(unsorted[i]) != id(unsorted[j]) {
        assert id(unsorted[i]) == keys[i] && id(unsorted[j]) == keys[j];
      }
    }
    SortDescDistinctBy(unsorted, val, id);
    SortDescMembers(unsorted, val);
    forall k ensures (exists j :: 0 <= j < |rows| && id(rows[j]) == k) <==> k in keys {
      KeyedRow(keys, totals, unsorted, id, val, rows, k);
    }
    forall j | 0 <= j < |rows| ensures exists i :: 0 <= i < |keys| && rows[j] == unsorted[i] {
      assert rows[j] in unsorted;
    }
    SumBySortDesc(unsorted, val, val);
    RowsOfSum(keys, totals, unsorted, id, val);
  }

  lemma KeyedRow<R, K>(keys: seq<K>, totals: map<K, int>, unsorted: seq<R>, id: R -> K, val: R -> int, rows: seq<R>, k: K)
    requires RowsOf(keys, totals, unsorted, id, val)
    requires forall x :: x in rows <==> x in unsorted
    ensures (exists j :: 0 <= j < |rows| && id(rows[j]) == k) <==> k in keys
  {
    if exists j :: 0 <= j < |rows| && id(rows[j]) == k {
      var j :| 0 <= j < |rows| && id(rows[j]) == k;
      assert rows[j] in unsorted;
      var i :| 0 <= i < |unsorted| && rows[j] == unsorted[i];
      assert keys[i] == k;
    }
    if k in keys {
      var i :| 0 <= i < |keys| && keys[i] == k;
      assert unsorted[i] in rows;
      var j :| 0 <= j < |rows| && rows[j] == unsorted[i];
      assert id(rows[j]) == k;
    }
  }

  /** A key occurs in the sequence exactly when some element, the first of them at FirstIndex, carries it. */
  lemma KeysOfFirstIndex<T(!new), K>(s: seq<T>, key: T -> Option<K>, k: K)
    ensures k in KeysOf(s, key) <==> FirstIndex(s, key, Some(k)) >= 0
  {
    if k in KeysOf(s, key) {
      var x :| x in s && key(x).Some? && key(x).value == k;
      var j :| 0 <= j < |s| && s[j] == x;
      assert key(s[j]) == Some(k);
    }
    if FirstIndex(s, key, Some(k)) >= 0 {
      assert s[FirstIndex(s, key, Some(k))] in s;
    }
  }

  lemma KeysOfSnoc<T(!new), K>(s: seq<T>, x: T, key: T -> Option<K>)
    ensures KeysOf(s + [x], key) == KeysOf(s, key) + (if key(x).Some? then {key(x).value} else {})
  {
  }

  lemma SumWhereSnoc<T(!new), K>(s: seq<T>, x: T, key: T -> Option<K>, k: K, f: T -> int)
    ensures SumWhere(s + [x], key, k, f) == SumWhere(s, key, k, f) + (if key(x) == Some(k) then f(x) else 0)
  {
    assert (s + [x])[..|s|] == s;
  }
}
