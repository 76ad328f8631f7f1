/** Sequence vocabulary shared by every part of the model: JavaScript's
    `filter`, `slice` and `[...new Set(xs)]`, subsequences, and the stable
    sort that `Array.prototype.sort` performs. */
module Seqs {

  function Min(a: int, b: int): int
  {
    if a <= b then a else b
  }

  /** `xs.filter(p)`: the elements that satisfy `p`, in their original order. */
  function Filter<T(!new)>(s: seq<T>, p: T -> bool): (r: seq<T>)
    ensures |r| <= |s|
    ensures forall x :: x in r <==> x in s && p(x)
  {
    if s == [] then [] else (if p(s[0]) then [s[0]] else []) + Filter(s[1..], p)
  }

  lemma {:induction false} FilterConcat<T(!new)>(a: seq<T>, b: seq<T>, p: T -> bool)
    ensures Filter(a + b, p) == Filter(a, p) + Filter(b, p)
  {
    if a != [] {
      var head := if p(a[0]) then [a[0]] else [];
      calc {
        Filter(a + b, p);
        { assert (a + b)[0] == a[0] && (a + b)[1..] == a[1..] + b; }
        head + Filter(a[1..] + b, p);
        { FilterConcat(a[1..], b, p); }
        head + (Filter(a[1..], p) + Filter(b, p));
        (head + Filter(a[1..], p)) + Filter(b, p);
      }
    } else {
      assert a + b == b;
    }
  }

  /** Filtering a sequence extended by one element. */
  lemma FilterSnoc<T(!new)>(s: seq<T>, x: T, p: T -> bool)
    ensures Filter(s + [x], p) == Filter(s, p) + if p(x) then [x] else []
  {
    FilterConcat(s, [x], p);
    assert [x][1..] == [];
  }

  /** The filter of a non-empty sequence is that of its front, followed by
      the last element when it is kept. */
  lemma FilterLast<T(!new)>(s: seq<T>, p: T -> bool)
    requires s != []
    ensures Filter(s, p) == Filter(s[..|s| - 1], p) + if p(s[|s| - 1]) then [s[|s| - 1]] else []
  {
    var init, last := s[..|s| - 1], s[|s| - 1];
    assert s == init + [last];
    FilterSnoc(init, last, p);
  }

  /** The filter of a non-empty sequence is one longer than that of its
      front exactly when the last element is kept. */
  lemma FilterLengthLast<T(!new)>(s: seq<T>, p: T -> bool)
    requires s != []
    ensures |Filter(s, p)| == |Filter(s[..|s| - 1], p)| + if p(s[|s| - 1]) then 1 else 0
  {
    var init, last := s[..|s| - 1], s[|s| - 1];
    FilterLast(s, p);
    if p(last) {
      assert Filter(s, p) == Filter(init, p) + [last];
    } else {
      assert Filter(s, p) == Filter(init, p);
    }
  }

  /** Filtering twice is filtering once by the conjunction. */
  lemma {:induction false} FilterTwice<T(!new)>(s: seq<T>, p: T -> bool, q: T -> bool)
    ensures Filter(Filter(s, p), q) == Filter(s, x => p(x) && q(x))
  {
    if s != [] {
      FilterTwice(s[1..], p, q);
      var head := if p(s[0]) then [s[0]] else [];
      FilterConcat(head, Filter(s[1..], p), q);
    }
  }

  /** Filtering by `p` and then by `q` is filtering by any `r` that agrees
      with their conjunction on the elements. */
  lemma FilterTwiceBy<T(!new)>(s: seq<T>, p: T -> bool, q: T -> bool, r: T -> bool)
    requires forall x :: x in s ==> (r(x) <==> p(x) && q(x))
    ensures Filter(Filter(s, p), q) == Filter(s, r)
  {
    FilterTwice(s, p, q);
    FilterSame(s, x => p(x) && q(x), r);
  }

  /** A filter whose predicate holds everywhere keeps everything. */
  lemma {:induction false} FilterAll<T(!new)>(s: seq<T>, p: T -> bool)
    requires forall x :: x in s ==> p(x)
    ensures Filter(s, p) == s
  {
    if s != [] {
      FilterAll(s[1..], p);
    }
  }

  /** A filter whose predicate holds nowhere keeps nothing. */
  lemma {:induction false} FilterNone<T(!new)>(s: seq<T>, p: T -> bool)
    requires forall x :: x in s ==> !p(x)
    ensures Filter(s, p) == []
  {
    if s != [] {
      assert s[0] in s;
      FilterNone(s[1..], p);
    }
  }

  /** Two predicates that agree on the elements select the same elements. */
  lemma {:induction false} FilterSame<T(!new)>(s: seq<T>, p: T -> bool, q: T -> bool)
    requires forall x :: x in s ==> (p(x) <==> q(x))
    ensures Filter(s, p) == Filter(s, q)
  {
    if s != [] {
      FilterSame(s[1..], p, q);
    }
  }

  /** `a` is obtained from `b` by deleting elements (order is kept). */
  ghost predicate IsSubseq<T(!new)>(a: seq<T>, b: seq<T>)
    decreases |b|
  {
    if a == [] then true
    else if b == [] then false
    else (a[0] == b[0] && IsSubseq(a[1..], b[1..])) || IsSubseq(a, b[1..])
  }

  lemma {:induction false} SubseqLength<T(!new)>(a: seq<T>, b: seq<T>)
    requires IsSubseq(a, b)
    ensures |a| <= |b|
    decreases |b|
  {
    if a != [] {
      if a[0] == b[0] && IsSubseq(a[1..], b[1..]) {
        SubseqLength(a[1..], b[1..]);
      } else {
        SubseqLength(a, b[1..]);
      }
    }
  }

  lemma {:induction false} SubseqRefl<T(!new)>(s: seq<T>)
    ensures IsSubseq(s, s)
  {
    if s != [] {
      SubseqRefl(s[1..]);
    }
  }

  lemma {:induction false} SubseqTrans<T(!new)>(a: seq<T>, b: seq<T>, c: seq<T>)
    requires IsSubseq(a, b) && IsSubseq(b, c)
    ensures IsSubseq(a, c)
    decreases |c|
  {
    if a != [] {
      SubseqLength(b, c);
      if IsSubseq(b, c[1..]) {
        SubseqTrans(a, b, c[1..]);
      } else if a[0] == b[0] && IsSubseq(a[1..], b[1..]) {
        SubseqTrans(a[1..], b[1..], c[1..]);
      } else {
        SubseqTrans(a, b[1..], c[1..]);
      }
    }
  }

  lemma {:induction false} PrefixIsSubseq<T(!new)>(s: seq<T>, k: nat)
    requires k <= |s|
    ensures IsSubseq(s[..k], s)
  {
    if k > 0 {
      PrefixIsSubseq(s[1..], k - 1);
      assert s[..k][1..] == s[1..][..k - 1];
    }
  }

  /** A filtered sequence is a subsequence of its source. */
  lemma {:induction false} FilterIsSubseq<T(!new)>(s: seq<T>, p: T -> bool)
    ensures IsSubseq(Filter(s, p), s)
  {
    if s != [] {
      FilterIsSubseq(s[1..], p);
      var r := Filter(s, p);
      if p(s[0]) {
        assert r == [s[0]] + Filter(s[1..], p);
        assert r[0] == s[0] && r[1..] == Filter(s[1..], p);
      } else {
        assert r == Filter(s[1..], p);
      }
    }
  }

  /** A weaker predicate keeps a supersequence. */
  lemma FilterWeaker<T(!new)>(s: seq<T>, p: T -> bool, q: T -> bool)
    requires forall x :: p(x) ==> q(x)
    ensures IsSubseq(Filter(s, p), Filter(s, q))
  {
    FilterTwice(s, q, p);
    FilterSame(s, x => q(x) && p(x), p);
    FilterIsSubseq(Filter(s, q), p);
  }

  /** `xs.slice(0, n)`. */
  function Take<T(!new)>(s: seq<T>, n: nat): (r: seq<T>)
    ensures |r| == Min(n, |s|) && r == s[..|r|]
  {
    if n <= |s| then s[..n] else s
  }

  /** `xs.slice(-n)` for a positive `n`: the last `n` elements (all of them when there are fewer). */
  function LastN<T(!new)>(s: seq<T>, n: nat): (r: seq<T>)
    ensures |r| == Min(n, |s|) && r == s[|s| - |r|..]
  {
    if n <= |s| then s[|s| - n..] else s
  }

  predicate NoDuplicates<T(==,!new)>(s: seq<T>)
  {
    forall i, j :: 0 <= i < j < |s| ==> s[i] != s[j]
  }

  /** Position of the first occurrence of `x`. */
  function FirstIndex<T(==,!new)>(s: seq<T>, x: T): (k: nat)
    requires x in s
    ensures k < |s| && s[k] == x && x !in s[..k]
  {
    if s[0] == x then 0 else 1 + FirstIndex(s[1..], x)
  }

  lemma FirstIndexUnique<T(!new)>(s: seq<T>, x: T, k: nat)
    requires k < |s| && s[k] == x && x !in s[..k]
    ensures FirstIndex(s, x) == k
  {
    var f := FirstIndex(s, x);
    if f < k {
      assert false;
    } else if k < f {
      assert false;
    }
  }

  lemma FirstIndexInPrefix<T(!new)>(s: seq<T>, n: nat, x: T)
    requires n <= |s| && x in s[..n]
    ensures FirstIndex(s, x) == FirstIndex(s[..n], x) < n
  {
    var k := FirstIndex(s[..n], x);
    assert s[..n][..k] == s[..k];
    FirstIndexUnique(s, x, k);
  }

  /** `[...new Set(xs)]`: each distinct element once, in order of first occurrence. */
  function Distinct<T(==,!new)>(s: seq<T>): (r: seq<T>)
    ensures NoDuplicates(r)
    ensures forall x :: x in r <==> x in s
  {
    if s == [] then []
    else
      var r := Distinct(s[..|s| - 1]);
      assert forall x :: x in s <==> x in s[..|s| - 1] || x == s[|s| - 1] by {
        assert s == s[..|s| - 1] + [s[|s| - 1]];
      }
      if s[|s| - 1] in r then r else r + [s[|s| - 1]]
  }

  /** The elements of `Distinct(s)` appear in the order of their first occurrence in `s`. */
  lemma {:induction false} DistinctFirstOccurrenceOrder<T(!new)>(s: seq<T>)
    ensures forall i, j :: 0 <= i < j < |Distinct(s)| ==>
      FirstIndex(s, Distinct(s)[i]) < FirstIndex(s, Distinct(s)[j])
  {
    if s != [] {
      var n := |s| - 1;
      var init := s[..n];
      var r0 := Distinct(init);
      DistinctFirstOccurrenceOrder(init);
      var r := Distinct(s);
      forall i, j | 0 <= i < j < |r|
        ensures FirstIndex(s, r[i]) < FirstIndex(s, r[j])
      {
        assert r[i] in init by { assert r[i] == r0[i]; }
        FirstIndexInPrefix(s, n, r[i]);
        if j < |r0| {
          assert r[j] == r0[j];
          FirstIndexInPrefix(s, n, r[j]);
        } else {
          assert r[j] == s[n] && s[n] !in r0;
          assert s[n] !in s[..n];
          FirstIndexUnique(s, s[n], n);
        }
      }
    }
  }

  /** A total preorder: any two elements compare, and comparisons chain. */
  ghost predicate TotalPreorder<T(!new)>(le: (T, T) -> bool)
  {
    && (forall x, y :: le(x, y) || le(y, x))
    && (forall x, y, z :: le(x, y) && le(y, z) ==> le(x, z))
  }

  predicate SortedBy<T(!new)>(s: seq<T>, le: (T, T) -> bool)
  {
    forall i, j :: 0 <= i < j < |s| ==> le(s[i], s[j])
  }

  /** An element below everything in a sorted sequence can go in front of it. */
  lemma SortedCons<T(!new)>(h: T, s: seq<T>, le: (T, T) -> bool)
    requires SortedBy(s, le)
    requires forall k :: 0 <= k < |s| ==> le(h, s[k])
    ensures SortedBy([h] + s, le)
  {
    var r := [h] + s;
    forall i, j | 0 <= i < j < |r|
      ensures le(r[i], r[j])
    {
      assert r[j] == s[j - 1];
      if i > 0 {
        assert r[i] == s[i - 1];
      }
    }
  }

  /** Insert `x` after every element that is not above it (this keeps equal elements in arrival order). */
  function InsertBy<T(!new)>(x: T, s: seq<T>, le: (T, T) -> bool): (r: seq<T>)
    requires TotalPreorder(le) && SortedBy(s, le)
    ensures SortedBy(r, le)
    ensures multiset(r) == multiset(s) + multiset{x}
  {
    if s == [] then [x]
    else if le(s[0], x) then
      var tail := s[1..];
      assert SortedBy(tail, le) by {
        forall i, j | 0 <= i < j < |tail| ensures le(tail[i], tail[j]) {
          assert tail[i] == s[i + 1] && tail[j] == s[j + 1];
        }
      }
      var rest := InsertBy(x, tail, le);
      assert s == [s[0]] + tail;
      assert forall k :: 0 <= k < |rest| ==> le(s[0], rest[k]) by {
        forall k | 0 <= k < |rest| ensures le(s[0], rest[k]) {
          assert rest[k] in multiset(rest);
          if rest[k] != x {
            assert rest[k] in tail;
            var j :| 0 <= j < |tail| && tail[j] == rest[k];
            assert s[j + 1] == rest[k];
          }
        }
      }
      SortedCons(s[0], rest, le);
      [s[0]] + rest
    else
      assert forall k :: 0 <= k < |s| ==> le(x, s[k]) by {
        forall k | 0 <= k < |s| ensures le(x, s[k]) {
          assert le(x, s[0]);
          if k > 0 {
            assert le(s[0], s[k]);
          }
        }
      }
      SortedCons(x, s, le);
      [x] + s
  }

  /** `Array.prototype.sort` with a consistent comparator: a sorted
      permutation, stable as the language requires (see `SortByStable`). */
  function SortBy<T(!new)>(s: seq<T>, le: (T, T) -> bool): (r: seq<T>)
    requires TotalPreorder(le)
    ensures SortedBy(r, le)
    ensures multiset(r) == multiset(s)
    ensures |r| == |s|
  {
    if s == [] then []
    else
      var init, last := s[..|s| - 1], s[|s| - 1];
      var r := InsertBy(last, SortBy(init, le), le);
      assert s == init + [last];
      assert multiset(r) == multiset(s);
      assert |r| == |multiset(r)| == |multiset(s)| == |s|;
      r
  }

  /** The elements tied with `c` under `le`: neither is above the other. */
  function TiedWith<T(!new)>(c: T, le: (T, T) -> bool): T -> bool
  {
    y => le(c, y) && le(y, c)
  }

  /** Inserting `x` puts it after every element of its tie class already
      there, and leaves the order of that class as it was. */
  lemma {:induction false} InsertByStable<T(!new)>(x: T, s: seq<T>, le: (T, T) -> bool, c: T)
    requires TotalPreorder(le) && SortedBy(s, le)
    ensures Filter(InsertBy(x, s, le), TiedWith(c, le)) ==
      Filter(s, TiedWith(c, le)) + if TiedWith(c, le)(x) then [x] else []
    decreases |s|, 1
  {
    if s == [] {
      assert InsertBy(x, s, le) == [x];
      assert [x][1..] == [];
    } else if le(s[0], x) {
      InsertByStablePast(x, s, le, c);
    } else {
      InsertByStableBefore(x, s, le, c);
    }
  }

  /** Inserting past the first element: the first element stays in front. */
  lemma {:induction false} InsertByStablePast<T(!new)>(x: T, s: seq<T>, le: (T, T) -> bool, c: T)
    requires TotalPreorder(le) && SortedBy(s, le)
    requires s != [] && le(s[0], x)
    ensures Filter(InsertBy(x, s, le), TiedWith(c, le)) ==
      Filter(s, TiedWith(c, le)) + if TiedWith(c, le)(x) then [x] else []
    decreases |s|, 0
  {
    var tail := s[1..];
    assert SortedBy(tail, le) by {
      forall i, j | 0 <= i < j < |tail| ensures le(tail[i], tail[j]) {
        assert tail[i] == s[i + 1] && tail[j] == s[j + 1];
      }
    }
    var rest := InsertBy(x, tail, le);
    assert InsertBy(x, s, le) == [s[0]] + rest;
    assert ([s[0]] + rest)[1..] == rest;
    InsertByStable(x, tail, le, c);
  }

  /** Inserting in front: nothing already there is tied with `x`. */
  lemma InsertByStableBefore<T(!new)>(x: T, s: seq<T>, le: (T, T) -> bool, c: T)
    requires TotalPreorder(le) && SortedBy(s, le)
    requires s != [] && !le(s[0], x)
    ensures Filter(InsertBy(x, s, le), TiedWith(c, le)) ==
      Filter(s, TiedWith(c, le)) + if TiedWith(c, le)(x) then [x] else []
  {
    var tied := TiedWith(c, le);
    assert InsertBy(x, s, le) == [x] + s;
    assert ([x] + s)[1..] == s;
    if tied(x) {
      forall y | y in s ensures !tied(y) {
        var k :| 0 <= k < |s| && s[k] == y;
        if k > 0 {
          assert le(s[0], s[k]);
        }
      }
      FilterNone(s, tied);
    }
  }

  /** The sort is stable: the elements of each tie class come out in the
      order they went in. */
  lemma {:induction false} SortByStable<T(!new)>(s: seq<T>, le: (T, T) -> bool, c: T)
    requires TotalPreorder(le)
    ensures Filter(SortBy(s, le), TiedWith(c, le)) == Filter(s, TiedWith(c, le))
  {
    if s != [] {
      var init, last := s[..|s| - 1], s[|s| - 1];
      assert SortBy(s, le) == InsertBy(last, SortBy(init, le), le);
      InsertByStable(last, SortBy(init, le), le, c);
      SortByStable(init, le, c);
      FilterLast(s, TiedWith(c, le));
    }
  }

  /** In a sorted sequence, whatever its first `n` hold comes before what they leave out. */
  lemma TakeComesFirst<T(!new)>(sorted: seq<T>, le: (T, T) -> bool, n: nat, x: T, y: T)
    requires SortedBy(sorted, le)
    requires x in Take(sorted, n) && y in sorted && y !in Take(sorted, n)
    ensures le(x, y)
  {
    var top := Take(sorted, n);
    var j :| 0 <= j < |sorted| && sorted[j] == y;
    var i :| 0 <= i < |top| && top[i] == x;
    if j < |top| {
      assert false;
    }
    assert sorted[i] == x;
  }

  /** The first `n` of a sort (`sort(cmp).slice(0, n)`): sorted, drawn from
      `s`, all of `s` when it is short enough, and each of them comes before
      (is `le`) any element of `s` left out. */
  lemma SortedTakeFacts<T(!new)>(s: seq<T>, le: (T, T) -> bool, n: nat)
    requires TotalPreorder(le)
    ensures SortedBy(Take(SortBy(s, le), n), le)
    ensures forall x :: x in Take(SortBy(s, le), n) ==> x in s
    ensures |s| <= n ==> multiset(Take(SortBy(s, le), n)) == multiset(s)
    ensures forall x, y :: x in Take(SortBy(s, le), n) && y in s && y !in Take(SortBy(s, le), n) ==> le(x, y)
  {
    var sorted := SortBy(s, le);
    SortedTakeFromSorted(sorted, s, le, n);
  }

  lemma SortedTakeFromSorted<T(!new)>(sorted: seq<T>, s: seq<T>, le: (T, T) -> bool, n: nat)
    requires SortedBy(sorted, le) && multiset(sorted) == multiset(s)
    ensures SortedBy(Take(sorted, n), le)
    ensures forall x :: x in Take(sorted, n) ==> x in s
    ensures |s| <= n ==> multiset(Take(sorted, n)) == multiset(s)
    ensures forall x, y :: x in Take(sorted, n) && y in s && y !in Take(sorted, n) ==> le(x, y)
  {
    var top := Take(sorted, n);
    forall x | x in top ensures x in s {
      assert x in multiset(sorted);
    }
    if |s| <= n {
      assert |multiset(sorted)| == |sorted| && |multiset(s)| == |s|;
      assert top == sorted;
    }
    forall x, y | x in top && y in s && y !in top
      ensures le(x, y)
    {
      assert y in multiset(sorted);
      TakeComesFirst(sorted, le, n, x, y);
    }
  }

  lemma {:induction false} NoDuplicatesCount<T(!new)>(s: seq<T>, x: T)
    requires NoDuplicates(s)
    ensures multiset(s)[x] <= 1
  {
    if s != [] {
      assert s == [s[0]] + s[1..];
      NoDuplicatesCount(s[1..], x);
      if x == s[0] {
        assert x !in s[1..];
      }
    }
  }

  /** A permutation of a duplicate-free sequence is duplicate-free. */
  lemma PermutationNoDuplicates<T(!new)>(a: seq<T>, b: seq<T>)
    requires multiset(a) == multiset(b) && NoDuplicates(b)
    ensures NoDuplicates(a)
  {
    forall i, j | 0 <= i < j < |a|
      ensures a[i] != a[j]
    {
      if a[i] == a[j] {
        var x := a[i];
        assert a == a[..j] + a[j..];
        assert x in a[..j];
        assert x in a[j..];
        assert multiset(a)[x] == multiset(a[..j])[x] + multiset(a[j..])[x];
        NoDuplicatesCount(b, x);
        assert false;
      }
    }
  }

  /** Filtering keeps each selected element as often as it occurs. */
  lemma {:induction false} FilterCount<T(!new)>(s: seq<T>, p: T -> bool, x: T)
    ensures multiset(Filter(s, p))[x] == if p(x) then multiset(s)[x] else 0
  {
    if s != [] {
      FilterCount(s[1..], p, x);
      assert s == [s[0]] + s[1..];
    }
  }

  /** Filtering sequences with the same elements gives sequences with the same elements. */
  lemma FilterPermutation<T(!new)>(a: seq<T>, b: seq<T>, p: T -> bool)
    requires multiset(a) == multiset(b)
    ensures multiset(Filter(a, p)) == multiset(Filter(b, p))
  {
    forall x
      ensures multiset(Filter(a, p))[x] == multiset(Filter(b, p))[x]
    {
      FilterCount(a, p, x);
      FilterCount(b, p, x);
    }
  }

  /** Filtering a sorted sequence leaves it sorted. */
  lemma {:induction false} FilterSorted<T(!new)>(s: seq<T>, p: T -> bool, le: (T, T) -> bool)
    requires SortedBy(s, le)
    ensures SortedBy(Filter(s, p), le)
  {
    if s != [] {
      FilterSorted(s[1..], p, le);
      var rest := Filter(s[1..], p);
      if p(s[0]) {
        var r := Filter(s, p);
        assert r == [s[0]] + rest;
        forall i, j | 0 <= i < j < |r|
          ensures le(r[i], r[j])
        {
          if i == 0 {
            assert r[j] in rest;
            var k :| 0 <= k < |s[1..]| && s[1..][k] == r[j];
            assert s[k + 1] == r[j];
          } else {
            assert r[i] == rest[i - 1] && r[j] == rest[j - 1];
          }
        }
      }
    }
  }
}
