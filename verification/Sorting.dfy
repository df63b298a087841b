/**
  The two Go library sorts, specified for an arbitrary total preorder `le` (Go's `less(i, j)` is
  `!le(j, i)`), with the laws the callers rely on: that a stable sort is unique and commutes
  with filtering and concatenation, and what an unstable one still determines.
*/
module Sorting {

  ghost predicate Preorder<T(!new)>(le: (T, T) -> bool) {
    && (forall x, y :: le(x, y) || le(y, x))
    && (forall x, y, z :: le(x, y) && le(y, z) ==> le(x, z))
  }

  ghost predicate SortedBy<T>(le: (T, T) -> bool, s: seq<T>) {
    forall i, j :: 0 <= i < j < |s| ==> le(s[i], s[j])
  }

  function Filter<T>(p: T -> bool, s: seq<T>): (r: seq<T>)
    ensures |r| <= |s|
  {
    if s == [] then []
    else
      var n := |s| - 1;
      Filter(p, s[..n]) + (if p(s[n]) then [s[n]] else [])
  }

  lemma {:induction false} FilterElements<T>(p: T -> bool, s: seq<T>)
    ensures forall x :: x in Filter(p, s) ==> x in s && p(x)
    ensures forall x :: x in s && p(x) ==> x in Filter(p, s)
  {
    if s != [] {
      var n := |s| - 1;
      FilterElements(p, s[..n]);
      assert s == s[..n] + [s[n]];
    }
  }

  lemma {:induction false} FilterConcat<T>(p: T -> bool, a: seq<T>, b: seq<T>)
    ensures Filter(p, a + b) == Filter(p, a) + Filter(p, b)
  {
    if b == [] {
      assert a + b == a;
    } else {
      var n := |b| - 1;
      assert (a + b)[..|a + b| - 1] == a + b[..n];
      FilterConcat(p, a, b[..n]);
    }
  }

  lemma {:induction false} FilterAll<T>(p: T -> bool, s: seq<T>)
    requires forall x :: x in s ==> p(x)
    ensures Filter(p, s) == s
  {
    if s != [] {
      FilterAll(p, s[..|s| - 1]);
      assert s == s[..|s| - 1] + [s[|s| - 1]];
    }
  }

  lemma {:induction false} FilterFilter<T>(p: T -> bool, q: T -> bool, r: T -> bool, s: seq<T>)
    requires forall x :: x in s ==> (r(x) <==> p(x) && q(x))
    ensures Filter(p, Filter(q, s)) == Filter(r, s)
  {
    if s != [] {
      var n := |s| - 1;
      FilterFilter(p, q, r, s[..n]);
      FilterConcat(p, Filter(q, s[..n]), if q(s[n]) then [s[n]] else []);
    }
  }

  lemma {:induction false} FilterSplits<T>(p: T -> bool, q: T -> bool, s: seq<T>)
    requires forall x :: x in s ==> (q(x) <==> !p(x))
    ensures multiset(Filter(p, s)) + multiset(Filter(q, s)) == multiset(s)
  {
    if s != [] {
      var n := |s| - 1;
      FilterSplits(p, q, s[..n]);
      assert s == s[..n] + [s[n]];
      assert p(s[n]) ==> multiset(Filter(p, s)) == multiset(Filter(p, s[..n])) + multiset{s[n]};
      assert q(s[n]) ==> multiset(Filter(q, s)) == multiset(Filter(q, s[..n])) + multiset{s[n]};
    }
  }

  // ---------------------------------------------------------------- The stable order

  /** x goes behind everything that is not above it. */
  function Insert<T>(le: (T, T) -> bool, s: seq<T>, x: T): (r: seq<T>)
    ensures |r| == |s| + 1
  {
    if s == [] then [x]
    else
      var n := |s| - 1;
      if le(s[n], x) then s + [x] else Insert(le, s[..n], x) + [s[n]]
  }

  function Sorted<T>(le: (T, T) -> bool, s: seq<T>): (r: seq<T>)
    ensures |r| == |s|
  {
    if s == [] then []
    else
      var n := |s| - 1;
      Insert(le, Sorted(le, s[..n]), s[n])
  }

  lemma {:induction false} InsertElements<T>(le: (T, T) -> bool, s: seq<T>, x: T)
    ensures multiset(Insert(le, s, x)) == multiset(s) + multiset{x}
    ensures forall y :: y in Insert(le, s, x) <==> y == x || y in s
  {
    if s != [] {
      var n := |s| - 1;
      assert s == s[..n] + [s[n]];
      InsertElements(le, s[..n], x);
    }
  }

  lemma {:induction false} SortedElements<T>(le: (T, T) -> bool, s: seq<T>)
    ensures multiset(Sorted(le, s)) == multiset(s)
    ensures forall y :: y in Sorted(le, s) <==> y in s
  {
    if s != [] {
      var n := |s| - 1;
      assert s == s[..n] + [s[n]];
      SortedElements(le, s[..n]);
      InsertElements(le, Sorted(le, s[..n]), s[n]);
    }
  }

  lemma {:induction false} InsertIsSorted<T(!new)>(le: (T, T) -> bool, s: seq<T>, x: T)
    requires Preorder(le) && SortedBy(le, s)
    ensures SortedBy(le, Insert(le, s, x))
  {
    if s != [] {
      var n := |s| - 1;
      if !le(s[n], x) {
        InsertIsSorted(le, s[..n], x);
        var t := Insert(le, s[..n], x);
        InsertElements(le, s[..n], x);
        forall i | 0 <= i < n + 1 ensures le(t[i], s[n]) { assert t[i] in t; }
      }
    }
  }

  lemma {:induction false} SortedIsSorted<T(!new)>(le: (T, T) -> bool, s: seq<T>)
    requires Preorder(le)
    ensures SortedBy(le, Sorted(le, s))
  {
    if s != [] {
      var n := |s| - 1;
      SortedIsSorted(le, s[..n]);
      InsertIsSorted(le, Sorted(le, s[..n]), s[n]);
    }
  }

  /** What is below x forms a prefix of s. */
  ghost predicate Ripe<T>(le: (T, T) -> bool, s: seq<T>, x: T) {
    forall i, j :: 0 <= i < j < |s| && le(s[j], x) ==> le(s[i], x)
  }

  lemma SortedIsRipe<T(!new)>(le: (T, T) -> bool, s: seq<T>, x: T)
    requires Preorder(le)
    ensures Ripe(le, Sorted(le, s), x)
  {
    SortedIsSorted(le, s);
    var r := Sorted(le, s);
    forall i, j | 0 <= i < j < |r| && le(r[j], x) ensures le(r[i], x) {
      assert le(r[i], r[j]);
    }
  }

  lemma AllBelow<T>(le: (T, T) -> bool, s: seq<T>, x: T)
    requires Ripe(le, s, x) && s != [] && le(s[|s| - 1], x)
    ensures forall y :: y in s ==> le(y, x)
  {
    forall y | y in s ensures le(y, x) {
      var i :| 0 <= i < |s| && s[i] == y;
    }
  }

  lemma FilterInsertEnd<T>(le: (T, T) -> bool, p: T -> bool, s: seq<T>, x: T)
    requires Ripe(le, s, x) && s != [] && le(s[|s| - 1], x)
    ensures Insert(le, Filter(p, s), x) == Filter(p, s) + [x]
  {
    AllBelow(le, s, x);
    FilterElements(p, s);
    var kept := Filter(p, s);
    if kept != [] { assert kept[|kept| - 1] in kept; }
  }

  lemma {:induction false} FilterInsert<T>(le: (T, T) -> bool, p: T -> bool, s: seq<T>, x: T)
    requires Ripe(le, s, x)
    ensures Filter(p, Insert(le, s, x)) == if p(x) then Insert(le, Filter(p, s), x) else Filter(p, s)
  {
    if s == [] {
    } else if le(s[|s| - 1], x) {
      FilterInsertEnd(le, p, s, x);
      FilterConcat(p, s, [x]);
    } else {
      var front, last := s[..|s| - 1], s[|s| - 1];
      FilterInsert(le, p, front, x);
      FilterConcat(p, Insert(le, front, x), [last]);
      assert Insert(le, s, x) == Insert(le, front, x) + [last];
      var kept := Filter(p, Insert(le, front, x));
      if p(last) {
        assert Filter(p, [last]) == [last];
        assert Filter(p, s) == Filter(p, front) + [last];
      } else {
        assert Filter(p, [last]) == [] && kept + [] == kept;
        assert Filter(p, s) == Filter(p, front) + [] == Filter(p, front);
      }
    }
  }

  /** Stable sorting commutes with keeping any subset of the items. */
  lemma {:induction false} SortCommutesWithFilter<T(!new)>(le: (T, T) -> bool, p: T -> bool, s: seq<T>)
    requires Preorder(le)
    ensures Filter(p, Sorted(le, s)) == Sorted(le, Filter(p, s))
  {
    if s != [] {
      var front, x := s[..|s| - 1], s[|s| - 1];
      SortCommutesWithFilter(le, p, front);
      SortedIsRipe(le, front, x);
      FilterInsert(le, p, Sorted(le, front), x);
      assert Sorted(le, s) == Insert(le, Sorted(le, front), x);
      assert Filter(p, s) == Filter(p, front) + (if p(x) then [x] else []);
      assert !p(x) ==> Filter(p, s) == Filter(p, front);
    }
  }

  lemma {:induction false} InsertBehind<T>(le: (T, T) -> bool, a: seq<T>, b: seq<T>, x: T)
    requires forall y :: y in a ==> le(y, x)
    ensures Insert(le, a + b, x) == a + Insert(le, b, x)
  {
    if b == [] {
      assert a + b == a;
      if a != [] { assert a[|a| - 1] in a; }
    } else {
      assert (a + b)[..|a + b| - 1] == a + b[..|b| - 1];
      InsertBehind(le, a, b[..|b| - 1], x);
    }
  }

  /** Items that all belong in front are sorted on their own. */
  lemma {:induction false} SortedConcat<T(!new)>(le: (T, T) -> bool, a: seq<T>, b: seq<T>)
    requires forall x, y :: x in a && y in b ==> le(x, y)
    ensures Sorted(le, a + b) == Sorted(le, a) + Sorted(le, b)
  {
    if b == [] {
      assert a + b == a;
    } else {
      var n := |b| - 1;
      assert (a + b)[..|a + b| - 1] == a + b[..n];
      SortedConcat(le, a, b[..n]);
      SortedElements(le, a);
      assert b[n] in b;
      InsertBehind(le, Sorted(le, a), Sorted(le, b[..n]), b[n]);
    }
  }

  /** The head of the result is the earliest item with nothing strictly before it. */
  ghost predicate FirstLeast<T>(le: (T, T) -> bool, s: seq<T>, k: int) {
    && 0 <= k < |s|
    && (forall i :: 0 <= i < |s| ==> le(s[k], s[i]))
    && (forall i :: 0 <= i < k ==> !le(s[i], s[k]))
  }

  lemma {:induction false} HeadIsFirstLeast<T(!new)>(le: (T, T) -> bool, s: seq<T>) returns (k: int)
    requires Preorder(le) && s != []
    ensures FirstLeast(le, s, k) && Sorted(le, s)[0] == s[k]
  {
    var front, x := s[..|s| - 1], s[|s| - 1];
    if front == [] {
      k := 0;
    } else {
      k := HeadIsFirstLeast(le, front);
      SortedIsSorted(le, front);
      InsertHead(le, Sorted(le, front), x);
      assert s == front + [x];
      if !le(s[k], x) { k := |s| - 1; }
    }
  }

  lemma {:induction false} InsertHead<T(!new)>(le: (T, T) -> bool, s: seq<T>, x: T)
    requires Preorder(le) && SortedBy(le, s) && s != []
    ensures Insert(le, s, x)[0] == if le(s[0], x) then s[0] else x
  {
    var n := |s| - 1;
    if n > 0 && !le(s[n], x) { InsertHead(le, s[..n], x); }
  }

  // ---------------------------------------------------------------- What "stable" pins down

  /** The items of x's rank. */
  ghost function RankOf<T(!new)>(le: (T, T) -> bool, x: T): T -> bool { y => le(x, y) && le(y, x) }

  /** The documented contract of a stable sort: ordered, and equals keep their order. */
  ghost predicate StableSortOf<T(!new)>(le: (T, T) -> bool, s: seq<T>, r: seq<T>) {
    SortedBy(le, r) && SameRanks(le, r, s)
  }

  ghost predicate SameRanks<T(!new)>(le: (T, T) -> bool, r: seq<T>, s: seq<T>) {
    forall x :: Filter(RankOf(le, x), r) == Filter(RankOf(le, x), s)
  }

  lemma {:induction false} InsertLast<T(!new)>(le: (T, T) -> bool, s: seq<T>, x: T)
    requires Preorder(le) && forall y :: y in s ==> le(y, x)
    ensures Insert(le, s, x) == s + [x]
  {}

  lemma {:induction false} SortedOfEquals<T(!new)>(le: (T, T) -> bool, s: seq<T>)
    requires Preorder(le) && forall x, y :: x in s && y in s ==> le(x, y)
    ensures Sorted(le, s) == s
  {
    if s != [] {
      var n := |s| - 1;
      SortedOfEquals(le, s[..n]);
      InsertLast(le, s[..n], s[n]);
      assert s == s[..n] + [s[n]];
    }
  }

  lemma SortedIsStable<T(!new)>(le: (T, T) -> bool, s: seq<T>)
    requires Preorder(le)
    ensures StableSortOf(le, s, Sorted(le, s))
  {
    SortedIsSorted(le, s);
    forall x ensures Filter(RankOf(le, x), Sorted(le, s)) == Filter(RankOf(le, x), s) {
      SortCommutesWithFilter(le, RankOf(le, x), s);
      FilterElements(RankOf(le, x), s);
      SortedOfEquals(le, Filter(RankOf(le, x), s));
    }
  }

  lemma SameRanksMember<T(!new)>(le: (T, T) -> bool, r: seq<T>, t: seq<T>, x: T)
    requires Preorder(le) && SameRanks(le, r, t) && x in r
    ensures x in t
  {
    FilterElements(RankOf(le, x), r);
    FilterElements(RankOf(le, x), t);
    assert x in Filter(RankOf(le, x), r);
  }

  lemma SameRanksLast<T(!new)>(le: (T, T) -> bool, r: seq<T>, t: seq<T>)
    requires Preorder(le) && SortedBy(le, r) && SortedBy(le, t) && SameRanks(le, r, t)
    requires r != [] && t != []
    ensures r[|r| - 1] == t[|t| - 1]
  {
    var x, z := r[|r| - 1], t[|t| - 1];
    SameRanksMember(le, r, t, x);
    SameRanksMember(le, t, r, z);
    assert le(x, z) && le(z, x);
    var c := RankOf(le, x);
    assert Filter(c, r) == Filter(c, r[..|r| - 1]) + [x];
    assert Filter(c, t) == Filter(c, t[..|t| - 1]) + [z];
    assert Filter(c, r)[|Filter(c, r)| - 1] == x;
  }

  lemma SameRanksFront<T(!new)>(le: (T, T) -> bool, r: seq<T>, t: seq<T>, x: T)
    requires SameRanks(le, r + [x], t + [x])
    ensures SameRanks(le, r, t)
  {
    forall w ensures Filter(RankOf(le, w), r) == Filter(RankOf(le, w), t) {
      var c := RankOf(le, w);
      FilterConcat(c, r, [x]);
      FilterConcat(c, t, [x]);
      var tail := Filter(c, [x]);
      assert Filter(c, r) == Filter(c, r + [x])[..|Filter(c, r + [x])| - |tail|];
      assert Filter(c, t) == Filter(c, t + [x])[..|Filter(c, t + [x])| - |tail|];
    }
  }

  lemma {:induction false} SameRanksSameOrder<T(!new)>(le: (T, T) -> bool, r: seq<T>, t: seq<T>)
    requires Preorder(le) && SortedBy(le, r) && SortedBy(le, t) && SameRanks(le, r, t)
    ensures r == t
  {
    if r != [] && t != [] {
      SameRanksLast(le, r, t);
      var m, n := |r| - 1, |t| - 1;
      assert r == r[..m] + [r[m]] && t == t[..n] + [r[m]];
      SameRanksFront(le, r[..m], t[..n], r[m]);
      SameRanksSameOrder(le, r[..m], t[..n]);
    } else if r != [] {
      SameRanksMember(le, r, t, r[0]);
    } else if t != [] {
      SameRanksMember(le, t, r, t[0]);
    }
  }

  /** Hence every stable sort, whatever its algorithm, returns this very sequence. */
  lemma StableSortIsUnique<T(!new)>(le: (T, T) -> bool, s: seq<T>, r: seq<T>)
    requires Preorder(le) && StableSortOf(le, s, r)
    ensures r == Sorted(le, s)
  {
    SortedIsStable(le, s);
    forall x ensures Filter(RankOf(le, x), r) == Filter(RankOf(le, x), Sorted(le, s)) {
      assert Filter(RankOf(le, x), r) == Filter(RankOf(le, x), s);
    }
    SameRanksSameOrder(le, r, Sorted(le, s));
  }

  // ---------------------------------------------------------------- What any sort pins down

  lemma FilterRemove<T>(p: T -> bool, a: seq<T>, x: T, b: seq<T>)
    ensures |Filter(p, a + [x] + b)| == |Filter(p, a + b)| + (if p(x) then 1 else 0)
  {
    FilterConcat(p, a + [x], b);
    FilterConcat(p, a, b);
    assert (a + [x])[..|a|] == a;
  }

  lemma RemoveOne<T>(rest: seq<T>, a: seq<T>, x: T, b: seq<T>)
    requires multiset(rest + [x]) == multiset(a + [x] + b)
    ensures multiset(rest) == multiset(a + b)
  {
    assert multiset(rest + [x]) == multiset(rest) + multiset{x};
    assert multiset(a + [x] + b) == multiset(a + b) + multiset{x};
    assert multiset(rest) == multiset(rest) + multiset{x} - multiset{x};
    assert multiset(a + b) == multiset(a + b) + multiset{x} - multiset{x};
  }

  lemma {:induction false} FilterOfPermutation<T>(p: T -> bool, a: seq<T>, b: seq<T>)
    requires multiset(a) == multiset(b)
    ensures |Filter(p, a)| == |Filter(p, b)|
  {
    if a == [] {
      assert |multiset(b)| == 0;
    } else {
      var n := |a| - 1;
      var front, x := a[..n], a[n];
      assert a == front + [x];
      assert x in multiset(b);
      var k :| 0 <= k < |b| && b[k] == x;
      var b0, b1 := b[..k], b[k + 1..];
      assert b == b0 + [x] + b1;
      FilterRemove(p, b0, x, b1);
      RemoveOne(front, b0, x, b1);
      FilterOfPermutation(p, front, b0 + b1);
    }
  }

  lemma {:induction false} FilterNone<T>(p: T -> bool, s: seq<T>)
    requires forall x :: x in s ==> !p(x)
    ensures Filter(p, s) == []
  {
    if s != [] {
      FilterNone(p, s[..|s| - 1]);
      assert s[|s| - 1] in s;
    }
  }

  lemma FilterAtLeast<T>(p: T -> bool, s: seq<T>, n: nat)
    requires n <= |s| && forall k :: 0 <= k < n ==> p(s[k])
    ensures |Filter(p, s)| >= n
  {
    assert s == s[..n] + s[n..];
    FilterConcat(p, s[..n], s[n..]);
    FilterAll(p, s[..n]);
  }

  lemma FilterAtMost<T>(p: T -> bool, s: seq<T>, n: nat)
    requires n <= |s| && forall k :: n <= k < |s| ==> !p(s[k])
    ensures |Filter(p, s)| <= n
  {
    assert s == s[..n] + s[n..];
    FilterConcat(p, s[..n], s[n..]);
    FilterNone(p, s[n..]);
  }

  lemma RankNotAbove<T(!new)>(le: (T, T) -> bool, a: seq<T>, b: seq<T>, i: nat)
    requires Preorder(le) && SortedBy(le, a) && SortedBy(le, b) && multiset(a) == multiset(b) && i < |a| == |b|
    ensures le(a[i], b[i])
  {
    if !le(a[i], b[i]) {
      var p := x => le(x, b[i]);
      FilterOfPermutation(p, a, b);
      assert le(b[i], b[i]);
      FilterAtLeast(p, b, i + 1);
      forall k | i <= k < |a| ensures !p(a[k]) { assert i < k ==> le(a[i], a[k]); }
      FilterAtMost(p, a, i);
    }
  }

  /** Two ordered permutations of the same items agree in rank at every position. */
  lemma RanksAreDetermined<T(!new)>(le: (T, T) -> bool, a: seq<T>, b: seq<T>)
    requires Preorder(le) && SortedBy(le, a) && SortedBy(le, b) && multiset(a) == multiset(b)
    ensures |a| == |b| && forall i :: 0 <= i < |a| ==> le(a[i], b[i]) && le(b[i], a[i])
  {
    assert |multiset(a)| == |a| && |multiset(b)| == |b|;
    forall i | 0 <= i < |a| ensures le(a[i], b[i]) && le(b[i], a[i]) {
      RankNotAbove(le, a, b, i);
      RankNotAbove(le, b, a, i);
    }
  }

  // ---------------------------------------------------------------- The library calls

  /** sort.SliceStable on a slice of values. */
  method SliceStable<T(!new)>(le: (T, T) -> bool, s: seq<T>) returns (r: seq<T>)
    ensures r == Sorted(le, s)
  {
    r := [];
    for i := 0 to |s|
      invariant r == Sorted(le, s[..i])
    {
      assert s[..i + 1][..i] == s[..i];
      r := Insert(le, r, s[i]);
    }
    assert s[..|s|] == s;
  }

  /** sort.Slice: some ordered permutation; callers may not rely on where equals end up. */
  method SortSlice<T(!new)>(le: (T, T) -> bool, s: seq<T>) returns (r: seq<T>)
    requires Preorder(le)
    ensures SortedBy(le, r) && multiset(r) == multiset(s) && |r| == |s|
  {
    r := SliceStable(le, s);
    SortedIsSorted(le, s);
    SortedElements(le, s);
  }
}
