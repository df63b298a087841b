/**
  The upper median the sampler aggregates with: index n/2 of the sorted samples. It is
  characterised without sorting, by how many samples lie on either side of it.
*/
module OrderStatistics {
  import opened Sorting

  ghost predicate TotalOrder<T(!new)>(le: (T, T) -> bool) {
    Preorder(le) && forall x, y :: le(x, y) && le(y, x) ==> x == y
  }

  predicate RealLe(x: real, y: real) { x <= y }
  predicate IntLe(x: int, y: int) { x <= y }

  function Count<T>(p: T -> bool, s: seq<T>): nat { |Filter(p, s)| }

  lemma {:induction false} CountAll<T>(p: T -> bool, s: seq<T>)
    ensures (forall i :: 0 <= i < |s| ==> p(s[i])) <==> Count(p, s) == |s|
    ensures (forall i :: 0 <= i < |s| ==> !p(s[i])) <==> Count(p, s) == 0
  {
    if s != [] {
      var n := |s| - 1;
      CountAll(p, s[..n]);
      assert forall i :: 0 <= i < n ==> s[..n][i] == s[i];
    }
  }

  /** Whenever p holds of a sample of s, q holds of the sample of t at the same place. */
  lemma {:induction false} CountPairwise<T>(p: T -> bool, q: T -> bool, s: seq<T>, t: seq<T>)
    requires |s| == |t| && forall i :: 0 <= i < |s| && p(s[i]) ==> q(t[i])
    ensures Count(p, s) <= Count(q, t)
  {
    if s != [] { CountPairwise(p, q, s[..|s| - 1], t[..|s| - 1]); }
  }

  lemma {:induction false} CountDisjoint<T>(p: T -> bool, q: T -> bool, s: seq<T>)
    requires forall x :: x in s ==> !(p(x) && q(x))
    ensures Count(p, s) + Count(q, s) <= |s|
  {
    if s != [] {
      CountDisjoint(p, q, s[..|s| - 1]);
    }
  }

  ghost function AtMost<T(!new)>(le: (T, T) -> bool, hi: T): T -> bool { x => le(x, hi) }
  ghost function Below<T(!new)>(le: (T, T) -> bool, lo: T): T -> bool { x => !le(lo, x) }
  ghost function Within<T(!new)>(le: (T, T) -> bool, lo: T, hi: T): T -> bool { x => le(lo, x) && le(x, hi) }

  /** A sample with at most n/2 samples strictly below it and more than n/2 not above it. */
  ghost predicate IsMedian<T(!new)>(le: (T, T) -> bool, vals: seq<T>, m: T) {
    m in vals && Count(Below(le, m), vals) <= |vals| / 2 < Count(AtMost(le, m), vals)
  }

  /** What the code computes: sort, take index n/2; the zero value for no samples. */
  function Median<T(!new)>(le: (T, T) -> bool, zero: T, vals: seq<T>): T {
    if vals == [] then zero else Sorted(le, vals)[|vals| / 2]
  }

  lemma FewBelowMiddle<T(!new)>(le: (T, T) -> bool, r: seq<T>, h: nat)
    requires h < |r| && SortedBy(le, r) && le(r[h], r[h])
    ensures Count(Below(le, r[h]), r) <= h
  {
    var low, high := r[..h], r[h..];
    assert r == low + high;
    FilterConcat(Below(le, r[h]), low, high);
    forall i | 0 <= i < |high| ensures le(r[h], high[i]) { if i > 0 { assert le(r[h], r[h + i]); } }
    CountAll(Below(le, r[h]), high);
  }

  lemma ManyUpToMiddle<T(!new)>(le: (T, T) -> bool, r: seq<T>, h: nat)
    requires h < |r| && SortedBy(le, r) && le(r[h], r[h])
    ensures Count(AtMost(le, r[h]), r) > h
  {
    var low, high := r[..h + 1], r[h + 1..];
    assert r == low + high;
    FilterConcat(AtMost(le, r[h]), low, high);
    forall i | 0 <= i < |low| ensures le(low[i], r[h]) { if i < h { assert le(r[i], r[h]); } }
    CountAll(AtMost(le, r[h]), low);
  }

  lemma MiddleIsMedian<T(!new)>(le: (T, T) -> bool, vals: seq<T>, r: seq<T>)
    requires TotalOrder(le) && vals != []
    requires SortedBy(le, r) && multiset(r) == multiset(vals) && |r| == |vals|
    ensures IsMedian(le, vals, r[|vals| / 2])
  {
    var h := |vals| / 2;
    assert r[h] in multiset(r);
    FewBelowMiddle(le, r, h);
    ManyUpToMiddle(le, r, h);
    FilterOfPermutation(Below(le, r[h]), r, vals);
    FilterOfPermutation(AtMost(le, r[h]), r, vals);
  }

  lemma MedianIsMedian<T(!new)>(le: (T, T) -> bool, zero: T, vals: seq<T>)
    requires TotalOrder(le) && vals != []
    ensures IsMedian(le, vals, Median(le, zero, vals))
  {
    SortedIsSorted(le, vals);
    SortedElements(le, vals);
    MiddleIsMedian(le, vals, Sorted(le, vals));
  }

  /** The median is at most hi exactly when more than half of the samples are. */
  lemma MedianAtMost<T(!new)>(le: (T, T) -> bool, vals: seq<T>, m: T, hi: T)
    requires TotalOrder(le) && IsMedian(le, vals, m)
    ensures le(m, hi) <==> Count(AtMost(le, hi), vals) > |vals| / 2
  {
    if le(m, hi) {
      CountPairwise(AtMost(le, m), AtMost(le, hi), vals, vals);
    } else {
      CountPairwise(AtMost(le, hi), Below(le, m), vals, vals);
    }
  }

  /** The median is at least lo exactly when at most half of the samples are below lo. */
  lemma MedianAtLeast<T(!new)>(le: (T, T) -> bool, vals: seq<T>, m: T, lo: T)
    requires TotalOrder(le) && IsMedian(le, vals, m)
    ensures le(lo, m) <==> Count(Below(le, lo), vals) <= |vals| / 2
  {
    if le(lo, m) {
      CountPairwise(Below(le, lo), Below(le, m), vals, vals);
    } else {
      CountPairwise(AtMost(le, m), Below(le, lo), vals, vals);
    }
  }

  lemma MedianIsUnique<T(!new)>(le: (T, T) -> bool, vals: seq<T>, m1: T, m2: T)
    requires TotalOrder(le) && IsMedian(le, vals, m1) && IsMedian(le, vals, m2)
    ensures m1 == m2
  {
    MedianAtMost(le, vals, m1, m2);
    MedianAtMost(le, vals, m2, m1);
  }

  /** The order of the samples does not matter. */
  lemma MedianPermutation<T(!new)>(le: (T, T) -> bool, zero: T, a: seq<T>, b: seq<T>)
    requires TotalOrder(le) && multiset(a) == multiset(b)
    ensures Median(le, zero, a) == Median(le, zero, b)
  {
    assert |a| == |multiset(a)| && |b| == |multiset(b)|;
    if a != [] {
      MedianIsMedian(le, zero, a);
      MedianIsMedian(le, zero, b);
      var m := Median(le, zero, a);
      assert m in multiset(a);
      FilterOfPermutation(Below(le, m), a, b);
      FilterOfPermutation(AtMost(le, m), a, b);
      MedianIsUnique(le, b, m, Median(le, zero, b));
    }
  }

  /** Raising samples never lowers the median. */
  lemma MedianMonotone<T(!new)>(le: (T, T) -> bool, zero: T, a: seq<T>, b: seq<T>)
    requires TotalOrder(le) && |a| == |b| && forall i :: 0 <= i < |a| ==> le(a[i], b[i])
    ensures le(Median(le, zero, a), Median(le, zero, b))
  {
    if a != [] {
      MedianIsMedian(le, zero, a);
      MedianIsMedian(le, zero, b);
      var hi := Median(le, zero, b);
      CountPairwise(AtMost(le, hi), AtMost(le, hi), b, a);
      MedianAtMost(le, a, Median(le, zero, a), hi);
    }
  }

  /** Outliers are harmless while at least n/2 + 1 samples lie in [lo, hi]. */
  lemma MedianResistsOutliers<T(!new)>(le: (T, T) -> bool, zero: T, vals: seq<T>, lo: T, hi: T)
    requires TotalOrder(le) && vals != [] && Count(Within(le, lo, hi), vals) >= |vals| / 2 + 1
    ensures le(lo, Median(le, zero, vals)) && le(Median(le, zero, vals), hi)
  {
    MedianIsMedian(le, zero, vals);
    CountPairwise(Within(le, lo, hi), AtMost(le, hi), vals, vals);
    MedianAtMost(le, vals, Median(le, zero, vals), hi);
    CountDisjoint(Within(le, lo, hi), Below(le, lo), vals);
    MedianAtLeast(le, vals, Median(le, zero, vals), lo);
  }

  /** Any unstable sort gives the same index-n/2 element. */
  lemma AnySortedMiddle<T(!new)>(le: (T, T) -> bool, zero: T, vals: seq<T>, r: seq<T>)
    requires TotalOrder(le) && vals != []
    requires SortedBy(le, r) && multiset(r) == multiset(vals) && |r| == |vals|
    ensures r[|vals| / 2] == Median(le, zero, vals)
  {
    MiddleIsMedian(le, vals, r);
    MedianIsMedian(le, zero, vals);
    MedianIsUnique(le, vals, r[|vals| / 2], Median(le, zero, vals));
  }

  method MedianUint64(vals: seq<int>) returns (m: int)
    ensures m == Median(IntLe, 0, vals)
    ensures vals != [] ==> IsMedian(IntLe, vals, m)
    ensures vals == [] ==> m == 0
  {
    if vals == [] {
      return 0;
    }
    var sorted := SortSlice(IntLe, vals);
    m := sorted[|sorted| / 2];
    AnySortedMiddle(IntLe, 0, vals, sorted);
    MiddleIsMedian(IntLe, vals, sorted);
  }

  method MedianFloat64(vals: seq<real>) returns (m: real)
    ensures m == Median(RealLe, 0.0, vals)
    ensures vals != [] ==> IsMedian(RealLe, vals, m)
    ensures vals == [] ==> m == 0.0
  {
    if vals == [] {
      return 0.0;
    }
    var sorted := SortSlice(RealLe, vals);
    m := sorted[|sorted| / 2];
    AnySortedMiddle(RealLe, 0.0, vals, sorted);
    MiddleIsMedian(RealLe, vals, sorted);
  }
}
