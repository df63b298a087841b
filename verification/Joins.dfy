/**
  Joining two lists by key: the index map the code builds, the nested scan it replaces, and
  counting how many of several lists mention a key.
*/
module Joins {
  import opened Wrappers
  import opened Differential
  import opened Sorting

  function Map<S, T>(f: S -> T, s: seq<S>): (r: seq<T>)
    ensures |r| == |s| && forall i :: 0 <= i < |s| ==> r[i] == f(s[i])
  {
    seq(|s|, i requires 0 <= i < |s| => f(s[i]))
  }

  ghost predicate Unique<S, K>(key: S -> K, s: seq<S>) {
    forall i, j :: 0 <= i < j < |s| ==> key(s[i]) != key(s[j])
  }

  /** The item a map filled from front to back keeps: the last one with the key. */
  function FindLast<S, K(==)>(key: S -> K, s: seq<S>, k: K): Option<S> {
    if s == [] then None
    else if key(s[|s| - 1]) == k then Some(s[|s| - 1])
    else FindLast(key, s[..|s| - 1], k)
  }

  /** The item a scan with a break finds: the first one with the key. */
  function FindFirst<S, K(==)>(key: S -> K, s: seq<S>, k: K): Option<S> {
    if s == [] then None
    else if key(s[0]) == k then Some(s[0])
    else FindFirst(key, s[1..], k)
  }

  ghost predicate Mentions<S, K>(key: S -> K, s: seq<S>, k: K) {
    exists i :: 0 <= i < |s| && key(s[i]) == k
  }

  lemma {:induction false} FindLastFinds<S, K>(key: S -> K, s: seq<S>, k: K)
    ensures FindLast(key, s, k).Some? <==> Mentions(key, s, k)
    ensures FindLast(key, s, k).Some? ==> FindLast(key, s, k).value in s && key(FindLast(key, s, k).value) == k
  {
    if s != [] {
      FindLastFinds(key, s[..|s| - 1], k);
      assert Mentions(key, s[..|s| - 1], k) ==> Mentions(key, s, k);
    }
  }

  lemma {:induction false} FindFirstFinds<S, K>(key: S -> K, s: seq<S>, k: K)
    ensures FindFirst(key, s, k).Some? <==> Mentions(key, s, k)
    ensures FindFirst(key, s, k).Some? ==> FindFirst(key, s, k).value in s && key(FindFirst(key, s, k).value) == k
  {
    if s != [] && key(s[0]) != k {
      FindFirstFinds(key, s[1..], k);
      if Mentions(key, s, k) {
        var i :| 0 <= i < |s| && key(s[i]) == k;
        assert s[1..][i - 1] == s[i];
      }
      if Mentions(key, s[1..], k) {
        var i :| 0 <= i < |s[1..]| && key(s[1..][i]) == k;
        assert s[i + 1] == s[1..][i];
      }
    }
  }

  /** With unique keys it does not matter which end a search starts from. */
  /** The map keeps the last item with the key, the scan stops at the first. */
  lemma {:induction false} FindLastIsLast<S, K>(key: S -> K, s: seq<S>, i: nat)
    requires i < |s| && forall j :: i < j < |s| ==> key(s[j]) != key(s[i])
    ensures FindLast(key, s, key(s[i])) == Some(s[i])
  {
    if i < |s| - 1 { FindLastIsLast(key, s[..|s| - 1], i); }
  }

  lemma {:induction false} FindFirstIsFirst<S, K>(key: S -> K, s: seq<S>, i: nat)
    requires i < |s| && forall j :: 0 <= j < i ==> key(s[j]) != key(s[i])
    ensures FindFirst(key, s, key(s[i])) == Some(s[i])
  {
    if i > 0 { FindFirstIsFirst(key, s[1..], i - 1); }
  }

  lemma UniqueFind<S, K>(key: S -> K, s: seq<S>, x: S)
    requires Unique(key, s) && x in s
    ensures FindFirst(key, s, key(x)) == FindLast(key, s, key(x)) == Some(x)
  {
    FindFirstFinds(key, s, key(x));
    FindLastFinds(key, s, key(x));
    var i :| 0 <= i < |s| && s[i] == x;
    assert Mentions(key, s, key(x));
    var j :| 0 <= j < |s| && s[j] == FindFirst(key, s, key(x)).value;
    var l :| 0 <= l < |s| && s[l] == FindLast(key, s, key(x)).value;
  }

  /** aMap[key(s[i])] = &s[i], for every i in turn. */
  method IndexBy<S, K(==,!new)>(key: S -> K, s: seq<S>) returns (m: map<K, S>)
    ensures forall k :: k in m <==> FindLast(key, s, k).Some?
    ensures forall k :: k in m ==> FindLast(key, s, k) == Some(m[k])
  {
    m := map[];
    for i := 0 to |s|
      invariant forall k :: k in m <==> FindLast(key, s[..i], k).Some?
      invariant forall k :: k in m ==> FindLast(key, s[..i], k) == Some(m[k])
    {
      assert s[..i + 1][..i] == s[..i];
      m := m[key(s[i]) := s[i]];
    }
    assert s[..|s|] == s;
  }

  // ---------------------------------------------------------------- The inner join

  /** One record per b whose key the a side knows, in b's order. */
  function InnerJoin<A, B, C, K(==)>(keyA: A -> K, keyB: B -> K, make: (A, B) -> C, xs: seq<A>, ys: seq<B>): seq<C> {
    if ys == [] then []
    else
      var y := ys[|ys| - 1];
      var x := FindLast(keyA, xs, keyB(y));
      InnerJoin(keyA, keyB, make, xs, ys[..|ys| - 1]) + (if x.Some? then [make(x.value, y)] else [])
  }

  method HashJoin<A, B, C, K(==,!new)>(keyA: A -> K, keyB: B -> K, make: (A, B) -> C, xs: seq<A>, ys: seq<B>)
    returns (result: seq<C>)
    ensures result == InnerJoin(keyA, keyB, make, xs, ys)
  {
    var aMap := IndexBy(keyA, xs);
    result := [];
    for i := 0 to |ys|
      invariant result == InnerJoin(keyA, keyB, make, xs, ys[..i])
    {
      assert ys[..i + 1][..i] == ys[..i];
      var k := keyB(ys[i]);
      if k in aMap {
        result := result + [make(aMap[k], ys[i])];
      }
    }
    assert ys[..|ys|] == ys;
  }

  /** The join's keys are the right-hand keys that the left-hand side has too, in order. */
  lemma {:induction false} JoinKeys<A(!new), B(!new), C, K(!new)>(
    keyA: A -> K, keyB: B -> K, keyC: C -> K, make: (A, B) -> C, xs: seq<A>, ys: seq<B>, known: K -> bool)
    requires forall a, b :: keyC(make(a, b)) == keyB(b)
    requires forall k :: known(k) <==> Mentions(keyA, xs, k)
    ensures Map(keyC, InnerJoin(keyA, keyB, make, xs, ys)) == Filter(known, Map(keyB, ys))
  {
    if ys != [] {
      var n := |ys| - 1;
      JoinKeys(keyA, keyB, keyC, make, xs, ys[..n], known);
      FindLastFinds(keyA, xs, keyB(ys[n]));
      assert Map(keyB, ys)[..n] == Map(keyB, ys[..n]);
      var x := FindLast(keyA, xs, keyB(ys[n]));
      var front := InnerJoin(keyA, keyB, make, xs, ys[..n]);
      if x.Some? {
        assert InnerJoin(keyA, keyB, make, xs, ys) == front + [make(x.value, ys[n])];
        assert Map(keyC, front + [make(x.value, ys[n])]) == Map(keyC, front) + [keyB(ys[n])];
      } else {
        assert InnerJoin(keyA, keyB, make, xs, ys) == front;
      }
    }
  }

  /** Every record of the join is made of a left and a right item with its key, and every such pair is found. */
  lemma {:induction false} JoinRecords<A(!new), B(!new), C, K(!new)>(
    keyA: A -> K, keyB: B -> K, keyC: C -> K, make: (A, B) -> C, xs: seq<A>, ys: seq<B>)
    requires forall a, b :: keyC(make(a, b)) == keyB(b)
    ensures forall k :: (Mentions(keyC, InnerJoin(keyA, keyB, make, xs, ys), k)
      <==> (Mentions(keyA, xs, k) && Mentions(keyB, ys, k)))
    ensures Unique(keyB, ys) ==> Unique(keyC, InnerJoin(keyA, keyB, make, xs, ys))
  {
    if ys != [] {
      var n := |ys| - 1;
      var front := InnerJoin(keyA, keyB, make, xs, ys[..n]);
      var r := InnerJoin(keyA, keyB, make, xs, ys);
      JoinRecords(keyA, keyB, keyC, make, xs, ys[..n]);
      var kn := keyB(ys[n]);
      FindLastFinds(keyA, xs, kn);
      var x := FindLast(keyA, xs, kn);
      assert r == front + if x.Some? then [make(x.value, ys[n])] else [];
      forall k ensures Mentions(keyC, r, k) <==> Mentions(keyA, xs, k) && Mentions(keyB, ys, k) {
        MentionsAppend(keyB, ys[..n], ys[n], k);
        assert ys == ys[..n] + [ys[n]];
        if x.Some? { MentionsAppend(keyC, front, make(x.value, ys[n]), k); } else { assert r == front; }
      }
      if Unique(keyB, ys) {
        assert !Mentions(keyB, ys[..n], kn);
        assert !Mentions(keyC, front, kn);
        assert forall i :: 0 <= i < |front| ==> r[i] == front[i] && keyC(front[i]) != kn;
      }
    }
  }

  lemma MentionsAppend<S, K>(key: S -> K, s: seq<S>, x: S, k: K)
    ensures Mentions(key, s + [x], k) <==> Mentions(key, s, k) || key(x) == k
  {
    assert (s + [x])[|s|] == x;
    if Mentions(key, s, k) {
      var i :| 0 <= i < |s| && key(s[i]) == k;
      assert (s + [x])[i] == s[i];
    }
  }

  lemma JoinLookup<A(!new), B(!new), C, K(!new)>(
    keyA: A -> K, keyB: B -> K, keyC: C -> K, make: (A, B) -> C, xs: seq<A>, ys: seq<B>, a: A, b: B)
    requires forall a, b :: keyC(make(a, b)) == keyB(b)
    requires Unique(keyA, xs) && Unique(keyB, ys) && a in xs && b in ys && keyA(a) == keyB(b)
    ensures FindFirst(keyC, InnerJoin(keyA, keyB, make, xs, ys), keyB(b)) == Some(make(a, b))
  {
    UniqueFind(keyA, xs, a);
    JoinHas(keyA, keyB, make, xs, ys, b);
    JoinRecords(keyA, keyB, keyC, make, xs, ys);
    UniqueFind(keyC, InnerJoin(keyA, keyB, make, xs, ys), make(a, b));
  }

  lemma {:induction false} JoinMade<A, B, C, K>(
    keyA: A -> K, keyB: B -> K, make: (A, B) -> C, xs: seq<A>, ys: seq<B>, c: C) returns (a: A, b: B)
    requires c in InnerJoin(keyA, keyB, make, xs, ys)
    ensures a in xs && b in ys && keyA(a) == keyB(b) && c == make(a, b)
  {
    var n := |ys| - 1;
    FindLastFinds(keyA, xs, keyB(ys[n]));
    if c in InnerJoin(keyA, keyB, make, xs, ys[..n]) {
      a, b := JoinMade(keyA, keyB, make, xs, ys[..n], c);
    } else {
      a, b := FindLast(keyA, xs, keyB(ys[n])).value, ys[n];
    }
  }

  lemma {:induction false} JoinHas<A, B, C, K>(
    keyA: A -> K, keyB: B -> K, make: (A, B) -> C, xs: seq<A>, ys: seq<B>, b: B)
    requires b in ys && FindLast(keyA, xs, keyB(b)).Some?
    ensures make(FindLast(keyA, xs, keyB(b)).value, b) in InnerJoin(keyA, keyB, make, xs, ys)
  {
    var n := |ys| - 1;
    if b != ys[n] {
      assert b in ys[..n];
      JoinHas(keyA, keyB, make, xs, ys[..n], b);
    }
  }

  // ---------------------------------------------------------------- The outer join

  /** One record per b, with what the a side knows about its key. */
  function OuterJoin<A, B, C, K(==)>(
    keyA: A -> K, keyB: B -> K, make: (Option<A>, B) -> C, xs: seq<A>, ys: seq<B>): seq<C>
  {
    Map(y => make(FindLast(keyA, xs, keyB(y)), y), ys)
  }

  lemma OuterJoinAt<A, B, C, K>(
    keyA: A -> K, keyB: B -> K, make: (Option<A>, B) -> C, xs: seq<A>, ys: seq<B>, i: nat)
    requires i < |ys|
    ensures |OuterJoin(keyA, keyB, make, xs, ys)| == |ys|
    ensures OuterJoin(keyA, keyB, make, xs, ys)[i] == make(FindLast(keyA, xs, keyB(ys[i])), ys[i])
  {}

  method HashOuterJoin<A, B, C, K(==,!new)>(
    keyA: A -> K, keyB: B -> K, make: (Option<A>, B) -> C, xs: seq<A>, ys: seq<B>) returns (result: seq<C>)
    ensures result == OuterJoin(keyA, keyB, make, xs, ys)
  {
    var aMap := IndexBy(keyA, xs);
    result := [];
    for i := 0 to |ys|
      invariant result == OuterJoin(keyA, keyB, make, xs, ys[..i])
    {
      var k := keyB(ys[i]);
      result := result + [make(if k in aMap then Some(aMap[k]) else None, ys[i])];
    }
    assert ys[..|ys|] == ys;
  }

  // ---------------------------------------------------------------- Counting mentions

  function CountKey<S, K(==)>(key: S -> K, s: seq<S>, k: K): nat {
    if s == [] then 0 else CountKey(key, s[..|s| - 1], k) + (if key(s[|s| - 1]) == k then 1 else 0)
  }

  function CountInAll<S, K(==)>(key: S -> K, lists: seq<seq<S>>, k: K): nat {
    if lists == [] then 0 else CountInAll(key, lists[..|lists| - 1], k) + CountKey(key, lists[|lists| - 1], k)
  }

  /** counts[key(item)]++ over all items of all lists; an absent key reads as zero. */
  method CountKeys<S, K(==,!new)>(key: S -> K, lists: seq<seq<S>>) returns (counts: map<K, nat>)
    ensures forall k :: (if k in counts then counts[k] else 0) == CountInAll(key, lists, k)
  {
    counts := map[];
    for i := 0 to |lists|
      invariant forall k :: (if k in counts then counts[k] else 0) == CountInAll(key, lists[..i], k)
    {
      var list := lists[i];
      for j := 0 to |list|
        invariant forall k :: ((if k in counts then counts[k] else 0)
          == CountInAll(key, lists[..i], k) + CountKey(key, list[..j], k))
      {
        assert list[..j + 1][..j] == list[..j];
        var k := key(list[j]);
        counts := counts[k := (if k in counts then counts[k] else 0) + 1];
      }
      assert list[..|list|] == list;
      assert lists[..i + 1][..i] == lists[..i];
    }
    assert lists[..|lists|] == lists;
  }

  lemma {:induction false} UniqueCount<S, K>(key: S -> K, s: seq<S>, k: K)
    ensures CountKey(key, s, k) >= 1 <==> Mentions(key, s, k)
    ensures Unique(key, s) ==> CountKey(key, s, k) <= 1
  {
    if s != [] {
      var n := |s| - 1;
      UniqueCount(key, s[..n], k);
      assert Mentions(key, s[..n], k) ==> Mentions(key, s, k);
      if Unique(key, s) && key(s[n]) == k { assert !Mentions(key, s[..n], k); }
    }
  }

  /** Repeats within a list are counted one by one. */
  lemma {:induction false} CountKeyIsLength<S, K>(key: S -> K, s: seq<S>, k: K)
    ensures CountKey(key, s, k) == |Filter(x => key(x) == k, s)|
  {
    if s != [] { CountKeyIsLength(key, s[..|s| - 1], k); }
  }

  ghost predicate InEvery<S, K>(key: S -> K, lists: seq<seq<S>>, k: K) {
    forall i :: 0 <= i < |lists| ==> Mentions(key, lists[i], k)
  }

  /** How many lists lack k, and how many mentions of k are repeats within one list. */
  function Missing<S, K(==)>(key: S -> K, lists: seq<seq<S>>, k: K): nat {
    if lists == [] then 0
    else Missing(key, lists[..|lists| - 1], k) + (if CountKey(key, lists[|lists| - 1], k) == 0 then 1 else 0)
  }

  function Surplus<S, K(==)>(key: S -> K, lists: seq<seq<S>>, k: K): nat {
    if lists == [] then 0
    else
      var n := CountKey(key, lists[|lists| - 1], k);
      Surplus(key, lists[..|lists| - 1], k) + (if n > 1 then n - 1 else 0)
  }

  /** Every list that lacks k is one mention short, every repeat is one too many. */
  lemma {:induction false} CountBalance<S, K>(key: S -> K, lists: seq<seq<S>>, k: K)
    ensures CountInAll(key, lists, k) + Missing(key, lists, k) == |lists| + Surplus(key, lists, k)
    ensures Missing(key, lists, k) == 0 <==> InEvery(key, lists, k)
  {
    if lists != [] {
      var n := |lists| - 1;
      CountBalance(key, lists[..n], k);
      UniqueCount(key, lists[n], k);
      assert forall i :: 0 <= i < n ==> lists[i] == lists[..n][i];
      if InEvery(key, lists, k) { assert Mentions(key, lists[n], k); }
    }
  }

  /** No repeats, or some lists lack k and the repeats do not make up for exactly that many. */
  predicate CountsAgree<S, K(==)>(key: S -> K, lists: seq<seq<S>>, k: K) {
    Surplus(key, lists, k) == 0
    || (Missing(key, lists, k) > 0 && Surplus(key, lists, k) != Missing(key, lists, k))
  }

  /** Counting occurrences of k is set intersection exactly under that condition. */
  lemma CountAgreesIff<S, K>(key: S -> K, lists: seq<seq<S>>, k: K)
    ensures (CountInAll(key, lists, k) == |lists| <==> InEvery(key, lists, k)) <==> CountsAgree(key, lists, k)
  {
    CountBalance(key, lists, k);
  }

  lemma {:induction false} UniqueHasNoSurplus<S, K>(key: S -> K, lists: seq<seq<S>>, k: K)
    requires forall i :: 0 <= i < |lists| ==> Unique(key, lists[i])
    ensures Surplus(key, lists, k) == 0
  {
    if lists != [] {
      UniqueHasNoSurplus(key, lists[..|lists| - 1], k);
      UniqueCount(key, lists[|lists| - 1], k);
    }
  }

  /** In particular it is when no list repeats a key. */
  lemma CountIsIntersection<S, K>(key: S -> K, lists: seq<seq<S>>, k: K)
    requires forall i :: 0 <= i < |lists| ==> Unique(key, lists[i])
    ensures CountInAll(key, lists, k) <= |lists|
    ensures CountInAll(key, lists, k) == |lists| <==> InEvery(key, lists, k)
  {
    UniqueHasNoSurplus(key, lists, k);
    CountBalance(key, lists, k);
  }
}
