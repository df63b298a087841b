/** Picking the largest few: the processes whose memory is looked up, and the report's top list. */
module TopN {
  import opened Wrappers
  import opened Differential
  import opened Sorting
  import opened Joins

  // ---------------------------------------------------------------- The fifty largest processes

  datatype ProcIndex = ProcIndex(idx: nat, rss: Counter)

  const SMAPS_LIMIT := 50

  /** No position outside chosen holds more memory than one inside. */
  ghost predicate Largest(procs: seq<ProcessInfo>, chosen: set<nat>) {
    && (forall i :: i in chosen ==> i < |procs|)
    && forall i, j :: i in chosen && 0 <= j < |procs| && j !in chosen ==> procs[i].rssBytes >= procs[j].rssBytes
  }

  /** The chosen positions got their roll-up, everything else is as it was. */
  ghost predicate Enriched(before: seq<ProcessInfo>, after: seq<ProcessInfo>, chosen: set<nat>,
                           rollup: int -> Option<Counter>)
  {
    && |after| == |before|
    && forall i :: 0 <= i < |before| ==>
      after[i] == if i in chosen then before[i].(smaps := rollup(before[i].pid)) else before[i]
  }

  function ByRSS(a: ProcIndex, b: ProcIndex): bool { a.rss >= b.rss }

  /** The entries that list every position of procs once. */
  ghost predicate Lists(indices: seq<ProcIndex>, procs: seq<ProcessInfo>) {
    |indices| == |procs| && forall i :: 0 <= i < |procs| ==> indices[i] == ProcIndex(i, procs[i].rssBytes)
  }

  lemma {:induction false} ListedOnce(indices: seq<ProcIndex>, procs: seq<ProcessInfo>, x: ProcIndex)
    requires Lists(indices, procs)
    ensures multiset(indices)[x] == if x.idx < |procs| && x.rss == procs[x.idx].rssBytes then 1 else 0
  {
    if procs != [] {
      var n := |procs| - 1;
      ListedOnce(indices[..n], procs[..n], x);
      assert indices == indices[..n] + [indices[n]];
      assert multiset(indices)[x] == multiset(indices[..n])[x] + multiset([indices[n]])[x];
    }
  }

  lemma TwiceInMultiset<T>(s: seq<T>, i: nat, j: nat)
    requires i < j < |s| && s[i] == s[j]
    ensures multiset(s)[s[i]] >= 2
  {
    assert s == s[..i] + [s[i]] + s[i + 1..j] + [s[j]] + s[j + 1..];
  }

  /** Sorting the entries keeps each position in exactly one place. */
  lemma SortedLists(indices: seq<ProcIndex>, sorted: seq<ProcIndex>, procs: seq<ProcessInfo>)
    requires Lists(indices, procs) && multiset(sorted) == multiset(indices)
    ensures forall a :: 0 <= a < |sorted| ==> sorted[a].idx < |procs| && sorted[a].rss == procs[sorted[a].idx].rssBytes
    ensures forall a, b :: 0 <= a < b < |sorted| ==> sorted[a].idx != sorted[b].idx
    ensures forall j :: 0 <= j < |procs| ==> ProcIndex(j, procs[j].rssBytes) in sorted
  {
    forall a | 0 <= a < |sorted|
      ensures sorted[a].idx < |procs| && sorted[a].rss == procs[sorted[a].idx].rssBytes
    {
      assert sorted[a] in multiset(sorted);
      ListedOnce(indices, procs, sorted[a]);
    }
    forall a, b | 0 <= a < b < |sorted| ensures sorted[a].idx != sorted[b].idx {
      if sorted[a] == sorted[b] {
        TwiceInMultiset(sorted, a, b);
        ListedOnce(indices, procs, sorted[a]);
      }
    }
    forall j | 0 <= j < |procs| ensures ProcIndex(j, procs[j].rssBytes) in sorted {
      assert indices[j] in multiset(indices);
    }
  }

  ghost function Positions(entries: seq<ProcIndex>): set<nat> {
    if entries == [] then {} else Positions(entries[..|entries| - 1]) + {entries[|entries| - 1].idx}
  }

  lemma {:induction false} PositionListed(entries: seq<ProcIndex>, i: nat)
    ensures i in Positions(entries) <==> exists a :: 0 <= a < |entries| && entries[a].idx == i
  {
    if entries != [] {
      var n := |entries| - 1;
      PositionListed(entries[..n], i);
      if a :| 0 <= a < n && entries[..n][a].idx == i { assert entries[a].idx == i; }
      if a :| 0 <= a < |entries| && entries[a].idx == i && a < n { assert entries[..n][a].idx == i; }
    }
  }

  ghost predicate Distinct(entries: seq<ProcIndex>) {
    forall a, b :: 0 <= a < b < |entries| ==> entries[a].idx != entries[b].idx
  }

  lemma {:induction false} PositionCount(entries: seq<ProcIndex>)
    requires Distinct(entries)
    ensures |Positions(entries)| == |entries|
  {
    if entries != [] {
      var n := |entries| - 1;
      PositionCount(entries[..n]);
      PositionListed(entries[..n], entries[n].idx);
      assert entries[n].idx !in Positions(entries[..n]);
    }
  }

  lemma ChosenIsInFront(sorted: seq<ProcIndex>, limit: nat, i: nat) returns (a: nat)
    requires limit <= |sorted| && i in Positions(sorted[..limit])
    ensures a < limit && sorted[a].idx == i
  {
    PositionListed(sorted[..limit], i);
    a :| 0 <= a < limit && sorted[..limit][a].idx == i;
  }

  lemma OthersAreBehind(sorted: seq<ProcIndex>, limit: nat, x: ProcIndex) returns (b: nat)
    requires limit <= |sorted| && x in sorted && x.idx !in Positions(sorted[..limit])
    ensures limit <= b < |sorted| && sorted[b] == x
  {
    PositionListed(sorted[..limit], x.idx);
    assert forall k :: 0 <= k < limit ==> sorted[..limit][k] == sorted[k];
    b :| 0 <= b < |sorted| && sorted[b] == x;
  }

  lemma TopIsLargest(procs: seq<ProcessInfo>, indices: seq<ProcIndex>, sorted: seq<ProcIndex>, limit: nat)
    requires Lists(indices, procs) && multiset(sorted) == multiset(indices) && SortedBy(ByRSS, sorted)
    requires limit <= |sorted|
    ensures Largest(procs, Positions(sorted[..limit]))
  {
    SortedLists(indices, sorted, procs);
    var chosen := Positions(sorted[..limit]);
    forall i | i in chosen ensures i < |procs| {
      var a := ChosenIsInFront(sorted, limit, i);
    }
    forall i, j | i in chosen && 0 <= j < |procs| && j !in chosen
      ensures procs[i].rssBytes >= procs[j].rssBytes
    {
      var a := ChosenIsInFront(sorted, limit, i);
      var b := OthersAreBehind(sorted, limit, ProcIndex(j, procs[j].rssBytes));
      assert ByRSS(sorted[a], sorted[b]);
    }
  }

  lemma TopSize(procs: seq<ProcessInfo>, indices: seq<ProcIndex>, sorted: seq<ProcIndex>, limit: nat)
    requires Lists(indices, procs) && multiset(sorted) == multiset(indices) && limit <= |sorted|
    ensures |Positions(sorted[..limit])| == limit
  {
    SortedLists(indices, sorted, procs);
    PositionCount(sorted[..limit]);
  }

  method IndexProcesses(procs: array<ProcessInfo>) returns (indices: seq<ProcIndex>)
    ensures Lists(indices, procs[..])
  {
    indices := [];
    for i := 0 to procs.Length
      invariant |indices| == i && forall k :: 0 <= k < i ==> indices[k] == ProcIndex(k, procs[k].rssBytes)
    {
      indices := indices + [ProcIndex(i, procs[i].rssBytes)];
    }
  }

  /** Writes the roll-ups of the entries' positions, in that order. */
  method WriteRollups(procs: array<ProcessInfo>, entries: seq<ProcIndex>, rollup: int -> Option<Counter>)
    requires forall a :: 0 <= a < |entries| ==> entries[a].idx < procs.Length
    modifies procs
    ensures Enriched(old(procs[..]), procs[..], Positions(entries), rollup)
  {
    ghost var before := procs[..];
    for i := 0 to |entries|
      invariant Enriched(before, procs[..], Positions(entries[..i]), rollup)
    {
      var origIdx := entries[i].idx;
      assert entries[..i + 1][..i] == entries[..i];
      procs[origIdx] := procs[origIdx].(smaps := rollup(procs[origIdx].pid));
    }
    assert entries[..|entries|] == entries;
  }

  /**
    In place: exactly the min(50, n) chosen positions change, only in their roll-up, and hold
    at least as much memory as any other. The roll-up files are an oracle by PID.
  */
  method EnrichTopRSSSmapsRollup(procs: array<ProcessInfo>, available: bool, rollup: int -> Option<Counter>)
    returns (ghost chosen: set<nat>)
    modifies procs
    ensures Enriched(old(procs[..]), procs[..], chosen, rollup)
    ensures Largest(old(procs[..]), chosen)
    ensures |chosen| == if !available then 0 else if procs.Length < 50 then procs.Length else 50
  {
    chosen := {};
    if procs.Length == 0 || !available { return; }
    var indices := IndexProcesses(procs);
    var sorted := SortSlice(ByRSS, indices);
    var limit := SMAPS_LIMIT;
    if limit > |sorted| { limit := |sorted|; }
    SortedLists(indices, sorted, procs[..]);
    TopIsLargest(procs[..], indices, sorted, limit);
    TopSize(procs[..], indices, sorted, limit);
    chosen := Positions(sorted[..limit]);
    WriteRollups(procs, sorted[..limit], rollup);
  }

  /** Where the sort puts equals does not matter: two choices differ only in processes of equal memory. */
  lemma ChoicesDifferInTies(procs: seq<ProcessInfo>, a: set<nat>, b: set<nat>)
    requires Largest(procs, a) && Largest(procs, b) && |a| == |b|
    ensures |a - b| == |b - a|
    ensures forall i, j :: i in a - b && j in b - a ==> procs[i].rssBytes == procs[j].rssBytes
    ensures a != b ==> Tie(procs)
  {
    SameSizeDifferences(a, b);
    if a != b {
      var i :| i in a - b;
      assert |b - a| > 0;
      var j :| j in b - a;
      assert procs[i].rssBytes == procs[j].rssBytes;
    }
  }

  ghost predicate Tie(procs: seq<ProcessInfo>) {
    exists i, j :: 0 <= i < |procs| && 0 <= j < |procs| && i != j && procs[i].rssBytes == procs[j].rssBytes
  }

  lemma SameSizeDifferences<T>(a: set<T>, b: set<T>)
    requires |a| == |b|
    ensures |a - b| == |b - a|
    ensures a - b == {} <==> a == b
  {
    assert a == (a - b) + (a * b) && b == (b - a) + (a * b);
    assert (a - b) !! (a * b) && (b - a) !! (a * b);
    assert |a| == |a - b| + |a * b| && |b| == |b - a| + |a * b|;
  }

  // ---------------------------------------------------------------- The report's top processes

  datatype TopProcess = TopProcess(
    pid: int, comm: string, cpuPercent: real, rssMB: real, readKB: real, writeKB: real,
    rssBytes: Counter, readBytesDelta: Counter, writeBytesDelta: Counter, openFDs: int, state: string)

  /** Busiest first, larger first among equals. */
  function Busier(a: ProcessDiff, b: ProcessDiff): bool {
    a.cpuPercent > b.cpuPercent || (a.cpuPercent == b.cpuPercent && a.rssBytes >= b.rssBytes)
  }

  /** x is at least as busy as y, and if they are equally busy at least as large. */
  ghost predicate Outranks(x: ProcessDiff, y: ProcessDiff) {
    x.cpuPercent > y.cpuPercent || (x.cpuPercent == y.cpuPercent && x.rssBytes >= y.rssBytes)
  }

  function ReportOf(p: ProcessDiff): TopProcess {
    TopProcess(
      p.pid, p.comm, p.cpuPercent, p.rssBytes as real / 1048576.0, p.readBytesDelta as real / 1024.0,
      p.writeBytesDelta as real / 1024.0, p.rssBytes, p.readBytesDelta, p.writeBytesDelta, p.openFDs,
      if p.state == '\0' then "?" else [p.state])
  }

  /** top and rest together are the processes; top is ordered and nothing in rest goes before it. */
  ghost predicate TopOf(procs: seq<ProcessDiff>, top: seq<ProcessDiff>, rest: seq<ProcessDiff>) {
    && multiset(top + rest) == multiset(procs)
    && SortedBy(Busier, top)
    && forall x, y :: x in top && y in rest ==> Busier(x, y)
  }

  /** The list is in order of load, then of memory, and nothing left out outranks anything listed. */
  lemma TopIsRanked(procs: seq<ProcessDiff>, top: seq<ProcessDiff>, rest: seq<ProcessDiff>)
    requires TopOf(procs, top, rest)
    ensures forall i, j :: 0 <= i < j < |top| ==> Outranks(top[i], top[j])
    ensures forall x, y :: x in top && y in rest ==> Outranks(x, y)
  {
    forall i, j | 0 <= i < j < |top| ensures Outranks(top[i], top[j]) { assert Busier(top[i], top[j]); }
    forall x, y | x in top && y in rest ensures Outranks(x, y) { assert Busier(x, y); }
  }

  /** Mebibytes and kibibytes multiply back to bytes; a missing state shows as a question mark. */
  lemma ReportMeaning(p: ProcessDiff)
    ensures var r := ReportOf(p);
      && r.pid == p.pid && r.comm == p.comm && r.cpuPercent == p.cpuPercent && r.openFDs == p.openFDs
      && r.rssBytes == p.rssBytes && r.readBytesDelta == p.readBytesDelta && r.writeBytesDelta == p.writeBytesDelta
      && r.rssMB * 1024.0 * 1024.0 == p.rssBytes as real
      && r.readKB * 1024.0 == p.readBytesDelta as real && r.writeKB * 1024.0 == p.writeBytesDelta as real
      && (p.state != '\0' ==> r.state == [p.state]) && (p.state == '\0' ==> r.state == "?")
  {}

  lemma FrontIsTop(procs: seq<ProcessDiff>, sorted: seq<ProcessDiff>, limit: nat)
    requires SortedBy(Busier, sorted) && multiset(sorted) == multiset(procs) && limit <= |sorted|
    ensures TopOf(procs, sorted[..limit], sorted[limit..])
  {
    var top, rest := sorted[..limit], sorted[limit..];
    assert top + rest == sorted;
    forall x, y | x in top && y in rest ensures Busier(x, y) {
      var i :| 0 <= i < limit && top[i] == x;
      var j :| 0 <= j < |rest| && rest[j] == y;
      assert sorted[limit + j] == y && sorted[i] == x;
    }
  }

  method MakeReports(top: seq<ProcessDiff>) returns (reports: seq<TopProcess>)
    ensures reports == Map(ReportOf, top)
  {
    reports := [];
    for i := 0 to |top|
      invariant |reports| == i && forall k :: 0 <= k < i ==> reports[k] == ReportOf(top[k])
    {
      reports := reports + [ReportOf(top[i])];
    }
  }

  method ExtractTopProcesses(diff: Option<SnapshotDiff>, n: int)
    returns (result: Option<seq<TopProcess>>, ghost top: seq<ProcessDiff>, ghost rest: seq<ProcessDiff>)
    ensures result.None? <==> diff.None? || n <= 0
    ensures result.Some? ==>
      && |result.value| == (if n < |diff.value.processes| then n else |diff.value.processes|)
      && TopOf(diff.value.processes, top, rest) && result.value == Map(ReportOf, top)
      && forall i, j :: 0 <= i < j < |top| ==> Outranks(top[i], top[j])
  {
    top, rest := [], [];
    if diff.None? || n <= 0 { return None, top, rest; }
    var procs := SortSlice(Busier, diff.value.processes);
    var limit := n;
    if limit > |procs| { limit := |procs|; }
    var reports := MakeReports(procs[..limit]);
    FrontIsTop(diff.value.processes, procs, limit);
    result, top, rest := Some(reports), procs[..limit], procs[limit..];
    TopIsRanked(diff.value.processes, top, rest);
  }

  lemma TopWithRestIsSorted(procs: seq<ProcessDiff>, top: seq<ProcessDiff>, rest: seq<ProcessDiff>)
    requires TopOf(procs, top, rest)
    ensures SortedBy(Busier, top + Sorted(Busier, rest)) && multiset(top + Sorted(Busier, rest)) == multiset(procs)
  {
    SortedIsSorted(Busier, rest);
    SortedElements(Busier, rest);
    var s := top + Sorted(Busier, rest);
    forall i, j | 0 <= i < j < |s| ensures Busier(s[i], s[j]) {
      if i < |top| <= j {
        assert s[i] in top && s[j] in Sorted(Busier, rest);
      }
    }
    assert multiset(s) == multiset(top) + multiset(rest) == multiset(top + rest);
  }

  /** Though the sort is not stable, every line of the list has the same load and memory in any outcome. */
  lemma TopIsDetermined(procs: seq<ProcessDiff>, top: seq<ProcessDiff>, rest: seq<ProcessDiff>,
                        top': seq<ProcessDiff>, rest': seq<ProcessDiff>)
    requires TopOf(procs, top, rest) && TopOf(procs, top', rest') && |top| == |top'|
    ensures forall i :: 0 <= i < |top| ==>
      top[i].cpuPercent == top'[i].cpuPercent && top[i].rssBytes == top'[i].rssBytes
  {
    TopWithRestIsSorted(procs, top, rest);
    TopWithRestIsSorted(procs, top', rest');
    var s, s' := top + Sorted(Busier, rest), top' + Sorted(Busier, rest');
    RanksAreDetermined(Busier, s, s');
    forall i | 0 <= i < |top|
      ensures top[i].cpuPercent == top'[i].cpuPercent && top[i].rssBytes == top'[i].rssBytes
    {
      assert s[i] == top[i] && s'[i] == top'[i];
    }
  }
}
