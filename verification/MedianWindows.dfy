/** Several sampling windows in, one representative window out. */
module MedianWindows {
  import opened Wrappers
  import opened Differential
  import opened Sorting
  import opened Joins
  import opened OrderStatistics
  import opened Windows

  function RealMedian<S>(f: S -> real, samples: seq<S>): real {
    Median(RealLe, 0.0, Map(f, samples))
  }

  function IntMedian<S>(f: S -> Counter, samples: seq<S>): int {
    Median(IntLe, 0, Map((x: S) => f(x) as int, samples))
  }

  lemma IntMedianIsCounter<S>(f: S -> Counter, samples: seq<S>)
    ensures 0 <= IntMedian(f, samples) < U64
  {
    var vals := Map((x: S) => f(x) as int, samples);
    if vals != [] {
      MedianIsMedian(IntLe, 0, vals);
      assert Median(IntLe, 0, vals) in vals;
    }
  }

  function CounterMedian<S>(f: S -> Counter, samples: seq<S>): Counter {
    IntMedianIsCounter(f, samples);
    IntMedian(f, samples)
  }

  function Ints<S>(f: S -> Counter, samples: seq<S>): seq<int> { Map((x: S) => f(x) as int, samples) }

  /** The order statistic of one field. */
  lemma RealMedianIsMedian<S>(f: S -> real, samples: seq<S>)
    requires samples != []
    ensures IsMedian(RealLe, Map(f, samples), RealMedian(f, samples))
  {
    MedianIsMedian(RealLe, 0.0, Map(f, samples));
  }

  lemma CounterMedianIsMedian<S>(f: S -> Counter, samples: seq<S>)
    requires samples != []
    ensures IsMedian(IntLe, Ints(f, samples), CounterMedian(f, samples))
  {
    MedianIsMedian(IntLe, 0, Ints(f, samples));
  }

  // Collecting one field of every sample, then taking the median.

  method MedianOfReals<S>(f: S -> real, samples: seq<S>) returns (m: real)
    ensures m == RealMedian(f, samples)
  {
    var vals := [];
    for i := 0 to |samples|
      invariant vals == Map(f, samples)[..i]
    {
      vals := vals + [f(samples[i])];
    }
    assert vals == Map(f, samples);
    m := MedianFloat64(vals);
  }

  method MedianOfCounters<S>(f: S -> Counter, samples: seq<S>) returns (m: Counter)
    ensures m == CounterMedian(f, samples)
  {
    var vals: seq<int> := [];
    ghost var all := Map((x: S) => f(x) as int, samples);
    for i := 0 to |samples|
      invariant vals == all[..i]
    {
      vals := vals + [f(samples[i]) as int];
    }
    assert vals == all;
    IntMedianIsCounter(f, samples);
    m := MedianUint64(vals);
  }

  // ---------------------------------------------------------------- CPU utilisation

  function UtilMedian(us: seq<CPUUtilization>): CPUUtilization {
    CPUUtilization(
      RealMedian((u: CPUUtilization) => u.user, us), RealMedian((u: CPUUtilization) => u.system, us),
      RealMedian((u: CPUUtilization) => u.iowait, us), RealMedian((u: CPUUtilization) => u.idle, us),
      RealMedian((u: CPUUtilization) => u.softirq, us), RealMedian((u: CPUUtilization) => u.steal, us),
      RealMedian((u: CPUUtilization) => u.busy, us))
  }

  /** Each of the seven percentages is the median of its own samples. */
  ghost predicate IsUtilMedian(us: seq<CPUUtilization>, r: CPUUtilization) {
    && IsMedian(RealLe, Map((u: CPUUtilization) => u.user, us), r.user)
    && IsMedian(RealLe, Map((u: CPUUtilization) => u.system, us), r.system)
    && IsMedian(RealLe, Map((u: CPUUtilization) => u.iowait, us), r.iowait)
    && IsMedian(RealLe, Map((u: CPUUtilization) => u.idle, us), r.idle)
    && IsMedian(RealLe, Map((u: CPUUtilization) => u.softirq, us), r.softirq)
    && IsMedian(RealLe, Map((u: CPUUtilization) => u.steal, us), r.steal)
    && IsMedian(RealLe, Map((u: CPUUtilization) => u.busy, us), r.busy)
  }

  lemma UtilMedianIsMedian(us: seq<CPUUtilization>)
    requires us != []
    ensures IsUtilMedian(us, UtilMedian(us))
  {
    RealMedianIsMedian((u: CPUUtilization) => u.user, us);
    RealMedianIsMedian((u: CPUUtilization) => u.system, us);
    RealMedianIsMedian((u: CPUUtilization) => u.iowait, us);
    RealMedianIsMedian((u: CPUUtilization) => u.idle, us);
    RealMedianIsMedian((u: CPUUtilization) => u.softirq, us);
    RealMedianIsMedian((u: CPUUtilization) => u.steal, us);
    RealMedianIsMedian((u: CPUUtilization) => u.busy, us);
  }

  method MedianCPUUtil(us: seq<CPUUtilization>) returns (r: CPUUtilization)
    ensures r == UtilMedian(us)
    ensures us != [] ==> IsUtilMedian(us, r)
  {
    if us != [] { UtilMedianIsMedian(us); }
    var user := MedianOfReals((u: CPUUtilization) => u.user, us);
    var system := MedianOfReals((u: CPUUtilization) => u.system, us);
    var iowait := MedianOfReals((u: CPUUtilization) => u.iowait, us);
    var idle := MedianOfReals((u: CPUUtilization) => u.idle, us);
    var softirq := MedianOfReals((u: CPUUtilization) => u.softirq, us);
    var steal := MedianOfReals((u: CPUUtilization) => u.steal, us);
    var busy := MedianOfReals((u: CPUUtilization) => u.busy, us);
    r := CPUUtilization(user, system, iowait, idle, softirq, steal, busy);
  }

  function MinCores(ds: seq<SnapshotDiff>): nat
    requires ds != []
  {
    var n := |ds[|ds| - 1].perCoreCPUUtil|;
    if |ds| == 1 then n
    else
      var m := MinCores(ds[..|ds| - 1]);
      if n < m then n else m
  }

  lemma {:induction false} MinCoresIsLeast(ds: seq<SnapshotDiff>)
    requires ds != []
    ensures forall d :: d in ds ==> MinCores(ds) <= |d.perCoreCPUUtil|
    ensures exists d :: d in ds && MinCores(ds) == |d.perCoreCPUUtil|
  {
    if |ds| > 1 {
      MinCoresIsLeast(ds[..|ds| - 1]);
      var d :| d in ds[..|ds| - 1] && MinCores(ds[..|ds| - 1]) == |d.perCoreCPUUtil|;
      assert d in ds;
      assert forall e :: e in ds ==> e in ds[..|ds| - 1] || e == ds[|ds| - 1];
    }
    assert ds[|ds| - 1] in ds;
  }

  /** The c-th core of every window. */
  function CoreColumn(ds: seq<SnapshotDiff>, c: nat): seq<CPUUtilization>
    requires forall d :: d in ds ==> c < |d.perCoreCPUUtil|
  {
    seq(|ds|, i requires 0 <= i < |ds| => assert ds[i] in ds; ds[i].perCoreCPUUtil[c])
  }

  lemma CoreColumnAt(ds: seq<SnapshotDiff>, c: nat, i: nat)
    requires i < |ds| && forall d :: d in ds ==> c < |d.perCoreCPUUtil|
    ensures |CoreColumn(ds, c)| == |ds| && ds[i] in ds && CoreColumn(ds, c)[i] == ds[i].perCoreCPUUtil[c]
  {}

  ghost predicate PerCoreMedians(ds: seq<SnapshotDiff>, r: seq<CPUUtilization>)
    requires ds != [] && forall d :: d in ds ==> |r| <= |d.perCoreCPUUtil|
  {
    forall c :: 0 <= c < |r| ==> r[c] == UtilMedian(CoreColumn(ds, c))
  }

  ghost predicate IsPerCoreMedian(ds: seq<SnapshotDiff>, r: seq<CPUUtilization>)
    requires ds != []
  {
    MinCoresIsLeast(ds);
    |r| == MinCores(ds) && PerCoreMedians(ds, r)
  }

  method ShortestCoreList(ds: seq<SnapshotDiff>) returns (minCores: nat)
    requires ds != []
    ensures minCores == MinCores(ds)
  {
    minCores := |ds[0].perCoreCPUUtil|;
    for i := 1 to |ds|
      invariant minCores == MinCores(ds[..i])
    {
      assert ds[..i + 1][..i] == ds[..i];
      if |ds[i].perCoreCPUUtil| < minCores {
        minCores := |ds[i].perCoreCPUUtil|;
      }
    }
    assert ds[..|ds|] == ds;
  }

  method CollectColumn(ds: seq<SnapshotDiff>, c: nat) returns (column: seq<CPUUtilization>)
    requires forall d :: d in ds ==> c < |d.perCoreCPUUtil|
    ensures column == CoreColumn(ds, c)
  {
    column := [];
    for i := 0 to |ds|
      invariant |column| == i && forall k :: 0 <= k < i ==> column[k] == CoreColumn(ds, c)[k]
    {
      assert ds[i] in ds;
      column := column + [ds[i].perCoreCPUUtil[c]];
    }
  }

  method CoreMedian(ds: seq<SnapshotDiff>, c: nat) returns (core: CPUUtilization)
    requires ds != [] && forall d :: d in ds ==> c < |d.perCoreCPUUtil|
    ensures core == UtilMedian(CoreColumn(ds, c))
  {
    var column := CollectColumn(ds, c);
    core := MedianCPUUtil(column);
  }

  /** As many cores as the shortest window has, each the median over all windows. */
  method MedianPerCoreCPUUtil(ds: seq<SnapshotDiff>) returns (r: seq<CPUUtilization>)
    requires ds != []
    ensures IsPerCoreMedian(ds, r)
  {
    var minCores := ShortestCoreList(ds);
    MinCoresIsLeast(ds);
    r := [];
    for c := 0 to minCores
      invariant |r| == c && PerCoreMedians(ds, r)
    {
      var core := CoreMedian(ds, c);
      r := r + [core];
    }
  }

  lemma RealMedianWithin<S>(f: S -> real, samples: seq<S>, lo: real, hi: real)
    requires samples != [] && forall x :: x in samples ==> lo <= f(x) <= hi
    ensures lo <= RealMedian(f, samples) <= hi
  {
    var vals := Map(f, samples);
    MedianIsMedian(RealLe, 0.0, vals);
    var i :| 0 <= i < |vals| && vals[i] == Median(RealLe, 0.0, vals);
    assert samples[i] in samples;
  }

  lemma UtilMedianInRange(us: seq<CPUUtilization>)
    requires us != [] && AllInRange(us)
    ensures UtilMedian(us).InRange()
  {
    RealMedianWithin((u: CPUUtilization) => u.user, us, 0.0, 100.0);
    RealMedianWithin((u: CPUUtilization) => u.system, us, 0.0, 100.0);
    RealMedianWithin((u: CPUUtilization) => u.iowait, us, 0.0, 100.0);
    RealMedianWithin((u: CPUUtilization) => u.idle, us, 0.0, 100.0);
    RealMedianWithin((u: CPUUtilization) => u.softirq, us, 0.0, 100.0);
    RealMedianWithin((u: CPUUtilization) => u.steal, us, 0.0, 100.0);
    RealMedianWithin((u: CPUUtilization) => u.busy, us, 0.0, 100.0);
  }

  // ---------------------------------------------------------------- Disks and cgroups

  function DisksOf(ds: seq<SnapshotDiff>): seq<seq<DiskDeviceDiff>> { Map((d: SnapshotDiff) => d.disks, ds) }
  function CgroupsOf(ds: seq<SnapshotDiff>): seq<seq<CgroupDiff>> { Map((d: SnapshotDiff) => d.cgroups, ds) }

  /** What every list says about k: its first match, if any. */
  function Samples<S, K(==)>(key: S -> K, lists: seq<seq<S>>, k: K): seq<Option<S>> {
    Map((s: seq<S>) => FindFirst(key, s, k), lists)
  }

  /** Each slot keeps the zero value unless some item matches; the scan stops at the first. */
  method ScanEach<S, K(==)>(key: S -> K, lists: seq<seq<S>>, k: K) returns (found: seq<Option<S>>)
    ensures found == Samples(key, lists, k)
  {
    found := [];
    for i := 0 to |lists|
      invariant found == Samples(key, lists, k)[..i]
    {
      var slot: Option<S> := None;
      var list := lists[i];
      for j := 0 to |list|
        invariant slot == None && FindFirst(key, list, k) == FindFirst(key, list[j..], k)
      {
        if key(list[j]) == k {
          slot := Some(list[j]);
          break;
        }
        assert list[j..][1..] == list[j + 1..];
      }
      assert slot == FindFirst(key, list, k) by {
        if slot == None { assert list[|list|..] == []; }
      }
      found := found + [slot];
    }
  }

  function OrZero<S>(f: S -> real): Option<S> -> real {
    (o: Option<S>) => match o case Some(x) => f(x) case None => 0.0
  }

  function OrZeroCounter<S>(f: S -> Counter): Option<S> -> Counter {
    (o: Option<S>) => match o case Some(x) => f(x) case None => 0
  }

  function MergeDisk(base: DiskDeviceDiff, found: seq<Option<DiskDeviceDiff>>): DiskDeviceDiff {
    base.(utilPercent := RealMedian(OrZero((d: DiskDeviceDiff) => d.utilPercent), found),
          avgReadLatencyMS := RealMedian(OrZero((d: DiskDeviceDiff) => d.avgReadLatencyMS), found),
          avgWriteLatencyMS := RealMedian(OrZero((d: DiskDeviceDiff) => d.avgWriteLatencyMS), found),
          avgQueueLatencyMS := RealMedian(OrZero((d: DiskDeviceDiff) => d.avgQueueLatencyMS), found),
          readBytes := CounterMedian(OrZeroCounter((d: DiskDeviceDiff) => d.readBytes), found),
          writeBytes := CounterMedian(OrZeroCounter((d: DiskDeviceDiff) => d.writeBytes), found))
  }

  function MergeCgroup(base: CgroupDiff, found: seq<Option<CgroupDiff>>): CgroupDiff {
    base.(throttledUsec := CounterMedian(OrZeroCounter((c: CgroupDiff) => c.throttledUsec), found),
          nrThrottled := CounterMedian(OrZeroCounter((c: CgroupDiff) => c.nrThrottled), found),
          oomKills := CounterMedian(OrZeroCounter((c: CgroupDiff) => c.oomKills), found),
          memoryHighEvents := CounterMedian(OrZeroCounter((c: CgroupDiff) => c.memoryHighEvents), found))
  }

  /** The bases whose key was counted once per list, each merged with its samples. */
  function MergeCommon<S, K(==)>(
    key: S -> K, merge: (S, seq<Option<S>>) -> S, lists: seq<seq<S>>, bases: seq<S>): seq<S>
  {
    if bases == [] then []
    else
      var base := bases[|bases| - 1];
      MergeCommon(key, merge, lists, bases[..|bases| - 1])
      + (if CountInAll(key, lists, key(base)) == |lists| then [merge(base, Samples(key, lists, key(base)))] else [])
  }

  lemma MergeStep<S, K>(
    key: S -> K, merge: (S, seq<Option<S>>) -> S, lists: seq<seq<S>>, bases: seq<S>, i: nat)
    requires i < |bases|
    ensures MergeCommon(key, merge, lists, bases[..i + 1]) == MergeCommon(key, merge, lists, bases[..i])
      + (if CountInAll(key, lists, key(bases[i])) == |lists|
         then [merge(bases[i], Samples(key, lists, key(bases[i])))] else [])
  {
    assert bases[..i + 1][..i] == bases[..i];
  }

  function DiskMedians(lists: seq<seq<DiskDeviceDiff>>): seq<DiskDeviceDiff>
    requires lists != []
  {
    MergeCommon(DiskDiffName, MergeDisk, lists, lists[|lists| - 1])
  }

  function CgroupMedians(lists: seq<seq<CgroupDiff>>): seq<CgroupDiff>
    requires lists != []
  {
    MergeCommon(CgroupDiffPath, MergeCgroup, lists, lists[|lists| - 1])
  }

  method MedianDisk(base: DiskDeviceDiff, found: seq<Option<DiskDeviceDiff>>) returns (r: DiskDeviceDiff)
    ensures r == MergeDisk(base, found)
  {
    var util := MedianOfReals(OrZero((d: DiskDeviceDiff) => d.utilPercent), found);
    var readLat := MedianOfReals(OrZero((d: DiskDeviceDiff) => d.avgReadLatencyMS), found);
    var writeLat := MedianOfReals(OrZero((d: DiskDeviceDiff) => d.avgWriteLatencyMS), found);
    var queueLat := MedianOfReals(OrZero((d: DiskDeviceDiff) => d.avgQueueLatencyMS), found);
    var readBytes := MedianOfCounters(OrZeroCounter((d: DiskDeviceDiff) => d.readBytes), found);
    var writeBytes := MedianOfCounters(OrZeroCounter((d: DiskDeviceDiff) => d.writeBytes), found);
    r := base.(utilPercent := util, avgReadLatencyMS := readLat, avgWriteLatencyMS := writeLat,
               avgQueueLatencyMS := queueLat, readBytes := readBytes, writeBytes := writeBytes);
  }

  method MedianDiskDiffs(ds: seq<SnapshotDiff>) returns (result: seq<DiskDeviceDiff>)
    requires ds != []
    ensures result == DiskMedians(DisksOf(ds))
  {
    var lists := DisksOf(ds);
    var latest := ds[|ds| - 1].disks;
    var counts := CountKeys(DiskDiffName, lists);
    result := [];
    for i := 0 to |latest|
      invariant result == MergeCommon(DiskDiffName, MergeDisk, lists, latest[..i])
    {
      MergeStep(DiskDiffName, MergeDisk, lists, latest, i);
      var base := latest[i];
      var count := if base.name in counts then counts[base.name] else 0;
      assert count == CountInAll(DiskDiffName, lists, DiskDiffName(base));
      if count == |lists| {
        var found := ScanEach(DiskDiffName, lists, base.name);
        var merged := MedianDisk(base, found);
        result := result + [merged];
      } else {
        assert result + [] == result;
      }
    }
    assert latest[..|latest|] == latest;
  }

  method MedianCgroup(base: CgroupDiff, found: seq<Option<CgroupDiff>>) returns (r: CgroupDiff)
    ensures r == MergeCgroup(base, found)
  {
    var throttled := MedianOfCounters(OrZeroCounter((c: CgroupDiff) => c.throttledUsec), found);
    var nr := MedianOfCounters(OrZeroCounter((c: CgroupDiff) => c.nrThrottled), found);
    var kills := MedianOfCounters(OrZeroCounter((c: CgroupDiff) => c.oomKills), found);
    var highs := MedianOfCounters(OrZeroCounter((c: CgroupDiff) => c.memoryHighEvents), found);
    r := base.(throttledUsec := throttled, nrThrottled := nr, oomKills := kills, memoryHighEvents := highs);
  }

  method MedianCgroupDiffs(ds: seq<SnapshotDiff>) returns (result: seq<CgroupDiff>)
    requires ds != []
    ensures result == CgroupMedians(CgroupsOf(ds))
  {
    var lists := CgroupsOf(ds);
    var latest := ds[|ds| - 1].cgroups;
    var counts := CountKeys(CgroupDiffPath, lists);
    result := [];
    for i := 0 to |latest|
      invariant result == MergeCommon(CgroupDiffPath, MergeCgroup, lists, latest[..i])
    {
      MergeStep(CgroupDiffPath, MergeCgroup, lists, latest, i);
      var base := latest[i];
      var count := if base.path in counts then counts[base.path] else 0;
      assert count == CountInAll(CgroupDiffPath, lists, CgroupDiffPath(base));
      if count == |lists| {
        var found := ScanEach(CgroupDiffPath, lists, base.path);
        var merged := MedianCgroup(base, found);
        result := result + [merged];
      } else {
        assert result + [] == result;
      }
    }
    assert latest[..|latest|] == latest;
  }

  // ---------------------------------------------------------------- MedianDiff

  function Present(diffs: seq<Option<SnapshotDiff>>): seq<SnapshotDiff> {
    if diffs == [] then []
    else Present(diffs[..|diffs| - 1]) + (if diffs[|diffs| - 1].Some? then [diffs[|diffs| - 1].value] else [])
  }

  ghost predicate AnyJump(ds: seq<SnapshotDiff>) { exists d :: d in ds && d.clockJumpDetected }

  ghost predicate IsMedianWindow(valid: seq<SnapshotDiff>, r: SnapshotDiff)
    requires valid != []
  {
    var latest := valid[|valid| - 1];
    && r.duration == latest.duration && r.timestamp == latest.timestamp && r.latest == latest.latest
    && r.clockJumpDetected == AnyJump(valid)
    && r.procsRunning == CounterMedian((d: SnapshotDiff) => d.procsRunning, valid)
    && r.procsBlocked == CounterMedian((d: SnapshotDiff) => d.procsBlocked, valid)
    && r.contextSwitchesDelta == CounterMedian((d: SnapshotDiff) => d.contextSwitchesDelta, valid)
    && r.processesCreatedDelta == CounterMedian((d: SnapshotDiff) => d.processesCreatedDelta, valid)
    && r.totalCPUUtil == UtilMedian(Map((d: SnapshotDiff) => d.totalCPUUtil, valid))
    && IsPerCoreMedian(valid, r.perCoreCPUUtil)
    && r.disks == DiskMedians(DisksOf(valid))
    && r.cgroups == CgroupMedians(CgroupsOf(valid))
    && r.processes == latest.processes
  }

  /** The windows that are there, in order. */
  lemma {:induction false} PresentKeepsOrder(diffs: seq<Option<SnapshotDiff>>)
    ensures Map((d: SnapshotDiff) => Some(d), Present(diffs)) == Filter((o: Option<SnapshotDiff>) => o.Some?, diffs)
  {
    if diffs != [] {
      var n := |diffs| - 1;
      PresentKeepsOrder(diffs[..n]);
      var front, all := Present(diffs[..n]), Present(diffs);
      if diffs[n].Some? {
        assert all == front + [diffs[n].value];
        assert Map((d: SnapshotDiff) => Some(d), all) == Map((d: SnapshotDiff) => Some(d), front) + [diffs[n]];
      } else {
        assert all == front;
      }
    }
  }

  /** The machine-wide fields are medians over the windows, core by core where there are cores. */
  ghost predicate FieldsAreMedians(ws: seq<SnapshotDiff>, r: SnapshotDiff)
    requires ws != []
  {
    && IsMedian(IntLe, Ints((d: SnapshotDiff) => d.procsRunning, ws), r.procsRunning)
    && IsMedian(IntLe, Ints((d: SnapshotDiff) => d.procsBlocked, ws), r.procsBlocked)
    && IsMedian(IntLe, Ints((d: SnapshotDiff) => d.contextSwitchesDelta, ws), r.contextSwitchesDelta)
    && IsMedian(IntLe, Ints((d: SnapshotDiff) => d.processesCreatedDelta, ws), r.processesCreatedDelta)
    && IsUtilMedian(Map((d: SnapshotDiff) => d.totalCPUUtil, ws), r.totalCPUUtil)
    && CoresAreMedians(ws, r.perCoreCPUUtil)
  }

  /** The median of every core that all windows have. */
  ghost predicate CoresAreMedians(ws: seq<SnapshotDiff>, cores: seq<CPUUtilization>) {
    && (forall d :: d in ws ==> |cores| <= |d.perCoreCPUUtil|)
    && (exists d :: d in ws && |cores| == |d.perCoreCPUUtil|)
    && forall c :: 0 <= c < |cores| ==> IsUtilMedian(CoreColumn(ws, c), cores[c])
  }

  lemma CoresMeaning(ws: seq<SnapshotDiff>, cores: seq<CPUUtilization>)
    requires ws != [] && IsPerCoreMedian(ws, cores)
    ensures CoresAreMedians(ws, cores)
  {
    MinCoresIsLeast(ws);
    forall c | 0 <= c < |cores| ensures IsUtilMedian(CoreColumn(ws, c), cores[c]) {
      UtilMedianIsMedian(CoreColumn(ws, c));
    }
  }

  lemma MedianFields(ws: seq<SnapshotDiff>, r: SnapshotDiff)
    requires ws != [] && IsMedianWindow(ws, r)
    ensures FieldsAreMedians(ws, r)
  {
    CounterMedianIsMedian((d: SnapshotDiff) => d.procsRunning, ws);
    CounterMedianIsMedian((d: SnapshotDiff) => d.procsBlocked, ws);
    CounterMedianIsMedian((d: SnapshotDiff) => d.contextSwitchesDelta, ws);
    CounterMedianIsMedian((d: SnapshotDiff) => d.processesCreatedDelta, ws);
    UtilMedianIsMedian(Map((d: SnapshotDiff) => d.totalCPUUtil, ws));
    CoresMeaning(ws, r.perCoreCPUUtil);
  }

  /** What MedianDiff returns for the windows that are there. */
  ghost predicate IsMedianDiff(diffs: seq<Option<SnapshotDiff>>, result: Option<SnapshotDiff>) {
    IsMedianOf(Present(diffs), result)
  }

  ghost predicate IsMedianOf(valid: seq<SnapshotDiff>, result: Option<SnapshotDiff>) {
    if |valid| == 0 then result == None
    else if |valid| == 1 then result == Some(valid[0])
    else result.Some? && IsMedianWindow(valid, result.value)
  }

  method MedianDiff(diffs: seq<Option<SnapshotDiff>>) returns (result: Option<SnapshotDiff>)
    ensures IsMedianDiff(diffs, result)
    ensures |Present(diffs)| > 1 ==> result.Some? && FieldsAreMedians(Present(diffs), result.value)
  {
    var valid := [];
    for i := 0 to |diffs|
      invariant valid == Present(diffs[..i])
    {
      assert diffs[..i + 1][..i] == diffs[..i];
      if diffs[i].Some? { valid := valid + [diffs[i].value]; }
    }
    assert diffs[..|diffs|] == diffs;
    if |valid| == 0 { return None; }
    if |valid| == 1 { return Some(valid[0]); }
    var r := MedianWindow(valid);
    return Some(r);
  }

  method MedianWindow(valid: seq<SnapshotDiff>) returns (r: SnapshotDiff)
    requires |valid| > 1
    ensures IsMedianWindow(valid, r) && FieldsAreMedians(valid, r)
  {
    var latest := valid[|valid| - 1];
    var jump := AnyClockJump(valid);
    var running := MedianOfCounters((d: SnapshotDiff) => d.procsRunning, valid);
    var blocked := MedianOfCounters((d: SnapshotDiff) => d.procsBlocked, valid);
    var switches := MedianOfCounters((d: SnapshotDiff) => d.contextSwitchesDelta, valid);
    var created := MedianOfCounters((d: SnapshotDiff) => d.processesCreatedDelta, valid);
    var total := MedianCPUUtil(Map((d: SnapshotDiff) => d.totalCPUUtil, valid));
    var perCore := MedianPerCoreCPUUtil(valid);
    var disks := MedianDiskDiffs(valid);
    var cgroups := MedianCgroupDiffs(valid);
    r := SnapshotDiff(latest.duration, latest.timestamp, jump, running, blocked, switches, created,
                      total, perCore, disks, cgroups, latest.processes, latest.latest);
    MedianFields(valid, r);
  }

  method AnyClockJump(ds: seq<SnapshotDiff>) returns (jump: bool)
    ensures jump == AnyJump(ds)
  {
    for i := 0 to |ds|
      invariant forall k :: 0 <= k < i ==> !ds[k].clockJumpDetected
    {
      if ds[i].clockJumpDetected {
        assert ds[i] in ds;
        return true;
      }
    }
    return false;
  }

  // ---------------------------------------------------------------- What the aggregate promises

  /** The merged list is the latest window's, restricted to the keys counted once per window. */
  lemma {:induction false} MergeKeysCounted<S(!new), K(!new)>(
    key: S -> K, merge: (S, seq<Option<S>>) -> S, lists: seq<seq<S>>, bases: seq<S>, counted: K -> bool)
    requires forall b, f :: key(merge(b, f)) == key(b)
    requires forall k :: counted(k) <==> CountInAll(key, lists, k) == |lists|
    ensures Map(key, MergeCommon(key, merge, lists, bases)) == Filter(counted, Map(key, bases))
  {
    if bases != [] {
      var n := |bases| - 1;
      var base := bases[n];
      MergeKeysCounted(key, merge, lists, bases[..n], counted);
      assert Map(key, bases)[..n] == Map(key, bases[..n]);
      var front := MergeCommon(key, merge, lists, bases[..n]);
      if counted(key(base)) {
        var m := merge(base, Samples(key, lists, key(base)));
        assert MergeCommon(key, merge, lists, bases) == front + [m];
        assert Map(key, front + [m]) == Map(key, front) + [key(base)];
      } else {
        assert MergeCommon(key, merge, lists, bases) == front;
      }
    }
  }

  /** With unique keys those are the keys that every window mentions. */
  lemma MergeKeys<S(!new), K(!new)>(
    key: S -> K, merge: (S, seq<Option<S>>) -> S, lists: seq<seq<S>>, bases: seq<S>, common: K -> bool)
    requires forall b, f :: key(merge(b, f)) == key(b)
    requires forall i :: 0 <= i < |lists| ==> Unique(key, lists[i])
    requires forall k :: common(k) <==> InEvery(key, lists, k)
    ensures Map(key, MergeCommon(key, merge, lists, bases)) == Filter(common, Map(key, bases))
  {
    forall k ensures common(k) <==> CountInAll(key, lists, k) == |lists| { CountIsIntersection(key, lists, k); }
    MergeKeysCounted(key, merge, lists, bases, common);
  }

  lemma FiltersAgree<T>(p: T -> bool, q: T -> bool, s: seq<T>)
    ensures Filter(p, s) == Filter(q, s) <==> (forall x :: x in s ==> (p(x) <==> q(x)))
  {
    FilterElements(p, s);
    FilterElements(q, s);
    if forall x :: x in s ==> (p(x) <==> q(x)) {
      FilterFilter(p, p, q, s);
      FilterAll(p, Filter(p, s));
    }
  }

  /** The keys of a merge: those it counted, and those that every list really has. */
  ghost function Counted<S(!new), K(!new)>(key: S -> K, lists: seq<seq<S>>): K -> bool {
    k => CountInAll(key, lists, k) == |lists|
  }

  ghost function Everywhere<S(!new), K(!new)>(key: S -> K, lists: seq<seq<S>>): K -> bool {
    k => InEvery(key, lists, k)
  }

  /** Repeats allowed, the merged list is the intersection exactly when the counts agree for every latest key. */
  lemma MergeKeysIff<S(!new), K(!new)>(
    key: S -> K, merge: (S, seq<Option<S>>) -> S, lists: seq<seq<S>>, bases: seq<S>)
    requires forall b, f :: key(merge(b, f)) == key(b)
    ensures Map(key, MergeCommon(key, merge, lists, bases)) == Filter(Everywhere(key, lists), Map(key, bases))
      <==> (forall k :: k in Map(key, bases) ==> CountsAgree(key, lists, k))
  {
    MergeKeysCounted(key, merge, lists, bases, Counted(key, lists));
    FiltersAgree(Counted(key, lists), Everywhere(key, lists), Map(key, bases));
    forall k ensures (Counted(key, lists)(k) <==> Everywhere(key, lists)(k)) <==> CountsAgree(key, lists, k) {
      CountAgreesIff(key, lists, k);
    }
  }

  /**
    A latest list that repeats a name stands in for an earlier one that lacks it: the name is
    reported, twice, from samples of which one is missing and reads as zero.
  */
  lemma RepeatsFoolTheMerge(d: DiskDeviceDiff)
    ensures var lists := [[], [d, d]];
      && !InEvery(DiskDiffName, lists, d.name)
      && DiskMedians(lists) == [MergeDisk(d, [None, Some(d)]), MergeDisk(d, [None, Some(d)])]
  {
    var lists: seq<seq<DiskDeviceDiff>> := [[], [d, d]];
    assert !Mentions(DiskDiffName, lists[0], d.name);
    assert [d, d][..1] == [d] && [d][..0] == [] && lists[..1] == [[]] && lists[..1][..0] == [];
    assert CountKey(DiskDiffName, [d], d.name) == 1 && CountKey(DiskDiffName, [d, d], d.name) == 2;
    assert CountInAll(DiskDiffName, lists[..1], d.name) == 0;
    assert Samples(DiskDiffName, lists, d.name) == [None, Some(d)];
    assert MergeCommon(DiskDiffName, MergeDisk, lists, [d]) == [MergeDisk(d, [None, Some(d)])];
  }

  /** Each merged record comes from a base of the latest window, and each of its samples was really found. */
  lemma {:induction false} MergeRecords<S(!new), K(!new)>(
    key: S -> K, merge: (S, seq<Option<S>>) -> S, lists: seq<seq<S>>, bases: seq<S>, m: S)
    requires forall i :: 0 <= i < |lists| ==> Unique(key, lists[i])
    requires m in MergeCommon(key, merge, lists, bases)
    ensures exists base :: (base in bases && m == merge(base, Samples(key, lists, key(base)))
      && forall i :: 0 <= i < |lists| ==> Samples(key, lists, key(base))[i].Some?)
  {
    var n := |bases| - 1;
    var base := bases[n];
    if m in MergeCommon(key, merge, lists, bases[..n]) {
      MergeRecords(key, merge, lists, bases[..n], m);
      var b :| b in bases[..n] && m == merge(b, Samples(key, lists, key(b)))
        && forall i :: 0 <= i < |lists| ==> Samples(key, lists, key(b))[i].Some?;
      assert b in bases;
    } else {
      CountIsIntersection(key, lists, key(base));
      forall i | 0 <= i < |lists| ensures Samples(key, lists, key(base))[i].Some? {
        assert Mentions(key, lists[i], key(base));
        FindFirstFinds(key, lists[i], key(base));
      }
    }
  }

  lemma {:induction false} MergeKnowsKeys<S(!new), K(!new)>(
    key: S -> K, merge: (S, seq<Option<S>>) -> S, lists: seq<seq<S>>, bases: seq<S>, k: K)
    requires forall b, f :: key(merge(b, f)) == key(b)
    requires Mentions(key, MergeCommon(key, merge, lists, bases), k)
    ensures Mentions(key, bases, k)
  {
    var n := |bases| - 1;
    assert bases == bases[..n] + [bases[n]];
    MentionsAppend(key, bases[..n], bases[n], k);
    var front := MergeCommon(key, merge, lists, bases[..n]);
    var m := merge(bases[n], Samples(key, lists, key(bases[n])));
    MentionsAppend(key, front, m, k);
    if key(bases[n]) != k {
      assert front + [] == front;
      MergeKnowsKeys(key, merge, lists, bases[..n], k);
    }
  }

  lemma {:induction false} MergeIsUnique<S(!new), K(!new)>(
    key: S -> K, merge: (S, seq<Option<S>>) -> S, lists: seq<seq<S>>, bases: seq<S>)
    requires forall b, f :: key(merge(b, f)) == key(b)
    requires Unique(key, bases)
    ensures Unique(key, MergeCommon(key, merge, lists, bases))
  {
    if bases != [] {
      var n := |bases| - 1;
      MergeIsUnique(key, merge, lists, bases[..n]);
      var front := MergeCommon(key, merge, lists, bases[..n]);
      var all := MergeCommon(key, merge, lists, bases);
      assert front + [] == front;
      assert !Mentions(key, bases[..n], key(bases[n]));
      if Mentions(key, front, key(bases[n])) {
        MergeKnowsKeys(key, merge, lists, bases[..n], key(bases[n]));
      }
    }
  }

  lemma {:induction false} MergeHas<S(!new), K(!new)>(
    key: S -> K, merge: (S, seq<Option<S>>) -> S, lists: seq<seq<S>>, bases: seq<S>, base: S)
    requires base in bases && CountInAll(key, lists, key(base)) == |lists|
    ensures merge(base, Samples(key, lists, key(base))) in MergeCommon(key, merge, lists, bases)
  {
    var n := |bases| - 1;
    if base != bases[n] {
      assert base in bases[..n];
      MergeHas(key, merge, lists, bases[..n], base);
    }
  }

  /** Every merged record is some base merged with its samples. */
  lemma {:induction false} MergedFrom<S(!new), K(!new)>(
    key: S -> K, merge: (S, seq<Option<S>>) -> S, lists: seq<seq<S>>, bases: seq<S>, m: S) returns (base: S)
    requires m in MergeCommon(key, merge, lists, bases)
    ensures base in bases && m == merge(base, Samples(key, lists, key(base)))
  {
    var n := |bases| - 1;
    if m in MergeCommon(key, merge, lists, bases[..n]) {
      base := MergedFrom(key, merge, lists, bases[..n], m);
    } else {
      base := bases[n];
    }
  }

  /** With unique keys, looking up a key that every list has gives its base merged with its samples. */
  lemma MergeLookup<S(!new), K(!new)>(
    key: S -> K, merge: (S, seq<Option<S>>) -> S, lists: seq<seq<S>>, bases: seq<S>, base: S)
    requires forall b, f :: key(merge(b, f)) == key(b)
    requires forall i :: 0 <= i < |lists| ==> Unique(key, lists[i])
    requires Unique(key, bases) && base in bases && InEvery(key, lists, key(base))
    ensures FindFirst(key, MergeCommon(key, merge, lists, bases), key(base))
         == Some(merge(base, Samples(key, lists, key(base))))
  {
    CountIsIntersection(key, lists, key(base));
    MergeHas(key, merge, lists, bases, base);
    MergeIsUnique(key, merge, lists, bases);
    UniqueFind(key, MergeCommon(key, merge, lists, bases), merge(base, Samples(key, lists, key(base))));
  }

  // ---------------------------------------------------------------- One window is its own median

  lemma UtilMedianOfOne(u: CPUUtilization)
    ensures UtilMedian([u]) == u
  {}

  lemma MergeDiskOfOne(d: DiskDeviceDiff)
    ensures MergeDisk(d, [Some(d)]) == d
  {}

  lemma MergeCgroupOfOne(c: CgroupDiff)
    ensures MergeCgroup(c, [Some(c)]) == c
  {}

  lemma {:induction false} MergeOfOne<S(!new), K(!new)>(
    key: S -> K, merge: (S, seq<Option<S>>) -> S, list: seq<S>, n: nat)
    requires Unique(key, list) && n <= |list| && forall x :: merge(x, [Some(x)]) == x
    ensures MergeCommon(key, merge, [list], list[..n]) == list[..n]
  {
    if n > 0 {
      var x := list[n - 1];
      MergeOfOne(key, merge, list, n - 1);
      assert list[..n][..n - 1] == list[..n - 1] && list[..n] == list[..n - 1] + [x];
      UniqueFind(key, list, x);
      CountIsIntersection(key, [list], key(x));
      assert Mentions(key, list, key(x));
      assert Samples(key, [list], key(x)) == [Some(x)];
    }
  }

  lemma DisksOfOne(d: SnapshotDiff)
    requires Unique(DiskDiffName, d.disks)
    ensures DiskMedians(DisksOf([d])) == d.disks
  {
    forall x ensures MergeDisk(x, [Some(x)]) == x { MergeDiskOfOne(x); }
    MergeOfOne(DiskDiffName, MergeDisk, d.disks, |d.disks|);
    assert DisksOf([d]) == [d.disks] && d.disks[..|d.disks|] == d.disks;
  }

  lemma CgroupsOfOne(d: SnapshotDiff)
    requires Unique(CgroupDiffPath, d.cgroups)
    ensures CgroupMedians(CgroupsOf([d])) == d.cgroups
  {
    forall x ensures MergeCgroup(x, [Some(x)]) == x { MergeCgroupOfOne(x); }
    MergeOfOne(CgroupDiffPath, MergeCgroup, d.cgroups, |d.cgroups|);
    assert CgroupsOf([d]) == [d.cgroups] && d.cgroups[..|d.cgroups|] == d.cgroups;
  }

  /** The short cut for a single window returns what the general case would. */
  lemma OneWindowIsItsMedian(d: SnapshotDiff)
    requires Unique(DiskDiffName, d.disks) && Unique(CgroupDiffPath, d.cgroups)
    ensures IsMedianWindow([d], d)
  {
    assert Map((x: SnapshotDiff) => x.totalCPUUtil, [d]) == [d.totalCPUUtil];
    UtilMedianOfOne(d.totalCPUUtil);
    DisksOfOne(d);
    CgroupsOfOne(d);
  }
}
