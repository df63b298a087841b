/**
  Sampling over several windows: every window takes two snapshots of its own, and the windows
  that could be taken are aggregated.
*/
module Sampling {
  import opened Wrappers
  import opened Differential
  import opened Sorting
  import opened Joins
  import opened OrderStatistics
  import opened Windows
  import opened MedianWindows

  /** The two snapshots of one window. */
  datatype Sample = Sample(before: Snapshot, after: Snapshot)

  /** The snapshots that could be taken. */
  function Successful(captures: seq<Option<Sample>>): seq<Sample> {
    if captures == [] then []
    else
      var last := captures[|captures| - 1];
      Successful(captures[..|captures| - 1]) + (if last.Some? then [last.value] else [])
  }

  /** The snapshots taken, in order. */
  lemma {:induction false} SuccessfulKeepsOrder(captures: seq<Option<Sample>>)
    ensures Map((s: Sample) => Some(s), Successful(captures)) == Filter((o: Option<Sample>) => o.Some?, captures)
  {
    if captures != [] {
      var n := |captures| - 1;
      SuccessfulKeepsOrder(captures[..n]);
      var front, all := Successful(captures[..n]), Successful(captures);
      if captures[n].Some? {
        assert all == front + [captures[n].value];
        assert Map((s: Sample) => Some(s), all) == Map((s: Sample) => Some(s), front) + [captures[n]];
      } else {
        assert all == front;
      }
    }
  }

  ghost function Window(s: Sample): SnapshotDiff { WindowOf(s.before, s.after) }

  ghost function WindowsOf(samples: seq<Sample>): (ws: seq<SnapshotDiff>)
    ensures |ws| == |samples|
  {
    Map((s: Sample) => Window(s), samples)
  }

  lemma WindowAt(samples: seq<Sample>, i: nat)
    requires i < |samples|
    ensures WindowsOf(samples)[i] == WindowOf(samples[i].before, samples[i].after)
  {}

  /** A failed snapshot loses the window. */
  method CaptureDifferential(taken: Option<Sample>) returns (diff: Option<SnapshotDiff>)
    ensures taken == None ==> diff == None
    ensures taken.Some? ==> diff == Some(Window(taken.value))
  {
    if taken == None { return None; }
    var d := DiffSnapshots(taken.value.before, taken.value.after);
    diff := Some(d);
  }

  lemma SuccessfulStep(captures: seq<Option<Sample>>, i: nat)
    requires i < |captures|
    ensures Successful(captures[..i + 1])
         == Successful(captures[..i]) + (if captures[i].Some? then [captures[i].value] else [])
  {
    assert captures[..i + 1][..i] == captures[..i];
  }

  /** The windows collected so far, after one more capture. */
  lemma CaptureStep(diffs: seq<Option<SnapshotDiff>>, samples: seq<Sample>, s: Sample)
    requires Present(diffs) == WindowsOf(samples)
    ensures Present(diffs + [Some(Window(s))]) == WindowsOf(samples + [s])
  {
    var d := Window(s);
    assert (diffs + [Some(d)])[..|diffs|] == diffs;
    assert WindowsOf(samples + [s]) == WindowsOf(samples) + [d];
  }

  method CaptureNext(diffs: seq<Option<SnapshotDiff>>, taken: Option<Sample>, ghost samples: seq<Sample>)
    returns (diffs': seq<Option<SnapshotDiff>>)
    requires Present(diffs) == WindowsOf(samples)
    ensures Present(diffs') == WindowsOf(samples + if taken.Some? then [taken.value] else [])
  {
    diffs' := diffs;
    var diff := CaptureDifferential(taken);
    if diff.Some? {
      CaptureStep(diffs, samples, taken.value);
      diffs' := diffs + [diff];
    } else {
      assert samples + [] == samples;
    }
  }

  /** What was captured is reported by its median. */
  ghost predicate IsReportOf(captures: seq<Option<Sample>>, result: Option<SnapshotDiff>) {
    IsMedianOf(WindowsOf(Successful(captures)), result)
  }

  lemma ReportOfOne(taken: Option<Sample>)
    ensures taken == None ==> IsReportOf([taken], None)
    ensures taken.Some? ==> IsReportOf([taken], Some(Window(taken.value)))
  {
    SuccessfulStep([taken], 0);
    assert [taken][..1] == [taken];
    if taken.Some? { assert WindowsOf([taken.value]) == [Window(taken.value)]; }
  }

  /** The median of the windows, unless the context was found done before one of them. */
  method CaptureSeveral(captures: seq<Option<Sample>>, cancelled: seq<bool>) returns (result: Option<SnapshotDiff>)
    requires |captures| == |cancelled|
    ensures true in cancelled ==> result == None
    ensures true !in cancelled ==> IsReportOf(captures, result)
  {
    var diffs: seq<Option<SnapshotDiff>> := [];
    for i := 0 to |captures|
      invariant Present(diffs) == WindowsOf(Successful(captures[..i]))
      invariant true !in cancelled[..i]
    {
      if cancelled[i] { return None; }
      SuccessfulStep(captures, i);
      diffs := CaptureNext(diffs, captures[i], Successful(captures[..i]));
    }
    assert captures[..|captures|] == captures && cancelled[..|captures|] == cancelled;
    result := MedianDiff(diffs);
  }

  /** `cancelled[i]` tells whether the context was found done before the i-th window. */
  method CaptureSamples(samples: int, captures: seq<Option<Sample>>, cancelled: seq<bool>)
    returns (result: Option<SnapshotDiff>)
    requires |captures| == |cancelled| == if samples <= 1 then 1 else samples
    ensures samples > 1 && true in cancelled ==> result == None
    ensures samples <= 1 || true !in cancelled ==> IsReportOf(captures, result)
  {
    if samples <= 1 {
      ReportOfOne(captures[0]);
      assert captures == [captures[0]];
      result := CaptureDifferential(captures[0]);
    } else {
      result := CaptureSeveral(captures, cancelled);
    }
  }

  // ---------------------------------------------------------------- What the aggregate promises

  lemma OneSample(samples: seq<Sample>)
    requires |samples| == 1 && UniqueDisks(samples) && UniqueCgroups(samples)
    ensures IsMedianWindow(WindowsOf(samples), WindowsOf(samples)[0])
  {
    var a, b := samples[0].before, samples[0].after;
    WindowAt(samples, 0);
    DiskWindowMentions(a, b);
    CgroupWindowMentions(a, b);
    OneWindowIsItsMedian(WindowOf(a, b));
    assert WindowsOf(samples) == [WindowOf(a, b)];
  }

  /** One window or many: what is reported is the field-wise median of the windows taken. */
  lemma SampledMedian(samples: seq<Sample>)
    requires UniqueDisks(samples) && UniqueCgroups(samples)
    ensures forall result :: IsMedianOf(WindowsOf(samples), result) ==>
      && (result == None <==> samples == [])
      && (samples != [] ==> IsMedianWindow(WindowsOf(samples), result.value))
  {
    if |samples| == 1 { OneSample(samples); }
  }

  /** Every machine-wide number of the report is a median over the windows taken. */
  lemma SampledFields(samples: seq<Sample>)
    requires samples != [] && UniqueDisks(samples) && UniqueCgroups(samples)
    ensures forall result :: IsMedianOf(WindowsOf(samples), result) ==>
      result.Some? && FieldsAreMedians(WindowsOf(samples), result.value)
  {
    SampledMedian(samples);
    var ws := WindowsOf(samples);
    forall result | IsMedianOf(ws, result) ensures result.Some? && FieldsAreMedians(ws, result.value) {
      MedianFields(ws, result.value);
    }
  }

  /** k is known at both ends of every window. */
  ghost function AtEveryEnd<A(!new), K(!new)>(key: A -> K, befores: seq<seq<A>>, afters: seq<seq<A>>): K -> bool {
    k => InEvery(key, befores, k) && InEvery(key, afters, k)
  }

  /** lists[i] names, once each, exactly what befores[i] and afters[i] both name. */
  ghost predicate Joined<A(!new), C(!new), K(!new)>(
    keyA: A -> K, keyC: C -> K, befores: seq<seq<A>>, afters: seq<seq<A>>, lists: seq<seq<C>>)
  {
    && |befores| == |afters| == |lists| > 0
    && (forall i :: 0 <= i < |lists| ==> Unique(keyC, lists[i]))
    && forall i, k :: 0 <= i < |lists| ==>
      (Mentions(keyC, lists[i], k) <==> (Mentions(keyA, befores[i], k) && Mentions(keyA, afters[i], k)))
  }

  lemma JoinedEverywhere<A(!new), C(!new), K(!new)>(
    keyA: A -> K, keyC: C -> K, befores: seq<seq<A>>, afters: seq<seq<A>>, lists: seq<seq<C>>, k: K)
    requires Joined(keyA, keyC, befores, afters, lists)
    ensures InEvery(keyC, lists, k) <==> InEvery(keyA, befores, k) && InEvery(keyA, afters, k)
  {
    if InEvery(keyC, lists, k) {
      forall i | 0 <= i < |lists| ensures Mentions(keyA, befores[i], k) && Mentions(keyA, afters[i], k) {
        assert Mentions(keyC, lists[i], k);
      }
    } else {
      var i :| 0 <= i < |lists| && !Mentions(keyC, lists[i], k);
      assert !(Mentions(keyA, befores[i], k) && Mentions(keyA, afters[i], k));
    }
  }

  /** The merged names are the last snapshot's names that are known at both ends of every window. */
  lemma MergedNames<A(!new), C(!new), K(!new)>(
    keyA: A -> K, keyC: C -> K, merge: (C, seq<Option<C>>) -> C,
    befores: seq<seq<A>>, afters: seq<seq<A>>, lists: seq<seq<C>>, inLast: K -> bool)
    requires forall b, f :: keyC(merge(b, f)) == keyC(b)
    requires Joined(keyA, keyC, befores, afters, lists)
    requires forall k :: inLast(k) <==> Mentions(keyA, befores[|lists| - 1], k)
    requires Map(keyC, lists[|lists| - 1]) == Filter(inLast, Map(keyA, afters[|lists| - 1]))
    ensures Map(keyC, MergeCommon(keyC, merge, lists, lists[|lists| - 1]))
         == Filter(AtEveryEnd(keyA, befores, afters), Map(keyA, afters[|lists| - 1]))
  {
    var all := AtEveryEnd(keyA, befores, afters);
    forall k ensures all(k) <==> InEvery(keyC, lists, k) {
      JoinedEverywhere(keyA, keyC, befores, afters, lists, k);
    }
    MergeKeys(keyC, merge, lists, lists[|lists| - 1], all);
    FilterFilter(all, inLast, all, Map(keyA, afters[|lists| - 1]));
  }

  function DisksBefore(samples: seq<Sample>): seq<seq<DiskDeviceStat>> { Map((s: Sample) => s.before.disks, samples) }
  function DisksAfter(samples: seq<Sample>): seq<seq<DiskDeviceStat>> { Map((s: Sample) => s.after.disks, samples) }
  function CgroupsBefore(samples: seq<Sample>): seq<seq<CgroupEntry>> { Map((s: Sample) => s.before.cgroups, samples) }
  function CgroupsAfter(samples: seq<Sample>): seq<seq<CgroupEntry>> { Map((s: Sample) => s.after.cgroups, samples) }

  ghost predicate AreDiskWindows(lists: seq<seq<DiskDeviceDiff>>, samples: seq<Sample>) {
    && |lists| == |samples|
    && forall i :: 0 <= i < |samples| ==> lists[i] == DiskWindow(samples[i].before, samples[i].after)
  }

  ghost predicate AreCgroupWindows(lists: seq<seq<CgroupDiff>>, samples: seq<Sample>) {
    && |lists| == |samples|
    && forall i :: 0 <= i < |samples| ==> lists[i] == CgroupWindow(samples[i].before, samples[i].after)
  }

  lemma ListsOfWindows(samples: seq<Sample>)
    ensures AreDiskWindows(DisksOf(WindowsOf(samples)), samples)
    ensures AreCgroupWindows(CgroupsOf(WindowsOf(samples)), samples)
  {
    forall i: nat | i < |samples|
      ensures DisksOf(WindowsOf(samples))[i] == DiskWindow(samples[i].before, samples[i].after)
      ensures CgroupsOf(WindowsOf(samples))[i] == CgroupWindow(samples[i].before, samples[i].after)
    {
      WindowAt(samples, i);
    }
  }

  ghost predicate UniqueDisks(samples: seq<Sample>) {
    forall i :: 0 <= i < |samples| ==> Unique(DiskStatName, samples[i].after.disks)
  }

  ghost predicate UniqueCgroups(samples: seq<Sample>) {
    forall i :: 0 <= i < |samples| ==> Unique(CgroupEntryPath, samples[i].after.cgroups)
  }

  lemma DisksJoined(samples: seq<Sample>, lists: seq<seq<DiskDeviceDiff>>)
    requires samples != [] && UniqueDisks(samples) && AreDiskWindows(lists, samples)
    ensures Joined(DiskStatName, DiskDiffName, DisksBefore(samples), DisksAfter(samples), lists)
  {
    forall i: nat | i < |samples| ensures Unique(DiskDiffName, lists[i]) {
      DiskWindowMentions(samples[i].before, samples[i].after);
    }
    forall i, k | 0 <= i < |samples|
      ensures Mentions(DiskDiffName, lists[i], k)
        <==> (Mentions(DiskStatName, samples[i].before.disks, k) && Mentions(DiskStatName, samples[i].after.disks, k))
    {
      DiskWindowMentions(samples[i].before, samples[i].after);
    }
  }

  lemma CgroupsJoined(samples: seq<Sample>, lists: seq<seq<CgroupDiff>>)
    requires samples != [] && UniqueCgroups(samples) && AreCgroupWindows(lists, samples)
    ensures Joined(CgroupEntryPath, CgroupDiffPath, CgroupsBefore(samples), CgroupsAfter(samples), lists)
  {
    forall i: nat | i < |samples| ensures Unique(CgroupDiffPath, lists[i]) {
      CgroupWindowMentions(samples[i].before, samples[i].after);
    }
    forall i, k | 0 <= i < |samples|
      ensures Mentions(CgroupDiffPath, lists[i], k)
        <==> (Mentions(CgroupEntryPath, samples[i].before.cgroups, k)
              && Mentions(CgroupEntryPath, samples[i].after.cgroups, k))
    {
      CgroupWindowMentions(samples[i].before, samples[i].after);
    }
  }

  lemma MergedDiskNames(samples: seq<Sample>, lists: seq<seq<DiskDeviceDiff>>)
    requires samples != [] && UniqueDisks(samples) && AreDiskWindows(lists, samples)
    ensures Map(DiskDiffName, DiskMedians(lists))
         == Filter(AtEveryEnd(DiskStatName, DisksBefore(samples), DisksAfter(samples)),
                   Map(DiskStatName, samples[|samples| - 1].after.disks))
  {
    var last := samples[|samples| - 1];
    var inLast := (k: string) => Mentions(DiskStatName, last.before.disks, k);
    DisksJoined(samples, lists);
    JoinKeys(DiskStatName, DiskStatName, DiskDiffName, DiskMaker(DurationMS(Elapsed(last.before, last.after))),
             last.before.disks, last.after.disks, inLast);
    MergedNames(DiskStatName, DiskDiffName, MergeDisk, DisksBefore(samples), DisksAfter(samples), lists, inLast);
  }

  lemma MergedCgroupNames(samples: seq<Sample>, lists: seq<seq<CgroupDiff>>)
    requires samples != [] && UniqueCgroups(samples) && AreCgroupWindows(lists, samples)
    ensures Map(CgroupDiffPath, CgroupMedians(lists))
         == Filter(AtEveryEnd(CgroupEntryPath, CgroupsBefore(samples), CgroupsAfter(samples)),
                   Map(CgroupEntryPath, samples[|samples| - 1].after.cgroups))
  {
    var last := samples[|samples| - 1];
    var inLast := (k: string) => Mentions(CgroupEntryPath, last.before.cgroups, k);
    CgroupsJoined(samples, lists);
    JoinKeys(CgroupEntryPath, CgroupEntryPath, CgroupDiffPath, CgroupDelta,
             last.before.cgroups, last.after.cgroups, inLast);
    MergedNames(CgroupEntryPath, CgroupDiffPath, MergeCgroup, CgroupsBefore(samples), CgroupsAfter(samples),
                lists, inLast);
  }

  /** The disk list names the last snapshot's devices that both snapshots of every window have, in order. */
  lemma AggregateDiskNames(samples: seq<Sample>)
    requires samples != [] && UniqueDisks(samples)
    ensures Map(DiskDiffName, DiskMedians(DisksOf(WindowsOf(samples))))
         == Filter(AtEveryEnd(DiskStatName, DisksBefore(samples), DisksAfter(samples)),
                   Map(DiskStatName, samples[|samples| - 1].after.disks))
  {
    ListsOfWindows(samples);
    MergedDiskNames(samples, DisksOf(WindowsOf(samples)));
  }

  /** And so does the cgroup list. */
  lemma AggregateCgroupNames(samples: seq<Sample>)
    requires samples != [] && UniqueCgroups(samples)
    ensures Map(CgroupDiffPath, CgroupMedians(CgroupsOf(WindowsOf(samples))))
         == Filter(AtEveryEnd(CgroupEntryPath, CgroupsBefore(samples), CgroupsAfter(samples)),
                   Map(CgroupEntryPath, samples[|samples| - 1].after.cgroups))
  {
    ListsOfWindows(samples);
    MergedCgroupNames(samples, CgroupsOf(WindowsOf(samples)));
  }

  // ---------------------------------------------------------------- Every field is a median

  function Found<S>(x: S): Option<S> { Some(x) }

  lemma RealsFound<S>(f: S -> real, readings: seq<S>)
    ensures RealMedian(OrZero(f), Map(Found, readings)) == RealMedian(f, readings)
  {
    assert Map(OrZero(f), Map(Found, readings)) == Map(f, readings);
  }

  lemma CounterMedianIs<S>(f: S -> Counter, samples: seq<S>, vals: seq<int>)
    requires |vals| == |samples| && forall i :: 0 <= i < |samples| ==> vals[i] == f(samples[i])
    ensures CounterMedian(f, samples) == Median(IntLe, 0, vals)
  {
    assert Map((x: S) => f(x) as int, samples) == vals;
  }

  lemma CountersFound<S>(f: S -> Counter, readings: seq<S>)
    ensures CounterMedian(OrZeroCounter(f), Map(Found, readings)) == CounterMedian(f, readings)
  {
    CounterMedianIs(OrZeroCounter(f), Map(Found, readings), Map((x: S) => f(x) as int, readings));
    CounterMedianIs(f, readings, Map((x: S) => f(x) as int, readings));
  }

  /** What every window says about k, in one merged record. */
  lemma MergedReadings<S(!new), K(!new)>(
    key: S -> K, merge: (S, seq<Option<S>>) -> S, lists: seq<seq<S>>, readings: seq<S>, k: K)
    requires forall b, f :: key(merge(b, f)) == key(b)
    requires |lists| == |readings| > 0 && forall i :: 0 <= i < |lists| ==> Unique(key, lists[i])
    requires forall i :: 0 <= i < |lists| ==> FindFirst(key, lists[i], k) == Some(readings[i])
    ensures FindFirst(key, MergeCommon(key, merge, lists, lists[|lists| - 1]), k)
         == Some(merge(readings[|lists| - 1], Map(Found, readings)))
  {
    forall i | 0 <= i < |lists| ensures Mentions(key, lists[i], k) { FindFirstFinds(key, lists[i], k); }
    assert Samples(key, lists, k) == Map(Found, readings);
    var n := |lists| - 1;
    FindFirstFinds(key, lists[n], k);
    MergeLookup(key, merge, lists, lists[n], readings[n]);
  }

  /** d is the differential of the two readings of device k in one window. */
  ghost predicate IsDiskReading(s: Sample, k: string, d: DiskDeviceDiff) {
    exists x, y :: x in s.before.disks && y in s.after.disks && x.name == k && y.name == k
      && d == DiskDelta(DurationMS(Elapsed(s.before, s.after)), x, y)
  }

  function MedianReading(readings: seq<DiskDeviceDiff>): DiskDeviceDiff
    requires readings != []
  {
    readings[|readings| - 1].(
      utilPercent := RealMedian((d: DiskDeviceDiff) => d.utilPercent, readings),
      avgReadLatencyMS := RealMedian((d: DiskDeviceDiff) => d.avgReadLatencyMS, readings),
      avgWriteLatencyMS := RealMedian((d: DiskDeviceDiff) => d.avgWriteLatencyMS, readings),
      avgQueueLatencyMS := RealMedian((d: DiskDeviceDiff) => d.avgQueueLatencyMS, readings),
      readBytes := CounterMedian((d: DiskDeviceDiff) => d.readBytes, readings),
      writeBytes := CounterMedian((d: DiskDeviceDiff) => d.writeBytes, readings))
  }

  lemma MergedDiskReadings(readings: seq<DiskDeviceDiff>)
    requires readings != []
    ensures MergeDisk(readings[|readings| - 1], Map(Found, readings)) == MedianReading(readings)
  {
    RealsFound((d: DiskDeviceDiff) => d.utilPercent, readings);
    RealsFound((d: DiskDeviceDiff) => d.avgReadLatencyMS, readings);
    RealsFound((d: DiskDeviceDiff) => d.avgWriteLatencyMS, readings);
    RealsFound((d: DiskDeviceDiff) => d.avgQueueLatencyMS, readings);
    CountersFound((d: DiskDeviceDiff) => d.readBytes, readings);
    CountersFound((d: DiskDeviceDiff) => d.writeBytes, readings);
  }

  lemma DiskFound(s: Sample, k: string, d: DiskDeviceDiff)
    requires Unique(DiskStatName, s.before.disks) && Unique(DiskStatName, s.after.disks)
    ensures IsDiskReading(s, k, d) ==>
      FindFirst(DiskDiffName, DiskWindow(s.before, s.after), k) == Some(d) && 0.0 <= d.utilPercent <= 100.0
  {
    if IsDiskReading(s, k, d) {
      var x, y :| x in s.before.disks && y in s.after.disks && x.name == k && y.name == k
        && d == DiskDelta(DurationMS(Elapsed(s.before, s.after)), x, y);
      WindowDisk(s.before, s.after, x, y);
    }
  }

  /** Four percentages and latencies and two byte counts are medians, the rest is the last reading's. */
  ghost predicate IsDiskMedian(readings: seq<DiskDeviceDiff>, m: DiskDeviceDiff)
    requires readings != []
  {
    && IsMedian(RealLe, Map((d: DiskDeviceDiff) => d.utilPercent, readings), m.utilPercent)
    && IsMedian(RealLe, Map((d: DiskDeviceDiff) => d.avgReadLatencyMS, readings), m.avgReadLatencyMS)
    && IsMedian(RealLe, Map((d: DiskDeviceDiff) => d.avgWriteLatencyMS, readings), m.avgWriteLatencyMS)
    && IsMedian(RealLe, Map((d: DiskDeviceDiff) => d.avgQueueLatencyMS, readings), m.avgQueueLatencyMS)
    && IsMedian(IntLe, Ints((d: DiskDeviceDiff) => d.readBytes, readings), m.readBytes)
    && IsMedian(IntLe, Ints((d: DiskDeviceDiff) => d.writeBytes, readings), m.writeBytes)
    && var last := readings[|readings| - 1];
      && m.name == last.name && m.iosInProgress == last.iosInProgress && m.readsCompleted == last.readsCompleted
      && m.writesCompleted == last.writesCompleted && m.weightedIOTicks == last.weightedIOTicks
  }

  lemma MedianReadingIsMedian(readings: seq<DiskDeviceDiff>)
    requires readings != []
    ensures IsDiskMedian(readings, MedianReading(readings))
  {
    RealMedianIsMedian((d: DiskDeviceDiff) => d.utilPercent, readings);
    RealMedianIsMedian((d: DiskDeviceDiff) => d.avgReadLatencyMS, readings);
    RealMedianIsMedian((d: DiskDeviceDiff) => d.avgWriteLatencyMS, readings);
    RealMedianIsMedian((d: DiskDeviceDiff) => d.avgQueueLatencyMS, readings);
    CounterMedianIsMedian((d: DiskDeviceDiff) => d.readBytes, readings);
    CounterMedianIsMedian((d: DiskDeviceDiff) => d.writeBytes, readings);
  }

  ghost predicate AreDiskReadings(samples: seq<Sample>, k: string, readings: seq<DiskDeviceDiff>) {
    |readings| == |samples| && forall i :: 0 <= i < |samples| ==> IsDiskReading(samples[i], k, readings[i])
  }

  ghost predicate UniqueDisksBefore(samples: seq<Sample>) {
    forall i :: 0 <= i < |samples| ==> Unique(DiskStatName, samples[i].before.disks)
  }

  lemma DisksFound(
    samples: seq<Sample>, lists: seq<seq<DiskDeviceDiff>>, k: string, readings: seq<DiskDeviceDiff>)
    requires UniqueDisks(samples) && UniqueDisksBefore(samples) && AreDiskWindows(lists, samples)
    requires AreDiskReadings(samples, k, readings)
    ensures forall i :: 0 <= i < |lists| ==> FindFirst(DiskDiffName, lists[i], k) == Some(readings[i])
    ensures forall d :: d in readings ==> 0.0 <= d.utilPercent <= 100.0
  {
    forall i: nat | i < |samples|
      ensures FindFirst(DiskDiffName, lists[i], k) == Some(readings[i]) && 0.0 <= readings[i].utilPercent <= 100.0
    {
      DiskFound(samples[i], k, readings[i]);
    }
  }

  /** A device read in every window is reported with the medians of exactly those n readings. */
  lemma AggregateDiskFields(samples: seq<Sample>, k: string, readings: seq<DiskDeviceDiff>)
    requires samples != [] && UniqueDisks(samples) && UniqueDisksBefore(samples)
    requires AreDiskReadings(samples, k, readings)
    ensures FindFirst(DiskDiffName, DiskMedians(DisksOf(WindowsOf(samples))), k) == Some(MedianReading(readings))
    ensures IsDiskMedian(readings, MedianReading(readings))
    ensures 0.0 <= MedianReading(readings).utilPercent <= 100.0
  {
    var lists := DisksOf(WindowsOf(samples));
    ListsOfWindows(samples);
    DisksFound(samples, lists, k, readings);
    DisksJoined(samples, lists);
    MergedReadings(DiskDiffName, MergeDisk, lists, readings, k);
    MergedDiskReadings(readings);
    MedianReadingIsMedian(readings);
    RealMedianWithin((d: DiskDeviceDiff) => d.utilPercent, readings, 0.0, 100.0);
  }

  ghost predicate IsCgroupReading(s: Sample, k: string, c: CgroupDiff) {
    exists x, y :: x in s.before.cgroups && y in s.after.cgroups && x.path == k && y.path == k && c == CgroupDelta(x, y)
  }

  function MedianCgroupReading(readings: seq<CgroupDiff>): CgroupDiff
    requires readings != []
  {
    readings[|readings| - 1].(
      throttledUsec := CounterMedian((c: CgroupDiff) => c.throttledUsec, readings),
      nrThrottled := CounterMedian((c: CgroupDiff) => c.nrThrottled, readings),
      oomKills := CounterMedian((c: CgroupDiff) => c.oomKills, readings),
      memoryHighEvents := CounterMedian((c: CgroupDiff) => c.memoryHighEvents, readings))
  }

  lemma MergedCgroupReadings(readings: seq<CgroupDiff>)
    requires readings != []
    ensures MergeCgroup(readings[|readings| - 1], Map(Found, readings)) == MedianCgroupReading(readings)
  {
    CountersFound((c: CgroupDiff) => c.throttledUsec, readings);
    CountersFound((c: CgroupDiff) => c.nrThrottled, readings);
    CountersFound((c: CgroupDiff) => c.oomKills, readings);
    CountersFound((c: CgroupDiff) => c.memoryHighEvents, readings);
  }

  lemma CgroupFound(s: Sample, k: string, c: CgroupDiff)
    requires Unique(CgroupEntryPath, s.before.cgroups) && Unique(CgroupEntryPath, s.after.cgroups)
    requires IsCgroupReading(s, k, c)
    ensures FindFirst(CgroupDiffPath, CgroupWindow(s.before, s.after), k) == Some(c)
  {
    var x, y :| x in s.before.cgroups && y in s.after.cgroups && x.path == k && y.path == k && c == CgroupDelta(x, y);
    JoinLookup(CgroupEntryPath, CgroupEntryPath, CgroupDiffPath, CgroupDelta, s.before.cgroups, s.after.cgroups, x, y);
  }

  ghost predicate IsCgroupMedian(readings: seq<CgroupDiff>, m: CgroupDiff)
    requires readings != []
  {
    && IsMedian(IntLe, Ints((c: CgroupDiff) => c.throttledUsec, readings), m.throttledUsec)
    && IsMedian(IntLe, Ints((c: CgroupDiff) => c.nrThrottled, readings), m.nrThrottled)
    && IsMedian(IntLe, Ints((c: CgroupDiff) => c.oomKills, readings), m.oomKills)
    && IsMedian(IntLe, Ints((c: CgroupDiff) => c.memoryHighEvents, readings), m.memoryHighEvents)
    && m.path == readings[|readings| - 1].path && m.nrPeriods == readings[|readings| - 1].nrPeriods
  }

  lemma MedianCgroupReadingIsMedian(readings: seq<CgroupDiff>)
    requires readings != []
    ensures IsCgroupMedian(readings, MedianCgroupReading(readings))
  {
    CounterMedianIsMedian((c: CgroupDiff) => c.throttledUsec, readings);
    CounterMedianIsMedian((c: CgroupDiff) => c.nrThrottled, readings);
    CounterMedianIsMedian((c: CgroupDiff) => c.oomKills, readings);
    CounterMedianIsMedian((c: CgroupDiff) => c.memoryHighEvents, readings);
  }

  ghost predicate AreCgroupReadings(samples: seq<Sample>, k: string, readings: seq<CgroupDiff>) {
    |readings| == |samples| && forall i :: 0 <= i < |samples| ==> IsCgroupReading(samples[i], k, readings[i])
  }

  ghost predicate UniqueCgroupsBefore(samples: seq<Sample>) {
    forall i :: 0 <= i < |samples| ==> Unique(CgroupEntryPath, samples[i].before.cgroups)
  }

  lemma CgroupsFound(samples: seq<Sample>, lists: seq<seq<CgroupDiff>>, k: string, readings: seq<CgroupDiff>)
    requires UniqueCgroups(samples) && UniqueCgroupsBefore(samples) && AreCgroupWindows(lists, samples)
    requires AreCgroupReadings(samples, k, readings)
    ensures forall i :: 0 <= i < |lists| ==> FindFirst(CgroupDiffPath, lists[i], k) == Some(readings[i])
  {
    forall i: nat | i < |samples| ensures FindFirst(CgroupDiffPath, lists[i], k) == Some(readings[i]) {
      CgroupFound(samples[i], k, readings[i]);
    }
  }

  /** And so is a cgroup. */
  lemma AggregateCgroupFields(samples: seq<Sample>, k: string, readings: seq<CgroupDiff>)
    requires samples != [] && UniqueCgroups(samples) && UniqueCgroupsBefore(samples)
    requires AreCgroupReadings(samples, k, readings)
    ensures FindFirst(CgroupDiffPath, CgroupMedians(CgroupsOf(WindowsOf(samples))), k)
         == Some(MedianCgroupReading(readings))
    ensures IsCgroupMedian(readings, MedianCgroupReading(readings))
  {
    var lists := CgroupsOf(WindowsOf(samples));
    ListsOfWindows(samples);
    CgroupsFound(samples, lists, k, readings);
    CgroupsJoined(samples, lists);
    MergedReadings(CgroupDiffPath, MergeCgroup, lists, readings, k);
    MergedCgroupReadings(readings);
    MedianCgroupReadingIsMedian(readings);
  }

  // ---------------------------------------------------------------- Percentages and the clock

  lemma TotalInRange(samples: seq<Sample>)
    requires samples != []
    ensures UtilMedian(Map((d: SnapshotDiff) => d.totalCPUUtil, WindowsOf(samples))).InRange()
  {
    var us := Map((d: SnapshotDiff) => d.totalCPUUtil, WindowsOf(samples));
    forall i: nat | i < |us| ensures us[i].InRange() { }
    UtilMedianInRange(us);
  }

  lemma CoreInRange(samples: seq<Sample>, c: nat)
    requires samples != [] && forall d :: d in WindowsOf(samples) ==> c < |d.perCoreCPUUtil|
    ensures UtilMedian(CoreColumn(WindowsOf(samples), c)).InRange()
  {
    var column := CoreColumn(WindowsOf(samples), c);
    forall i: nat | i < |column| ensures column[i].InRange() {
      assert WindowsOf(samples)[i] in WindowsOf(samples);
      assert column[i] in WindowsOf(samples)[i].perCoreCPUUtil;
    }
    UtilMedianInRange(column);
  }

  lemma CoresInRange(samples: seq<Sample>, perCore: seq<CPUUtilization>)
    requires samples != [] && IsPerCoreMedian(WindowsOf(samples), perCore)
    ensures AllInRange(perCore)
  {
    MinCoresIsLeast(WindowsOf(samples));
    forall u | u in perCore ensures u.InRange() {
      var c :| 0 <= c < |perCore| && perCore[c] == u;
      CoreInRange(samples, c);
    }
  }

  ghost predicate UtilInRange(d: DiskDeviceDiff) { 0.0 <= d.utilPercent <= 100.0 }

  lemma FoundInRange(samples: seq<Sample>, lists: seq<seq<DiskDeviceDiff>>, k: string, o: Option<DiskDeviceDiff>)
    requires AreDiskWindows(lists, samples) && o in Samples(DiskDiffName, lists, k)
    ensures o.Some? ==> UtilInRange(o.value)
  {
    var found := Samples(DiskDiffName, lists, k);
    var i :| 0 <= i < |found| && found[i] == o;
    FindFirstFinds(DiskDiffName, lists[i], k);
    if o.Some? { DiskWindowInRange(samples[i].before, samples[i].after, o.value); }
  }

  lemma DisksInRange(samples: seq<Sample>, lists: seq<seq<DiskDeviceDiff>>, m: DiskDeviceDiff)
    requires samples != [] && AreDiskWindows(lists, samples) && m in DiskMedians(lists)
    ensures UtilInRange(m)
  {
    var base := MergedFrom(DiskDiffName, MergeDisk, lists, lists[|lists| - 1], m);
    var found := Samples(DiskDiffName, lists, base.name);
    forall o | o in found ensures 0.0 <= OrZero((d: DiskDeviceDiff) => d.utilPercent)(o) <= 100.0 {
      FoundInRange(samples, lists, base.name, o);
    }
    RealMedianWithin(OrZero((d: DiskDeviceDiff) => d.utilPercent), found, 0.0, 100.0);
  }

  /** No percentage ever leaves 0..100, whatever the counters and names did: total, per core and per disk. */
  lemma AggregatePercentages(samples: seq<Sample>)
    requires samples != []
    ensures forall r :: IsMedianWindow(WindowsOf(samples), r) ==>
      r.totalCPUUtil.InRange() && AllInRange(r.perCoreCPUUtil) && forall d :: d in r.disks ==> UtilInRange(d)
  {
    forall r | IsMedianWindow(WindowsOf(samples), r)
      ensures r.totalCPUUtil.InRange() && AllInRange(r.perCoreCPUUtil) && forall d :: d in r.disks ==> UtilInRange(d)
    {
      TotalInRange(samples);
      CoresInRange(samples, r.perCoreCPUUtil);
      ListsOfWindows(samples);
      forall d | d in r.disks ensures UtilInRange(d) { DisksInRange(samples, DisksOf(WindowsOf(samples)), d); }
    }
  }

  /** The clock did not advance within the window. */
  ghost predicate WentBack(s: Sample) { s.after.timestamp <= s.before.timestamp }

  /** The aggregate is marked exactly when the clock failed to advance within some window. */
  lemma AggregateClockJump(samples: seq<Sample>)
    ensures AnyJump(WindowsOf(samples)) <==> exists s :: s in samples && WentBack(s)
  {
    var ws := WindowsOf(samples);
    if d :| d in ws && d.clockJumpDetected {
      var i :| 0 <= i < |ws| && ws[i] == d;
      assert samples[i] in samples;
    }
    if s :| s in samples && WentBack(s) {
      var i :| 0 <= i < |samples| && samples[i] == s;
      assert ws[i] in ws;
    }
  }

  /** A clock set back between two windows goes unnoticed. */
  lemma BackBetweenWindows(a: Sample, b: Sample)
    requires !WentBack(a) && !WentBack(b) && b.before.timestamp < a.after.timestamp
    ensures !AnyJump(WindowsOf([a, b]))
  {
    AggregateClockJump([a, b]);
  }

  /** What the snapshots of all windows have to do with the window reported for them. */
  ghost predicate Represents(samples: seq<Sample>, r: SnapshotDiff)
    requires samples != []
  {
    && Map(DiskDiffName, r.disks)
       == Filter(AtEveryEnd(DiskStatName, DisksBefore(samples), DisksAfter(samples)),
                 Map(DiskStatName, samples[|samples| - 1].after.disks))
    && Map(CgroupDiffPath, r.cgroups)
       == Filter(AtEveryEnd(CgroupEntryPath, CgroupsBefore(samples), CgroupsAfter(samples)),
                 Map(CgroupEntryPath, samples[|samples| - 1].after.cgroups))
    && (r.clockJumpDetected <==> exists s :: s in samples && WentBack(s))
    && r.totalCPUUtil.InRange() && AllInRange(r.perCoreCPUUtil)
    && forall d :: d in r.disks ==> UtilInRange(d)
  }

  /** What the program hands to the rule engine, for one window or many. */
  lemma SampledResult(samples: seq<Sample>)
    requires samples != [] && UniqueDisks(samples) && UniqueCgroups(samples)
    ensures forall result :: IsMedianOf(WindowsOf(samples), result) ==>
      result.Some? && Represents(samples, result.value)
  {
    AggregateDiskNames(samples);
    AggregateCgroupNames(samples);
    AggregateClockJump(samples);
    AggregatePercentages(samples);
    SampledMedian(samples);
  }
}
