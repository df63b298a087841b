/** One sampling window: the differential of two snapshots, list by list. */
module Windows {
  import opened Wrappers
  import opened Differential
  import opened Joins

  const SECOND := 1_000_000_000
  const MILLISECOND := 1_000_000

  /** Whole milliseconds of a duration, at least one second's worth when there are none. */
  function DurationMS(duration: int): real
    requires duration > 0
  {
    if duration / MILLISECOND <= 0 then 1000.0 else (duration / MILLISECOND) as real
  }

  function Average(sum: int, n: int): real
    requires n >= 0
  {
    if n > 0 then sum as real / n as real else 0.0
  }

  function DiskDelta(durMS: real, a: DiskDeviceStat, b: DiskDeviceStat): DiskDeviceDiff
    requires durMS > 0.0
  {
    var nReads := Diff(b.readsCompleted, a.readsCompleted);
    var nWrites := Diff(b.writesCompleted, a.writesCompleted);
    var weighted := Diff(b.weightedIOTicks, a.weightedIOTicks);
    DiskDeviceDiff(
      b.name,
      ClampPercent((Diff(b.ioTicks, a.ioTicks) as real / durMS) * 100.0),
      Wrap(Diff(b.sectorsRead, a.sectorsRead) * 512),
      Wrap(Diff(b.sectorsWritten, a.sectorsWritten) * 512),
      b.iosInProgress, nReads, nWrites,
      Average(Diff(b.timeReadingMS, a.timeReadingMS), nReads),
      Average(Diff(b.timeWritingMS, a.timeWritingMS), nWrites),
      weighted,
      Average(weighted, Wrap(nReads + nWrites)))
  }

  function CgroupDelta(a: CgroupEntry, b: CgroupEntry): CgroupDiff {
    CgroupDiff(b.path, Diff(b.throttledUsec, a.throttledUsec), Diff(b.nrThrottled, a.nrThrottled),
               Diff(b.nrPeriods, a.nrPeriods), Diff(b.oomKills, a.oomKills),
               Diff(b.memoryHighEvents, a.memoryHighEvents))
  }

  function ProcessDelta(durSec: real, a: Option<ProcessInfo>, b: ProcessInfo): ProcessDiff
    requires durSec > 0.0
  {
    var cpu := if a.None? then 0 else Diff(Wrap(b.uTime + b.sTime), Wrap(a.value.uTime + a.value.sTime));
    ProcessDiff(b.pid, b.comm, b.state, b.rssBytes, cpu, cpu as real / durSec,
                if a.None? then 0 else Diff(b.readBytes, a.value.readBytes),
                if a.None? then 0 else Diff(b.writeBytes, a.value.writeBytes),
                b.openFDs)
  }

  function DiskMaker(durMS: real): (DiskDeviceStat, DiskDeviceStat) -> DiskDeviceDiff
    requires durMS > 0.0
  {
    (a, b) => DiskDelta(durMS, a, b)
  }

  function ProcessMaker(durSec: real): (Option<ProcessInfo>, ProcessInfo) -> ProcessDiff
    requires durSec > 0.0
  {
    (a, b) => ProcessDelta(durSec, a, b)
  }

  function DiskStatName(d: DiskDeviceStat): string { d.name }
  function DiskDiffName(d: DiskDeviceDiff): string { d.name }
  function CgroupEntryPath(c: CgroupEntry): string { c.path }
  function CgroupDiffPath(c: CgroupDiff): string { c.path }
  function InfoPID(p: ProcessInfo): int { p.pid }

  function DiskDiffs(a: seq<DiskDeviceStat>, b: seq<DiskDeviceStat>, duration: int): seq<DiskDeviceDiff>
    requires duration > 0
  {
    InnerJoin(DiskStatName, DiskStatName, DiskMaker(DurationMS(duration)), a, b)
  }

  function CgroupDiffs(a: seq<CgroupEntry>, b: seq<CgroupEntry>): seq<CgroupDiff> {
    InnerJoin(CgroupEntryPath, CgroupEntryPath, CgroupDelta, a, b)
  }

  function ProcessDiffs(a: seq<ProcessInfo>, b: seq<ProcessInfo>, duration: int): seq<ProcessDiff>
    requires duration > 0
  {
    OuterJoin(InfoPID, InfoPID, ProcessMaker(duration as real / SECOND as real), a, b)
  }

  function PerCoreUtils(a: seq<CoreCPUStat>, b: seq<CoreCPUStat>): seq<CPUUtilization> {
    var n := if |b| < |a| then |b| else |a|;
    seq(n, i requires 0 <= i < n => CoreUtil(a[i], b[i]))
  }

  method CalculatePerCoreUtil(a: seq<CoreCPUStat>, b: seq<CoreCPUStat>) returns (result: seq<CPUUtilization>)
    ensures result == PerCoreUtils(a, b)
  {
    var minLen := |a|;
    if |b| < minLen { minLen := |b|; }
    result := [];
    for i := 0 to minLen
      invariant |result| == i && forall k :: 0 <= k < i ==> result[k] == CoreUtil(a[k], b[k])
    {
      result := result + [CoreUtil(a[i], b[i])];
    }
  }

  /** Nanoseconds from a to b, one second if the clock did not advance. */
  function Elapsed(a: Snapshot, b: Snapshot): int {
    if b.timestamp <= a.timestamp then SECOND else b.timestamp - a.timestamp
  }

  function DiskWindow(a: Snapshot, b: Snapshot): seq<DiskDeviceDiff> { DiskDiffs(a.disks, b.disks, Elapsed(a, b)) }
  function CgroupWindow(a: Snapshot, b: Snapshot): seq<CgroupDiff> { CgroupDiffs(a.cgroups, b.cgroups) }

  /** The window between a and b; a clock that did not advance counts as one second. */
  ghost function WindowOf(a: Snapshot, b: Snapshot): SnapshotDiff {
    SnapshotDiff(
      Elapsed(a, b), b.timestamp, b.timestamp <= a.timestamp, b.procsRunning, b.procsBlocked,
      Diff(b.contextSwitches, a.contextSwitches), Diff(b.processesCreated, a.processesCreated),
      CoreUtil(a.totalCPU, b.totalCPU), PerCoreUtils(a.perCore, b.perCore),
      DiskWindow(a, b), CgroupWindow(a, b), ProcessDiffs(a.processes, b.processes, Elapsed(a, b)), Some(b))
  }

  method DiffSnapshots(a: Snapshot, b: Snapshot) returns (diff: SnapshotDiff)
    ensures diff == WindowOf(a, b)
  {
    var duration := b.timestamp - a.timestamp;
    var clockJump := false;
    if duration <= 0 {
      duration := SECOND;
      clockJump := true;
    }
    var perCore := CalculatePerCoreUtil(a.perCore, b.perCore);
    var disks := HashJoin(DiskStatName, DiskStatName, DiskMaker(DurationMS(duration)), a.disks, b.disks);
    var cgroups := HashJoin(CgroupEntryPath, CgroupEntryPath, CgroupDelta, a.cgroups, b.cgroups);
    var processes := HashOuterJoin(InfoPID, InfoPID, ProcessMaker(duration as real / SECOND as real),
                                   a.processes, b.processes);
    diff := SnapshotDiff(
      duration, b.timestamp, clockJump, b.procsRunning, b.procsBlocked,
      Diff(b.contextSwitches, a.contextSwitches), Diff(b.processesCreated, a.processesCreated),
      CoreUtil(a.totalCPU, b.totalCPU), perCore, disks, cgroups, processes, Some(b));
  }

  // ---------------------------------------------------------------- What a window promises

  ghost predicate AllInRange(utils: seq<CPUUtilization>) {
    forall u :: u in utils ==> u.InRange()
  }

  /** The window runs from a to b, and its machine-wide numbers are those of its ends. */
  lemma WindowScalars(a: Snapshot, b: Snapshot)
    ensures var w := WindowOf(a, b);
      && w.timestamp == b.timestamp && w.latest == Some(b)
      && (w.clockJumpDetected <==> b.timestamp <= a.timestamp)
      && (b.timestamp > a.timestamp ==> a.timestamp + w.duration == b.timestamp)
      && (b.timestamp <= a.timestamp ==> w.duration == 1_000_000_000)
      && w.procsRunning == b.procsRunning && w.procsBlocked == b.procsBlocked
      && w.contextSwitchesDelta == Gain(b.contextSwitches - a.contextSwitches)
      && w.processesCreatedDelta == Gain(b.processesCreated - a.processesCreated)
  {}

  /** The CPU time of the window is that spent from a to b, counter by counter; without progress it is none. */
  lemma WindowCPU(a: Snapshot, b: Snapshot)
    ensures var u := WindowOf(a, b).totalCPUUtil;
      && (a.totalCPU.TrueTotal() < b.totalCPU.TrueTotal() < U64 ==> IsUtilBetween(a.totalCPU, b.totalCPU, u))
      && (b.totalCPU.Total() <= a.totalCPU.Total() ==> u == CPUUtilization(0.0, 0.0, 0.0, 0.0, 0.0, 0.0, 0.0))
  {
    if a.totalCPU.TrueTotal() < b.totalCPU.TrueTotal() < U64 { UtilOfCounters(a.totalCPU, b.totalCPU); }
  }

  /** With counters that never went back the percentages are the plain ones. */
  lemma WindowCPUSteady(a: Snapshot, b: Snapshot)
    requires a.totalCPU.TrueTotal() < b.totalCPU.TrueTotal() < U64 && NeverBack(a.totalCPU, b.totalCPU)
    ensures Changes(a.totalCPU, b.totalCPU).Sum() == b.totalCPU.TrueTotal() - a.totalCPU.TrueTotal() > 0
    ensures Unclamped(WindowOf(a, b).totalCPUUtil, Changes(a.totalCPU, b.totalCPU),
                      Changes(a.totalCPU, b.totalCPU).Sum())
  {
    SteadySharesUnclamped(a.totalCPU, b.totalCPU);
  }

  /** Core i of the window is core i of both snapshots, for every core they share. */
  lemma WindowCore(a: Snapshot, b: Snapshot, i: nat)
    requires i < |a.perCore| && i < |b.perCore|
    ensures i < |WindowOf(a, b).perCoreCPUUtil|
    ensures var x, y, u := a.perCore[i], b.perCore[i], WindowOf(a, b).perCoreCPUUtil[i];
      && (x.TrueTotal() < y.TrueTotal() < U64 ==> IsUtilBetween(x, y, u))
      && (y.Total() <= x.Total() ==> u == CPUUtilization(0.0, 0.0, 0.0, 0.0, 0.0, 0.0, 0.0))
  {
    var x, y := a.perCore[i], b.perCore[i];
    if x.TrueTotal() < y.TrueTotal() < U64 { UtilOfCounters(x, y); }
  }

  lemma WindowCoreSteady(a: Snapshot, b: Snapshot, i: nat)
    requires i < |a.perCore| && i < |b.perCore|
    requires a.perCore[i].TrueTotal() < b.perCore[i].TrueTotal() < U64 && NeverBack(a.perCore[i], b.perCore[i])
    ensures i < |WindowOf(a, b).perCoreCPUUtil| && Changes(a.perCore[i], b.perCore[i]).Sum() > 0
    ensures Unclamped(WindowOf(a, b).perCoreCPUUtil[i], Changes(a.perCore[i], b.perCore[i]),
                      Changes(a.perCore[i], b.perCore[i]).Sum())
  {
    SteadySharesUnclamped(a.perCore[i], b.perCore[i]);
  }

  lemma WindowPercentages(a: Snapshot, b: Snapshot)
    ensures WindowOf(a, b).totalCPUUtil.InRange() && AllInRange(WindowOf(a, b).perCoreCPUUtil)
    ensures var n := |WindowOf(a, b).perCoreCPUUtil|;
      n <= |a.perCore| && n <= |b.perCore| && (n == |a.perCore| || n == |b.perCore|)
  {
    CoreUtilInRange(a.totalCPU, b.totalCPU);
    forall i | 0 <= i < |a.perCore| && i < |b.perCore| ensures CoreUtil(a.perCore[i], b.perCore[i]).InRange() {
      CoreUtilInRange(a.perCore[i], b.perCore[i]);
    }
  }

  /** A window lists exactly the devices present at both of its ends. */
  lemma DiskWindowMentions(a: Snapshot, b: Snapshot)
    ensures forall k :: (Mentions(DiskDiffName, DiskWindow(a, b), k)
      <==> (Mentions(DiskStatName, a.disks, k) && Mentions(DiskStatName, b.disks, k)))
    ensures Unique(DiskStatName, b.disks) ==> Unique(DiskDiffName, DiskWindow(a, b))
  {
    JoinRecords(DiskStatName, DiskStatName, DiskDiffName, DiskMaker(DurationMS(Elapsed(a, b))), a.disks, b.disks);
  }

  lemma CgroupWindowMentions(a: Snapshot, b: Snapshot)
    ensures forall k :: (Mentions(CgroupDiffPath, CgroupWindow(a, b), k)
      <==> (Mentions(CgroupEntryPath, a.cgroups, k) && Mentions(CgroupEntryPath, b.cgroups, k)))
    ensures Unique(CgroupEntryPath, b.cgroups) ==> Unique(CgroupDiffPath, CgroupWindow(a, b))
  {
    JoinRecords(CgroupEntryPath, CgroupEntryPath, CgroupDiffPath, CgroupDelta, a.cgroups, b.cgroups);
  }

  lemma DiskWindowInRange(a: Snapshot, b: Snapshot, d: DiskDeviceDiff)
    requires d in DiskWindow(a, b)
    ensures 0.0 <= d.utilPercent <= 100.0
  {
    var x, y := JoinMade(DiskStatName, DiskStatName, DiskMaker(DurationMS(Elapsed(a, b))), a.disks, b.disks, d);
  }

  /** With unique names the hash join finds what a nested scan over both lists would. */
  lemma WindowDisk(a: Snapshot, b: Snapshot, x: DiskDeviceStat, y: DiskDeviceStat)
    requires Unique(DiskStatName, a.disks) && Unique(DiskStatName, b.disks)
    requires x in a.disks && y in b.disks && x.name == y.name
    ensures var d := FindFirst(DiskDiffName, DiskWindow(a, b), y.name);
      && d == Some(DiskDelta(DurationMS(Elapsed(a, b)), x, y))
      && 0.0 <= d.value.utilPercent <= 100.0
  {
    JoinLookup(DiskStatName, DiskStatName, DiskDiffName, DiskMaker(DurationMS(Elapsed(a, b))),
               a.disks, b.disks, x, y);
  }

  /** n operations of this average length take this long; no operations, no average. */
  ghost predicate AveragesTo(average: real, n: int, time: int) {
    if n == 0 then average == 0.0 else average * n as real == time as real
  }

  lemma AverageMeaning(sum: int, n: int)
    requires n >= 0
    ensures AveragesTo(Average(sum, n), n, sum)
  {
    if n > 0 {
      var x, y := sum as real, n as real;
      assert (x / y) * y == x;
    }
  }

  /** Whole milliseconds of the window, or a second's worth if there are none. */
  lemma DurationMSMeaning(duration: int)
    requires duration > 0
    ensures duration >= 1_000_000 ==>
      DurationMS(duration) * 1_000_000.0 <= duration as real < (DurationMS(duration) + 1.0) * 1_000_000.0
    ensures duration >= 1_000_000 ==> DurationMS(duration) == DurationMS(duration).Floor as real
    ensures duration < 1_000_000 ==> DurationMS(duration) == 1000.0
  {}

  lemma ShareOfTime(busy: nat, time: real, r: real)
    requires time > 0.0 && r == ClampPercent((busy as real / time) * 100.0)
    ensures busy as real <= time ==> r * time == 100.0 * busy as real
    ensures busy as real >= time ==> r == 100.0
  {
    var q := busy as real / time;
    assert q * time == busy as real;
    if busy as real <= time { RatioAtMostOne(q, time); }
  }

  lemma RatioAtMostOne(q: real, time: real)
    requires time > 0.0 && 0.0 <= q * time <= time
    ensures 0.0 <= q <= 1.0
  {}

  /** Utilisation is the busy time's share of the window; the rest of the record is the device's own. */
  lemma DiskUtilMeaning(durMS: real, a: DiskDeviceStat, b: DiskDeviceStat, d: DiskDeviceDiff)
    requires durMS > 0.0 && d == DiskDelta(durMS, a, b)
    ensures d.name == b.name && d.iosInProgress == b.iosInProgress
    ensures d.weightedIOTicks == Gain(b.weightedIOTicks - a.weightedIOTicks)
    ensures var busy := Gain(b.ioTicks - a.ioTicks) as real;
      && (busy <= durMS ==> d.utilPercent * durMS == 100.0 * busy)
      && (busy >= durMS ==> d.utilPercent == 100.0)
  {
    ShareOfTime(Gain(b.ioTicks - a.ioTicks), durMS, d.utilPercent);
  }

  /** Each cgroup counter is what it gained, or nothing if it went backwards. */
  lemma CgroupDeltaMeaning(a: CgroupEntry, b: CgroupEntry)
    ensures var d := CgroupDelta(a, b);
      && d.path == b.path
      && d.throttledUsec == Gain(b.throttledUsec - a.throttledUsec)
      && d.nrThrottled == Gain(b.nrThrottled - a.nrThrottled)
      && d.nrPeriods == Gain(b.nrPeriods - a.nrPeriods)
      && d.oomKills == Gain(b.oomKills - a.oomKills)
      && d.memoryHighEvents == Gain(b.memoryHighEvents - a.memoryHighEvents)
  {}

  ghost predicate CountsNeverBack(a: DiskDeviceStat, b: DiskDeviceStat) {
    && a.sectorsRead <= b.sectorsRead && a.sectorsWritten <= b.sectorsWritten
    && a.readsCompleted <= b.readsCompleted && a.writesCompleted <= b.writesCompleted
  }

  ghost predicate TimesNeverBack(a: DiskDeviceStat, b: DiskDeviceStat) {
    && a.timeReadingMS <= b.timeReadingMS && a.timeWritingMS <= b.timeWritingMS
    && a.weightedIOTicks <= b.weightedIOTicks
  }

  /** Byte counts are exact while they fit. */
  lemma DiskCountsMeaning(durMS: real, a: DiskDeviceStat, b: DiskDeviceStat, d: DiskDeviceDiff)
    requires durMS > 0.0 && d == DiskDelta(durMS, a, b) && CountsNeverBack(a, b)
    requires (b.sectorsRead - a.sectorsRead) * 512 < U64 && (b.sectorsWritten - a.sectorsWritten) * 512 < U64
    ensures d.readBytes == (b.sectorsRead - a.sectorsRead) * 512
    ensures d.writeBytes == (b.sectorsWritten - a.sectorsWritten) * 512
    ensures a.readsCompleted + d.readsCompleted == b.readsCompleted
    ensures a.writesCompleted + d.writesCompleted == b.writesCompleted
  {
    NoWrap((b.sectorsRead - a.sectorsRead) * 512);
    NoWrap((b.sectorsWritten - a.sectorsWritten) * 512);
  }

  /** Average latencies multiply back to the time spent, whatever the operation counters did. */
  lemma DiskLatencyMeaning(durMS: real, a: DiskDeviceStat, b: DiskDeviceStat, d: DiskDeviceDiff)
    requires durMS > 0.0 && d == DiskDelta(durMS, a, b) && TimesNeverBack(a, b)
    requires d.readsCompleted + d.writesCompleted < U64
    ensures AveragesTo(d.avgReadLatencyMS, d.readsCompleted, b.timeReadingMS - a.timeReadingMS)
    ensures AveragesTo(d.avgWriteLatencyMS, d.writesCompleted, b.timeWritingMS - a.timeWritingMS)
    ensures AveragesTo(d.avgQueueLatencyMS, d.readsCompleted + d.writesCompleted,
                       b.weightedIOTicks - a.weightedIOTicks)
  {
    NoWrap(d.readsCompleted + d.writesCompleted);
    AverageMeaning(b.timeReadingMS - a.timeReadingMS, d.readsCompleted);
    AverageMeaning(b.timeWritingMS - a.timeWritingMS, d.writesCompleted);
    AverageMeaning(b.weightedIOTicks - a.weightedIOTicks, d.readsCompleted + d.writesCompleted);
  }

  /** Every live process is reported, in order; one that was not there before has used nothing yet. */
  lemma WindowProcesses(a: Snapshot, b: Snapshot, i: nat)
    requires i < |b.processes|
    ensures |WindowOf(a, b).processes| == |b.processes|
    ensures var p, y := WindowOf(a, b).processes[i], b.processes[i];
      && p.pid == y.pid && p.comm == y.comm && p.state == y.state
      && p.rssBytes == y.rssBytes && p.openFDs == y.openFDs
    ensures !Mentions(InfoPID, a.processes, b.processes[i].pid) ==>
      var p := WindowOf(a, b).processes[i];
      p.cpuTimeDelta == 0 && p.cpuPercent == 0.0 && p.readBytesDelta == 0 && p.writeBytesDelta == 0
    ensures WindowOf(a, b).processes[i].cpuPercent >= 0.0
  {
    var y := b.processes[i];
    var d := WindowOf(a, b).duration as real / SECOND as real;
    FindLastFinds(InfoPID, a.processes, y.pid);
    OuterJoinAt(InfoPID, InfoPID, ProcessMaker(d), a.processes, b.processes, i);
  }

  ghost predicate ProcessNeverBack(a: ProcessInfo, b: ProcessInfo) {
    && a.uTime <= b.uTime && a.sTime <= b.sTime && b.uTime + b.sTime < U64
    && a.readBytes <= b.readBytes && a.writeBytes <= b.writeBytes
  }

  /** The rate over the window multiplies back to what the process used. */
  lemma ProcessDeltaMeaning(seconds: real, x: ProcessInfo, y: ProcessInfo)
    requires seconds > 0.0 && ProcessNeverBack(x, y)
    ensures var p := ProcessDelta(seconds, Some(x), y);
      && x.uTime + x.sTime + p.cpuTimeDelta == y.uTime + y.sTime
      && p.cpuPercent * seconds == p.cpuTimeDelta as real
      && x.readBytes + p.readBytesDelta == y.readBytes && x.writeBytes + p.writeBytesDelta == y.writeBytes
  {
    NoWrap(x.uTime + x.sTime);
    NoWrap(y.uTime + y.sTime);
  }

  function Seconds(a: Snapshot, b: Snapshot): real { Elapsed(a, b) as real / SECOND as real }

  /** Nanoseconds to seconds. */
  lemma SecondsMeaning(a: Snapshot, b: Snapshot)
    ensures Seconds(a, b) * 1_000_000_000.0 == Elapsed(a, b) as real
  {}

  /** A process seen at both ends is matched by its PID. */
  lemma WindowProcessMatched(a: Snapshot, b: Snapshot, x: ProcessInfo, i: nat)
    requires i < |b.processes| && Unique(InfoPID, a.processes) && x in a.processes && x.pid == b.processes[i].pid
    ensures |WindowOf(a, b).processes| == |b.processes|
    ensures WindowOf(a, b).processes[i] == ProcessDelta(Seconds(a, b), Some(x), b.processes[i])
  {
    UniqueFind(InfoPID, a.processes, x);
    OuterJoinAt(InfoPID, InfoPID, ProcessMaker(Seconds(a, b)), a.processes, b.processes, i);
  }
}
