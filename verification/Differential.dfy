/**
  Two snapshots in, one differential out: saturating counters, CPU percentages and the
  joins of devices, cgroups and processes by name. float64 is modelled by real, uint64 by
  a bounded natural with its wrap-around written out.
*/
module Differential {
  import opened Wrappers

  const U64 := 0x1_0000_0000_0000_0000
  type Counter = n: int | 0 <= n < U64

  datatype CoreCPUStat = CoreCPUStat(
    user: Counter, nice: Counter, system: Counter, idle: Counter,
    iowait: Counter, irq: Counter, softirq: Counter, steal: Counter)
  {
    /** The sum without the machine's width. */
    ghost function TrueTotal(): int { user + nice + system + idle + iowait + irq + softirq + steal }
    ghost function TrueBusy(): int { user + nice + system + irq + softirq + steal }

    function Total(): Counter { Wrap(user + nice + system + idle + iowait + irq + softirq + steal) }
    function Busy(): Counter { Wrap(user + nice + system + irq + softirq + steal) }
  }

  datatype CPUUtilization = CPUUtilization(
    user: real, system: real, iowait: real, idle: real, softirq: real, steal: real, busy: real)
  {
    ghost predicate InRange() {
      && 0.0 <= user <= 100.0 && 0.0 <= system <= 100.0 && 0.0 <= iowait <= 100.0 && 0.0 <= idle <= 100.0
      && 0.0 <= softirq <= 100.0 && 0.0 <= steal <= 100.0 && 0.0 <= busy <= 100.0
    }
  }

  datatype DiskDeviceStat = DiskDeviceStat(
    name: string, readsCompleted: Counter, sectorsRead: Counter, timeReadingMS: Counter,
    writesCompleted: Counter, sectorsWritten: Counter, timeWritingMS: Counter,
    iosInProgress: Counter, ioTicks: Counter, weightedIOTicks: Counter)

  datatype DiskDeviceDiff = DiskDeviceDiff(
    name: string, utilPercent: real, readBytes: Counter, writeBytes: Counter, iosInProgress: Counter,
    readsCompleted: Counter, writesCompleted: Counter, avgReadLatencyMS: real, avgWriteLatencyMS: real,
    weightedIOTicks: Counter, avgQueueLatencyMS: real)

  datatype CgroupEntry = CgroupEntry(
    path: string, throttledUsec: Counter, nrThrottled: Counter, nrPeriods: Counter,
    oomKills: Counter, memoryHighEvents: Counter)

  datatype CgroupDiff = CgroupDiff(
    path: string, throttledUsec: Counter, nrThrottled: Counter, nrPeriods: Counter,
    oomKills: Counter, memoryHighEvents: Counter)

  datatype ProcessInfo = ProcessInfo(
    pid: int, comm: string, state: char, uTime: Counter, sTime: Counter, rssBytes: Counter,
    readBytes: Counter, writeBytes: Counter, openFDs: int, smaps: Option<Counter>)

  datatype ProcessDiff = ProcessDiff(
    pid: int, comm: string, state: char, rssBytes: Counter, cpuTimeDelta: Counter, cpuPercent: real,
    readBytesDelta: Counter, writeBytesDelta: Counter, openFDs: int)

  /** The ten-second "some" averages. */
  datatype PSIInfo = PSIInfo(available: bool, cpu: real, memory: real, io: real)

  datatype Snapshot = Snapshot(
    timestamp: int, psi: PSIInfo, procsRunning: Counter, procsBlocked: Counter,
    contextSwitches: Counter, processesCreated: Counter,
    totalCPU: CoreCPUStat, perCore: seq<CoreCPUStat>,
    disks: seq<DiskDeviceStat>, cgroups: seq<CgroupEntry>, processes: seq<ProcessInfo>)

  datatype SnapshotDiff = SnapshotDiff(
    duration: int, timestamp: int, clockJumpDetected: bool,
    procsRunning: Counter, procsBlocked: Counter, contextSwitchesDelta: Counter, processesCreatedDelta: Counter,
    totalCPUUtil: CPUUtilization, perCoreCPUUtil: seq<CPUUtilization>,
    disks: seq<DiskDeviceDiff>, cgroups: seq<CgroupDiff>, processes: seq<ProcessDiff>,
    latest: Option<Snapshot>)

  // ---------------------------------------------------------------- Arithmetic

  /** A counter that went backwards counts as unchanged. */
  function Diff(after: Counter, before: Counter): (d: Counter)
    ensures after >= before ==> before + d == after
    ensures after < before ==> d == 0
  {
    if after > before then after - before else 0
  }

  /** Addition and multiplication drop what does not fit 64 bits. */
  function Wrap(n: nat): Counter { if n < U64 then n else n % U64 }

  function ClampPercent(v: real): (r: real)
    ensures 0.0 <= r <= 100.0
    ensures 0.0 <= v <= 100.0 <==> r == v
  {
    if v < 0.0 then 0.0 else if v > 100.0 then 100.0 else v
  }

  function Distance(x: real, y: real): real { if x < y then y - x else x - y }

  /** Clamping moves a value to the nearest percentage. */
  lemma ClampIsNearest(v: real, percentage: real)
    requires 0.0 <= percentage <= 100.0
    ensures 0.0 <= ClampPercent(v) <= 100.0
    ensures Distance(ClampPercent(v), v) <= Distance(percentage, v)
  {}

  function Ratio(part: int, whole: int): real
    requires whole > 0
  {
    part as real / whole as real
  }

  /** part / whole as a clamped percentage. */
  function Share(part: int, whole: int): real
    requires whole > 0
  {
    ClampPercent(Ratio(part, whole) * 100.0)
  }

  /** What the six groups of counters gained, as the code computes it. */
  function Deltas(a: CoreCPUStat, b: CoreCPUStat): Groups {
    Groups(
      Diff(Wrap(b.user + b.nice), Wrap(a.user + a.nice)),
      Diff(Wrap(b.system + b.irq), Wrap(a.system + a.irq)),
      Diff(b.iowait, a.iowait),
      Diff(b.idle, a.idle),
      Diff(b.softirq, a.softirq),
      Diff(b.steal, a.steal))
  }

  function CoreUtil(a: CoreCPUStat, b: CoreCPUStat): CPUUtilization {
    var totalA, totalB := a.Total(), b.Total();
    if totalB <= totalA then CPUUtilization(0.0, 0.0, 0.0, 0.0, 0.0, 0.0, 0.0)
    else
      Percentages(Deltas(a, b), Diff(b.Busy(), a.Busy()), totalB - totalA)
  }

  function Percentages(d: Groups, busy: int, total: int): CPUUtilization
    requires total > 0
  {
    CPUUtilization(Share(d.user, total), Share(d.system, total), Share(d.iowait, total),
                   Share(d.idle, total), Share(d.softirq, total), Share(d.steal, total), Share(busy, total))
  }

  lemma CoreUtilInRange(a: CoreCPUStat, b: CoreCPUStat)
    ensures CoreUtil(a, b).InRange()
  {}

  // The six shares are those of six groups of counters that add up to the total.

  datatype Groups = Groups(user: int, system: int, iowait: int, idle: int, softirq: int, steal: int)
  {
    function Sum(): int { user + system + iowait + idle + softirq + steal }
    ghost predicate NonNegative() {
      user >= 0 && system >= 0 && iowait >= 0 && idle >= 0 && softirq >= 0 && steal >= 0
    }
    function Gains(): Groups {
      Groups(Gain(user), Gain(system), Gain(iowait), Gain(idle), Gain(softirq), Gain(steal))
    }
    /** How many groups grew. */
    function Growing(): nat {
      Bit(user) + Bit(system) + Bit(iowait) + Bit(idle) + Bit(softirq) + Bit(steal)
    }
  }

  function Gain(d: int): nat { if d > 0 then d else 0 }
  function Bit(d: int): nat { if d > 0 then 1 else 0 }

  /** What each group really did between the two snapshots, signs included. */
  ghost function Changes(a: CoreCPUStat, b: CoreCPUStat): Groups {
    Groups(b.user + b.nice - a.user - a.nice, b.system + b.irq - a.system - a.irq, b.iowait - a.iowait,
           b.idle - a.idle, b.softirq - a.softirq, b.steal - a.steal)
  }

  ghost function SumOfSix(u: CPUUtilization): real {
    u.user + u.system + u.iowait + u.idle + u.softirq + u.steal
  }

  /** A linear scale from parts to percentages of the whole. */
  ghost predicate IsScale(f: int -> real, whole: int)
    requires whole > 0
  {
    && f(whole) == 100.0 && f(0) == 0.0
    && (forall p :: p > 0 ==> f(p) > 0.0)
    && (forall p, q :: f(Plus(p, q)) == f(p) + f(q))
    && (forall p :: Share(p, whole) == ClampPercent(f(p)))
  }

  /** Callers see the laws of the scale, not its division. */
  lemma Scale(whole: int) returns (f: int -> real)
    requires whole > 0
    ensures IsScale(f, whole)
  {
    f := p => Ratio(p, whole) * 100.0;
    OneAndZero(whole as real);
    assert forall p :: p > 0 ==> f(p) > 0.0;
    assert forall p, q :: f(Plus(p, q)) == f(p) + f(q);
  }

  lemma OneAndZero(x: real)
    requires x > 0.0
    ensures x / x == 1.0 && 0.0 / x == 0.0
  {}

  function Plus(p: int, q: int): int { p + q }

  /** The six unclamped shares. */
  lemma SixScaled(g: Groups, whole: int) returns (y: seq<real>)
    requires g.NonNegative() && 0 < whole <= g.Sum()
    ensures |y| == 6 && (forall i :: 0 <= i < 6 ==> y[i] >= 0.0)
    ensures Share(g.user, whole) == Min100(y[0]) && Sign(y[0]) == Bit(g.user)
    ensures Share(g.system, whole) == Min100(y[1]) && Sign(y[1]) == Bit(g.system)
    ensures Share(g.iowait, whole) == Min100(y[2]) && Sign(y[2]) == Bit(g.iowait)
    ensures Share(g.idle, whole) == Min100(y[3]) && Sign(y[3]) == Bit(g.idle)
    ensures Share(g.softirq, whole) == Min100(y[4]) && Sign(y[4]) == Bit(g.softirq)
    ensures Share(g.steal, whole) == Min100(y[5]) && Sign(y[5]) == Bit(g.steal)
    ensures y[0] + y[1] + y[2] + y[3] + y[4] + y[5] >= 100.0
    ensures y[0] + y[1] + y[2] + y[3] + y[4] + y[5] == 100.0 <==> g.Sum() == whole
  {
    var f := Scale(whole);
    SumOfScaled(f, whole, g);
    assert Plus(whole, g.Sum() - whole) == g.Sum();
    y := [f(g.user), f(g.system), f(g.iowait), f(g.idle), f(g.softirq), f(g.steal)];
  }

  /** Six clamped shares whose parts add up to at least the whole. */
  lemma ClampedSum(g: Groups, whole: int)
    requires g.NonNegative() && 0 < whole <= g.Sum()
    ensures var sum := Share(g.user, whole) + Share(g.system, whole) + Share(g.iowait, whole)
                     + Share(g.idle, whole) + Share(g.softirq, whole) + Share(g.steal, whole);
      && sum >= 100.0
      && (sum == 100.0 <==> (g.Sum() == whole || g.Growing() <= 1))
  {
    var y := SixScaled(g, whole);
  }

  lemma SumOfScaled(f: int -> real, whole: int, g: Groups)
    requires whole > 0 && IsScale(f, whole)
    ensures f(g.Sum()) == f(g.user) + f(g.system) + f(g.iowait) + f(g.idle) + f(g.softirq) + f(g.steal)
  {
    var s2 := Plus(g.user, g.system);
    var s3 := Plus(s2, g.iowait);
    var s4 := Plus(s3, g.idle);
    var s5 := Plus(s4, g.softirq);
    assert Plus(s5, g.steal) == g.Sum();
  }

  function Min100(y: real): real { if y > 100.0 then 100.0 else y }
  function Sign(y: real): nat { if y > 0.0 then 1 else 0 }

  lemma NoWrap(n: int)
    requires 0 <= n < U64
    ensures Wrap(n) == n
  {}

  /** In a window with progress no sum wraps and every share is a group's gain. */
  lemma CoreUtilShares(a: CoreCPUStat, b: CoreCPUStat)
    requires a.TrueTotal() < b.TrueTotal() < U64
    ensures Changes(a, b).Sum() == b.TrueTotal() - a.TrueTotal()
    ensures CoreUtil(a, b) ==
      Percentages(Changes(a, b).Gains(), Gain(b.TrueBusy() - a.TrueBusy()), Changes(a, b).Sum())
  {}

  /** u holds, counter by counter, what each kind of time gained from a to b as a share of the total. */
  ghost predicate IsUtilBetween(a: CoreCPUStat, b: CoreCPUStat, u: CPUUtilization) {
    var total := (b.user + b.nice + b.system + b.idle + b.iowait + b.irq + b.softirq + b.steal)
               - (a.user + a.nice + a.system + a.idle + a.iowait + a.irq + a.softirq + a.steal);
    && total > 0
    && u.user == Share(Gain((b.user + b.nice) - (a.user + a.nice)), total)
    && u.system == Share(Gain((b.system + b.irq) - (a.system + a.irq)), total)
    && u.iowait == Share(Gain(b.iowait - a.iowait), total)
    && u.idle == Share(Gain(b.idle - a.idle), total)
    && u.softirq == Share(Gain(b.softirq - a.softirq), total)
    && u.steal == Share(Gain(b.steal - a.steal), total)
    && u.busy == Share(Gain((b.user + b.nice + b.system + b.irq + b.softirq + b.steal)
                            - (a.user + a.nice + a.system + a.irq + a.softirq + a.steal)), total)
  }

  lemma UtilOfCounters(a: CoreCPUStat, b: CoreCPUStat)
    requires a.TrueTotal() < b.TrueTotal() < U64
    ensures IsUtilBetween(a, b, CoreUtil(a, b))
  {
    CoreUtilShares(a, b);
  }

  /** Without progress nothing was used. */
  lemma NoProgressNoUtil(a: CoreCPUStat, b: CoreCPUStat)
    requires b.Total() <= a.Total()
    ensures var u := CoreUtil(a, b);
      u.user == u.system == u.iowait == u.idle == u.softirq == u.steal == u.busy == 0.0
  {}

  /**
    User, System, IOWait, Idle, SoftIRQ and Steal never add up to less than 100 in a window
    with progress, and they add up to exactly 100 if and only if no group went backwards or
    only one group grew at all.
  */
  lemma SharesPartition(a: CoreCPUStat, b: CoreCPUStat)
    requires a.TrueTotal() < b.TrueTotal() < U64
    ensures SumOfSix(CoreUtil(a, b)) >= 100.0
    ensures SumOfSix(CoreUtil(a, b)) == 100.0
      <==> (Changes(a, b).NonNegative() || Changes(a, b).Growing() == 1)
  {
    var ch := Changes(a, b);
    CoreUtilShares(a, b);
    GainsOfChanges(ch);
    ClampedSum(ch.Gains(), ch.Sum());
  }

  lemma GainsOfChanges(g: Groups)
    ensures g.Gains().NonNegative() && g.Gains().Sum() >= g.Sum()
    ensures g.Gains().Sum() == g.Sum() <==> g.NonNegative()
    ensures g.Gains().Growing() == g.Growing()
    ensures g.Sum() > 0 ==> g.Growing() >= 1
  {}

  ghost predicate NeverBack(a: CoreCPUStat, b: CoreCPUStat) {
    && a.user <= b.user && a.nice <= b.nice && a.system <= b.system && a.idle <= b.idle
    && a.iowait <= b.iowait && a.irq <= b.irq && a.softirq <= b.softirq && a.steal <= b.steal
  }

  lemma SteadyGains(a: CoreCPUStat, b: CoreCPUStat)
    requires NeverBack(a, b)
    ensures var g := Changes(a, b);
      g.NonNegative() && g.Gains() == g
      && Gain(b.TrueBusy() - a.TrueBusy()) == g.user + g.system + g.softirq + g.steal
  {}

  /** u holds the plain percentages of these parts. */
  ghost predicate Unclamped(u: CPUUtilization, g: Groups, whole: int)
    requires whole > 0
  {
    && u.user == Ratio(g.user, whole) * 100.0 && u.system == Ratio(g.system, whole) * 100.0
    && u.iowait == Ratio(g.iowait, whole) * 100.0 && u.idle == Ratio(g.idle, whole) * 100.0
    && u.softirq == Ratio(g.softirq, whole) * 100.0 && u.steal == Ratio(g.steal, whole) * 100.0
    && u.busy == Ratio(g.user + g.system + g.softirq + g.steal, whole) * 100.0
  }

  lemma ShareUnclamped(part: int, whole: int)
    requires 0 <= part <= whole && whole > 0
    ensures Share(part, whole) == Ratio(part, whole) * 100.0
  {}

  lemma PercentagesUnclamped(g: Groups, whole: int)
    requires g.NonNegative() && whole == g.Sum() > 0
    ensures Unclamped(Percentages(g, g.user + g.system + g.softirq + g.steal, whole), g, whole)
  {
    ShareUnclamped(g.user, whole); ShareUnclamped(g.system, whole); ShareUnclamped(g.iowait, whole);
    ShareUnclamped(g.idle, whole); ShareUnclamped(g.softirq, whole); ShareUnclamped(g.steal, whole);
    ShareUnclamped(g.user + g.system + g.softirq + g.steal, whole);
  }

  /** With eight nondecreasing counters no clamp acts: every percentage is the plain one. */
  lemma SteadySharesUnclamped(a: CoreCPUStat, b: CoreCPUStat)
    requires a.TrueTotal() < b.TrueTotal() < U64 && NeverBack(a, b)
    ensures Changes(a, b).Sum() == b.TrueTotal() - a.TrueTotal() > 0
    ensures Unclamped(CoreUtil(a, b), Changes(a, b), Changes(a, b).Sum())
  {
    PercentagesUnclamped(Changes(a, b), Changes(a, b).Sum());
  }

  /** With eight nondecreasing counters the shares add up and Busy is what Idle and IOWait leave. */
  lemma SteadyCountersPartition(a: CoreCPUStat, b: CoreCPUStat)
    requires a.TrueTotal() < b.TrueTotal() < U64 && NeverBack(a, b)
    ensures SumOfSix(CoreUtil(a, b)) == 100.0
    ensures CoreUtil(a, b).busy == 100.0 - CoreUtil(a, b).idle - CoreUtil(a, b).iowait
  {
    SharesPartition(a, b);
    CoreUtilShares(a, b);
    SteadyGains(a, b);
    BusyShares(Changes(a, b), Changes(a, b).Sum(), Gain(b.TrueBusy() - a.TrueBusy()));
  }

  lemma BusyShares(g: Groups, whole: int, busy: int)
    requires g.NonNegative() && whole == g.Sum() > 0 && busy == g.user + g.system + g.softirq + g.steal
    ensures Share(busy, whole) ==
      Share(g.user, whole) + Share(g.system, whole) + Share(g.softirq, whole) + Share(g.steal, whole)
  {
    var f := Scale(whole);
    SumOfScaled(f, whole, Groups(g.user, g.system, 0, 0, g.softirq, g.steal));
    UpToWhole(f, busy, whole); UpToWhole(f, g.user, whole); UpToWhole(f, g.system, whole);
    UpToWhole(f, g.softirq, whole); UpToWhole(f, g.steal, whole);
  }

  lemma UpToWhole(f: int -> real, part: int, whole: int)
    requires 0 <= part <= whole && whole > 0 && IsScale(f, whole)
    ensures Share(part, whole) == f(part)
  {
    assert Plus(part, whole - part) == whole;
  }

  /** IOWait may go backwards on a real machine: then the six shares can exceed 100. */
  lemma SharesCanExceed100()
    ensures var a := CoreCPUStat(0, 0, 0, 0, 50, 0, 0, 0);
            var b := CoreCPUStat(60, 0, 0, 60, 0, 0, 0, 0);
      a.TrueTotal() < b.TrueTotal() && SumOfSix(CoreUtil(a, b)) > 100.0
  {
    var a := CoreCPUStat(0, 0, 0, 0, 50, 0, 0, 0);
    var b := CoreCPUStat(60, 0, 0, 60, 0, 0, 0, 0);
    SharesPartition(a, b);
  }
}
