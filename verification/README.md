# Verification model of why-slow

why-slow takes two or more snapshots of a Linux machine from `/proc` and `/sys`, turns them into
differentials, and lets a rule engine name the primary reason the machine is slow. This project models
the deterministic machinery between the kernel's files and the report, and proves what it promises:

- **WorkerPool**, **FanOut**: the process scanner's worker pool and the parallel collectors, as step
  systems over every interleaving, with a cancellation or a timeout possible at any moment.
- **Diagnoses**, **Analysis**, **EngineLaws**, **Engine**: the correlation engine as a class, the
  functions it computes, and the laws that span whole analyses: early exit is sound, disabling rules is
  filtering, the report is a partition.
- **Sorting**, **OrderStatistics**: the two library sorts (a stable one, and one that may place equals
  anywhere) and the upper median built on them.
- **Differential**, **Joins**, **Windows**, **MedianWindows**, **Sampling**: saturating counters, CPU shares,
  the joins by name, the aggregate of several windows, and what it says of the snapshots they were taken
  from, two for each window.
- **Text**, **ProcStat**, **CpuMask**, **Locks**, **Pairing**, **WrapText**, **TopN**: the small
  algorithms with real specifications, from `/proc/[pid]/stat` parsing to word wrap.

Conventions: `float64` is `real`; `uint64` is a bounded natural whose wrap-around is written out where the
code adds or multiplies; strings are sequences of bytes held in `char`; a rule is what the engine sees of
it, its threshold test being an arbitrary function from a window to an optional finding. A `nil` value is
`None`. File contents, the readability of a process and the roll-up of a process are inputs. A loop of the
source is a loop here, proved against a function of the same inputs whose properties are then proved as
lemmas. The option type is in **Wrappers**.

Where the code and its documentation differ, the code is followed:

- The comment at `internal/analyzer/engine.go:260` speaks of all contributing rules; only the primary's
  rule suppresses anything (`Analysis.Suppressed`).
- `MedianDiff` takes the upper median, index n/2, also for an even number of windows.
- Disabling a rule is not always filtering: with early exit on, disabling the one Tier 1 rule that reached
  the threshold brings Tier 3 findings into the report (`EngineLaws.DisablingMayAddFindings`);
  `EngineLaws.DisablingFiltersRanking` and `EngineLaws.DisablingFiltersReportIff` state exactly when it is
  filtering.
- The six CPU shares can exceed 100 together when one counter goes backwards while others grow
  (`Differential.SharesCanExceed100`); `Differential.SharesPartition` states exactly when they do not.
- Counting names over windows stands in for intersecting them. When a list repeats a name it can report a
  name that an earlier window lacks, with a missing sample read as zero
  (`MedianWindows.RepeatsFoolTheMerge`); `MedianWindows.MergeKeysIff` states exactly when the reported
  names are the intersection: for every latest name there are no repeats, or some windows lack the name
  and the repeats do not make up for exactly that many (`Joins.CountAgreesIff`).
- A clock set back between two windows goes unnoticed; only a step back within a window marks the report
  (`Sampling.BackBetweenWindows`, `Sampling.AggregateClockJump`).
- A header line without values spoils the next pair exactly when it has that pair's prefix
  (`Pairing.OrphanHarmlessIff`).
- On a value that does not parse, the netstat reader keeps what it had while the snmp readers take zero, or
  the largest counter once the digits overflow (`Pairing.UnparsedValue`).

## Model

| member | source | states |
|---|---|---|
| WorkerPool.StepInv | internal/collector/process.go:54-90 | every step of the main goroutine, a worker or the closer, and a cancellation at any point, keeps the invariant: job balance, wait-group count, channel states, who may have dropped what |
| WorkerPool.PoolIsSafe | internal/collector/process.go:54-90 | in every state of every run no send blocks or meets a closed channel, each channel is closed once, results only after every worker has exited, and the jobs in all places together are exactly the discovered ones |
| WorkerPool.InvSafe | internal/collector/process.go:54-90 | buffers as long as the PID list are always large enough for the next send |
| WorkerPool.Progress | internal/collector/process.go:54-90 | until the scan returns some goroutine other than the canceller can move: no deadlock |
| WorkerPool.StepLowers | internal/collector/process.go:54-90 | a measure of the work left falls with every step |
| WorkerPool.RunsAreBounded | internal/collector/process.go:46-90 | no run has more than 5n + 3w + 7 steps for n PIDs and w workers |
| WorkerPool.EveryRunCompletes | internal/collector/process.go:46-90 | every run, however it was scheduled so far, extends to one that returns |
| WorkerPool.ScanOutcome | internal/collector/process.go:59-94 | on return every goroutine has ended; uncancelled, the collected list is a permutation of exactly the readable PIDs; cancelled, it is a sub-multiset and at most one received PID per worker was given up |
| WorkerPool.NumWorkersIsNearest | internal/collector/process.go:46-52 | the pool has the number of workers nearest to the number of CPUs between one and one per PID |
| WorkerPool.CancellationStopsScan | internal/collector/process.go:64-76 | once the context is done no further PID is read: a cancelled scan returns exactly the results that were in flight at that moment |
| WorkerPool.CancelledBeforeReading | internal/collector/process.go:64-76 | a scan cancelled before anything was read returns nothing |
| FanOut.StepInv | internal/collector/snapshot.go:750-793 | every step keeps the relation between a task's two goroutines, its channel, the wait group and its snapshot field |
| FanOut.SendNeverBlocks | internal/collector/snapshot.go:750-793 | an inner goroutine's send is always possible, also after its task timed out |
| FanOut.NoWriteAfterReturn | internal/collector/snapshot.go:750-793 | after the collectors return nothing writes the snapshot, whatever still runs |
| FanOut.SnapshotIsAppliedResults | internal/collector/snapshot.go:750-793 | each field holds its task's result if that was applied and its old value otherwise; the tasks not applied are those that timed out |
| FanOut.AppliedResultIsWritten | internal/collector/snapshot.go:763-766 | a task that was applied has its result in its field; a nil result leaves the field as it was |
| FanOut.TakenIsApplied | internal/collector/snapshot.go:761-768 | on return the results applied are exactly those that were taken from their channels |
| FanOut.OrderDoesNotMatter | internal/collector/snapshot.go:750-793 | two runs that applied the same tasks end in the same snapshot |
| FanOut.Progress | internal/collector/snapshot.go:750-793 | the caller can always get away without any collector finishing |
| FanOut.StepLowers | internal/collector/snapshot.go:750-793 | every step, left-over goroutines included, lowers a measure |
| FanOut.RunsAreBounded | internal/collector/snapshot.go:750-793 | no run has more than 7n + 1 steps for n tasks |
| FanOut.NothingIsLeftBehind | internal/collector/snapshot.go:750-793 | when nothing can move any more the caller has returned and no goroutine is left |
| Sorting.SliceStable | internal/analyzer/engine.go:214-229 | the library's stable sort, as the insertion order the laws below are about |
| Sorting.SortSlice | internal/collector/median.go:76-78 | the library's unstable sort: some ordered permutation, nothing more |
| Sorting.SortedIsStable | internal/analyzer/engine.go:214-229 | the result is ordered and items of one rank keep their order |
| Sorting.StableSortIsUnique | internal/analyzer/engine.go:214-229 | any stable sort, whatever its algorithm, returns the same sequence |
| Sorting.SortCommutesWithFilter | internal/analyzer/engine.go:214-229 | sorting and then keeping some items is keeping them and then sorting |
| Sorting.SortedConcat | internal/analyzer/engine.go:214-229 | items that all rank in front are sorted on their own |
| Sorting.HeadIsFirstLeast | internal/analyzer/engine.go:214-229 | the head of the result is the earliest item that nothing precedes |
| Sorting.RanksAreDetermined | cmd/why-slow/main.go:176-181 | two unstable sorts of the same items agree in rank at every position |
| Diagnoses.RankingIsPreorder | internal/analyzer/engine.go:214-229 | the three-key comparison is a total preorder, as the sort demands |
| Diagnoses.SeverityOrder | internal/analyzer/engine.go:231-244 | CRITICAL outranks HIGH, HIGH MEDIUM, MEDIUM INFO, and INFO anything else |
| Diagnoses.PenaltiesOnlyLower | internal/analyzer/engine.go:198-212 | a clock jump halves a confidence, a missing privilege takes two fifths of a PID-dependent one, both compound, and nothing else changes |
| Diagnoses.CalibrationMeaning | internal/analyzer/engine.go:335-373 | only the pressure on the finding's own resource moves its confidence: up by a tenth, to at most 1, exactly above 20, down by three tenths exactly below 1, and not at all in between |
| Diagnoses.CalibrationMonotoneInPressure | internal/analyzer/engine.go:335-373 | more pressure never makes a finding less credible |
| Diagnoses.CalibrationKeepsOrder | internal/analyzer/engine.go:335-373 | findings about one resource are never strictly inverted |
| Diagnoses.CalibrationMayInvert | internal/analyzer/engine.go:335-373 | findings about different resources can be |
| Analysis.FiredInIff | internal/analyzer/engine.go:140-178 | a tier's findings are those of its enabled rules, no more and no fewer |
| Analysis.FiredConcat | internal/analyzer/engine.go:140-178 | findings come in rule order |
| Analysis.Tier3SkippedIff | internal/analyzer/engine.go:162-178 | Tier 3 is skipped exactly when early exit is on and an enabled Tier 1 rule reports at least 0.90 |
| Analysis.TriggeredIff | internal/analyzer/engine.go:140-178 | Tiers 1 and 2 are always evaluated, Tier 3 when it is not skipped, rules of other tiers never |
| Analysis.CalibrationGuard | internal/analyzer/engine.go:124-129 | findings are calibrated, and the report says so, exactly when the latest snapshot has pressure data |
| Analysis.ClockJumpRunsTier3 | internal/analyzer/engine.go:140-178 | a clock jump always keeps Tier 3 in play |
| Analysis.UnprivilegedRunsTier3 | internal/analyzer/engine.go:140-178 | so does an unprivileged run in which only PID-dependent Tier 1 rules fire |
| Analysis.ConfidencesInRange | internal/analyzer/engine.go:140-212 | every ranked finding has a confidence in 0..1 if the rules' own confidences are |
| Analysis.ReportPartitions | internal/analyzer/engine.go:184-195 | every triggered finding is exactly one of primary, contributing, secondary or suppressed by the primary |
| Analysis.PrimaryIsFirstLeast | internal/analyzer/engine.go:184-193 | the primary is the earliest registered finding that no other precedes |
| Analysis.RankingOrder | internal/analyzer/engine.go:214-229 | at every two places the ranking is by tier, then by severity, then by confidence |
| Analysis.PrimaryDominates | internal/analyzer/engine.go:184-229 | nothing ranked beats the primary on tier, then severity, then confidence |
| Analysis.ListedFindings | internal/analyzer/engine.go:246-302 | a finding the primary does not suppress contributes exactly when it is CRITICAL or HIGH or shares the primary's tier below the first, and is secondary otherwise |
| Analysis.SuppressedByFirst | internal/analyzer/engine.go:291-302 | what is suppressed is exactly what the first rule with the primary's ID names |
| Analysis.SuppressedByNone | internal/analyzer/engine.go:291-302 | without such a rule nothing is |
| Analysis.ListedUnlessSuppressed | internal/analyzer/engine.go:246-302 | a finding the primary's rule names is in neither list; every other one contributes when CRITICAL, HIGH or of the primary's tier below the first, and is secondary when not |
| EngineLaws.RankedInHalves | internal/analyzer/engine.go:140-193 | Tier 3 findings are ranked on their own behind all others |
| EngineLaws.EarlyExitIsSound | internal/analyzer/engine.go:140-195 | with early exit the primary is the full run's, both lists are prefixes of the full run's, and what they lack is Tier 3 only |
| EngineLaws.EarlyExitIsExact | internal/analyzer/engine.go:140-195 | an early exit changes neither list exactly when the primary suppresses every Tier 3 finding |
| EngineLaws.Tier3NeverLost | internal/analyzer/engine.go:140-178 | disabling rules can bring Tier 3 into play, never take it out |
| EngineLaws.TriggeredAfterDisabling | internal/analyzer/engine.go:140-178 | disabling leaves the kept findings in order, followed by Tier 3 if it only now runs |
| EngineLaws.DisablingFiltersRanking | internal/analyzer/engine.go:143-193 | disabling removes exactly those rules' findings from the ranking if and only if it brings no Tier 3 finding into play |
| EngineLaws.DisablingFiltersReport | internal/analyzer/engine.go:143-302 | with early exit off, disabling rules other than the primary's gives the same primary and both lists with exactly those findings removed |
| EngineLaws.DisablingFiltersReportIff | internal/analyzer/engine.go:143-302 | disabling rules other than the primary's keeps the primary, and filters both lists if and only if Tier 3 runs in both analyses or in neither, or the primary suppresses every Tier 3 finding that only now fires |
| EngineLaws.DisablingMayAddFindings | internal/analyzer/engine.go:140-302 | with early exit on, a concrete rule set where disabling puts a Tier 3 finding into the secondary list that was in neither list before, under the same primary |
| CorrelationEngine.RejectedIDs | internal/analyzer/engine.go:62-90 | a disable list is rejected exactly when it names something unregistered |
| CorrelationEngine.AcceptedIDs | internal/analyzer/engine.go:62-90 | only registered IDs are disabled, and an accepted list disables all it names |
| CorrelationEngine.AcceptedInFront | internal/analyzer/engine.go:62-90 | whatever the verdict, the IDs disabled are the non-blank ones in front of the first unknown one, in order |
| CorrelationEngine.IDsOfRules | internal/analyzer/engine.go:63-66 | the registered IDs are those of the rules |
| CorrelationEngine.Engine.constructor | internal/analyzer/engine.go:30-43 | a new engine holds its rules in tier order, nothing disabled, early exit on |
| CorrelationEngine.Engine.RegisterRules | internal/analyzer/engine.go:46-59 | appends the rules and keeps each tier list equal to the rules of that tier in order |
| CorrelationEngine.Engine.SetDisabledRules | internal/analyzer/engine.go:62-90 | replaces the set by the trimmed IDs up to the first unknown one, which it reports |
| CorrelationEngine.Engine.GetRule | internal/analyzer/engine.go:98-105 | the first registered rule with the ID, if any |
| CorrelationEngine.Engine.EvaluateTier | internal/analyzer/engine.go:143-178 | the findings of the enabled rules in order, and whether one reaches 0.90 |
| CorrelationEngine.Engine.BuildSuppressionSet | internal/analyzer/engine.go:291-302 | exactly the IDs the first rule with the primary's ID suppresses, none without such a rule |
| CorrelationEngine.Engine.Categorize | internal/analyzer/engine.go:246-287 | both lists are the ranking behind the primary, filtered by slot, in order |
| CorrelationEngine.Engine.Analyze | internal/analyzer/engine.go:113-196 | the report of the current settings, an empty one without a window, and nothing of the engine changes |
| CorrelationEngine.CalibrateDiagnoses | internal/analyzer/engine.go:335-363 | every finding is calibrated in place, or none without pressure data |
| OrderStatistics.MedianUint64 | internal/collector/median.go:71-79 | the upper median: a sample with at most half of the samples below it and more than half not above it; 0 for none |
| OrderStatistics.MedianFloat64 | internal/collector/median.go:81-89 | the same for percentages and latencies |
| OrderStatistics.MedianIsUnique | internal/collector/median.go:71-89 | that characterisation fixes the value |
| OrderStatistics.AnySortedMiddle | internal/collector/median.go:71-89 | it does not matter where the unstable sort leaves equals |
| OrderStatistics.MedianAtMost | internal/collector/median.go:71-89 | the median is at most hi exactly when more than half of the samples are |
| OrderStatistics.MedianAtLeast | internal/collector/median.go:71-89 | it is at least lo exactly when at most half of the samples are below lo |
| OrderStatistics.MedianPermutation | internal/collector/median.go:71-89 | the order of the samples does not matter |
| OrderStatistics.MedianMonotone | internal/collector/median.go:71-89 | raising samples never lowers the median |
| OrderStatistics.MedianResistsOutliers | internal/collector/median.go:71-89 | it lies in [lo, hi] whenever at least floor(n/2) + 1 samples do |
| Differential.Diff | internal/collector/snapshot.go:1147-1152 | what a counter gained, or nothing when it went backwards |
| Differential.ClampIsNearest | internal/collector/snapshot.go:1154-1162 | a value is moved to the nearest percentage in 0..100, and no farther |
| Differential.CoreUtilInRange | internal/collector/snapshot.go:827-853 | every CPU percentage is in 0..100 for arbitrary counters, wrapped sums included |
| Differential.CoreUtilShares | internal/collector/snapshot.go:827-853 | in a window with progress no sum wraps and every share is its group's gain over the total |
| Differential.UtilOfCounters | internal/collector/snapshot.go:827-853 | counter by counter: User is user and nice, System is system and irq, and Busy all but idle and iowait, each the gain's share of the total |
| Differential.NoProgressNoUtil | internal/collector/snapshot.go:827-835 | all percentages are zero when the total did not grow |
| Differential.SharesPartition | internal/collector/snapshot.go:827-853 | the six shares never sum to less than 100, and to exactly 100 if and only if no group went backwards or only one grew |
| Differential.SteadyCountersPartition | internal/collector/snapshot.go:63-70 | with eight nondecreasing counters the six shares sum to 100 and Busy is 100 - Idle - IOWait |
| Differential.SteadySharesUnclamped | internal/collector/snapshot.go:827-853 | and no clamp acts: all seven percentages are the plain ratios times 100 |
| Differential.SharesCanExceed100 | internal/collector/snapshot.go:827-853 | concrete counters, IOWait going backwards, whose shares exceed 100 |
| Joins.IndexBy | internal/collector/snapshot.go:868-930 | the index map holds the last item of every key and no other key |
| Joins.FindLastIsLast | internal/collector/snapshot.go:868-872 | of several items with a key the index map keeps the last |
| Joins.FindFirstIsFirst | internal/collector/median.go:208-229 | and a scan stops at the first |
| Joins.UniqueFind | internal/collector/snapshot.go:868-930 | with unique keys first match, last match and the item itself agree |
| Joins.HashJoin | internal/collector/snapshot.go:868-930 | one record per right-hand item whose key the left knows, in order |
| Joins.JoinKeys | internal/collector/snapshot.go:868-930 | the joined names are the later list's names restricted to those the earlier list has |
| Joins.JoinRecords | internal/collector/snapshot.go:868-930 | a name is joined exactly when both lists have it, and unique names stay unique |
| Joins.JoinLookup | internal/collector/snapshot.go:868-930 | with unique names the hash join finds the record a nested scan would make |
| Joins.HashOuterJoin | internal/collector/snapshot.go:1069-1086 | one record per right-hand item, with the left item of its key or none |
| Joins.CountKeys | internal/collector/median.go:192-206 | the map counts the items of each key over all lists |
| Joins.CountKeyIsLength | internal/collector/median.go:192-206 | repeats of a name within a window are counted one by one |
| Joins.CountIsIntersection | internal/collector/median.go:192-229 | with unique names, a name counted as often as there are lists is in every list, and conversely |
| Joins.CountBalance | internal/collector/median.go:192-229 | the mentions of a name fall short of the number of windows by the windows lacking it and exceed it by the repeats |
| Joins.CountAgreesIff | internal/collector/median.go:192-229 | counting a name is intersecting exactly when it has no repeats, or some windows lack it and the repeats do not make up for exactly that many |
| Windows.CalculatePerCoreUtil | internal/collector/snapshot.go:855-866 | the utilisation of every core both snapshots have |
| Windows.DiffSnapshots | internal/collector/snapshot.go:796-825 | the window between two snapshots, marked and one second long if the clock did not advance |
| Windows.WindowScalars | internal/collector/snapshot.go:796-812 | duration, clock mark, running and blocked processes, and the gains in context switches and processes, from the first snapshot to the second |
| Windows.WindowCPU | internal/collector/snapshot.go:812 | the total CPU percentages are those from the first snapshot to the second, counter by counter, and zero without progress |
| Windows.WindowCPUSteady | internal/collector/snapshot.go:812 | with nondecreasing counters they are the plain ratios of the gains |
| Windows.WindowCore | internal/collector/snapshot.go:855-866 | core i of the window is core i of both snapshots, in the same direction |
| Windows.WindowCoreSteady | internal/collector/snapshot.go:855-866 | and its percentages are the plain ratios when its counters are nondecreasing |
| Windows.WindowPercentages | internal/collector/snapshot.go:827-866 | every percentage of a window is in 0..100, in total and per core, and there are as many cores as in the shorter of the two lists |
| Windows.DiskWindowMentions | internal/collector/snapshot.go:868-930 | a window lists exactly the devices present at both ends |
| Windows.CgroupWindowMentions | internal/collector/snapshot.go:1040-1067 | and exactly the cgroups present at both ends |
| Windows.WindowDisk | internal/collector/snapshot.go:868-930 | looking up a device gives the differential of its two readings, utilisation in 0..100 |
| Windows.DiskCountsMeaning | internal/collector/snapshot.go:868-930 | operation and byte counts are exact while they fit 64 bits |
| Windows.DiskLatencyMeaning | internal/collector/snapshot.go:868-930 | the average latencies times the operations are the time spent, whatever the operation counters did |
| Windows.DurationMSMeaning | internal/collector/snapshot.go:875-878 | a window counts in whole milliseconds, or as a second if it has none |
| Windows.DiskUtilMeaning | internal/collector/snapshot.go:868-930 | utilisation is the busy time's share of the window, 100 from the whole window on; the remaining fields are the device's own |
| Windows.CgroupDeltaMeaning | internal/collector/snapshot.go:1040-1067 | each of the five cgroup counters is its own gain, nothing if it went backwards |
| Windows.SecondsMeaning | internal/collector/snapshot.go:1076-1079 | the rate's seconds are the window's nanoseconds |
| Windows.WindowProcesses | internal/collector/snapshot.go:1069-1145 | every live process is reported in order with its own name, state, memory and open files; one that is new has used no CPU and read and written nothing |
| Windows.WindowProcessMatched | internal/collector/snapshot.go:1069-1086 | a process seen at both ends is matched by its PID |
| Windows.ProcessDeltaMeaning | internal/collector/snapshot.go:1088-1145 | CPU and I/O deltas are exact and the rate times the duration is the CPU time |
| MedianWindows.RealMedianIsMedian | internal/collector/median.go:81-119 | the median of a field satisfies the order statistic over that field's samples |
| MedianWindows.CounterMedianIsMedian | internal/collector/median.go:63-79 | and so it does for a counter |
| MedianWindows.MedianCPUUtil | internal/collector/median.go:91-119 | each of the seven percentages is the median, by the order statistic, of its own samples |
| MedianWindows.MinCoresIsLeast | internal/collector/median.go:144-160 | the aggregate has as many cores as the window with the fewest |
| MedianWindows.MedianPerCoreCPUUtil | internal/collector/median.go:144-190 | core c is the median of core c over all windows |
| MedianWindows.CoreColumnAt | internal/collector/median.go:144-190 | the samples of core c are core c of every window |
| MedianWindows.ScanEach | internal/collector/median.go:208-229 | the nested scan finds each window's first record of a name |
| MedianWindows.MedianDiskDiffs | internal/collector/median.go:192-241 | the latest list's devices that were counted in every window, each with the medians of its samples |
| MedianWindows.MedianCgroupDiffs | internal/collector/median.go:243-286 | the same for cgroups |
| MedianWindows.MedianDiff | internal/collector/median.go:11-42 | none for no window, the window itself for one, otherwise every machine-wide number and core is the median by the order statistic |
| MedianWindows.MedianFields | internal/collector/median.go:11-190 | processes running and blocked, context switches, processes created, and the percentages in total and of every common core are medians of their own samples |
| MedianWindows.PresentKeepsOrder | internal/collector/median.go:44-52 | nil windows are dropped, the others kept in order |
| MedianWindows.AnyClockJump | internal/collector/median.go:54-61 | whether any window saw the clock jump |
| MedianWindows.MergeKeys | internal/collector/median.go:192-286 | with unique names the merged list is the latest window's restricted to the names of every window |
| MedianWindows.MergeKeysIff | internal/collector/median.go:192-286 | repeats allowed, that holds if and only if the counts agree with the intersection for every latest name |
| MedianWindows.RepeatsFoolTheMerge | internal/collector/median.go:192-241 | a latest list that repeats a device an earlier window lacks reports it, with the missing sample read as zero |
| MedianWindows.MergeLookup | internal/collector/median.go:192-286 | looking up a name that every window has gives its latest record merged with its samples |
| MedianWindows.OneWindowIsItsMedian | internal/collector/median.go:11-21 | the short cut for a single window returns what the general case would |
| MedianWindows.MergeRecords | internal/collector/median.go:192-286 | every merged record has a found sample in every window: no zero is ever mixed in |
| Sampling.CaptureDifferential | cmd/why-slow/main.go:406-436 | the window between two fresh snapshots, none if either is missing |
| Sampling.CaptureSamples | cmd/why-slow/main.go:380-404 | nothing when the context was done before one of several windows; otherwise the median of the windows that could be taken |
| Sampling.SampledMedian | cmd/why-slow/main.go:380-404 | for one window or many the result is the field-wise median of the windows, none only if there are none |
| Sampling.SampledFields | cmd/why-slow/main.go:380-404 | and every machine-wide number and common core of it satisfies the order statistic over the windows taken |
| Sampling.SuccessfulKeepsOrder | cmd/why-slow/main.go:393-401 | failed captures are dropped, the others kept in order |
| Sampling.AggregateDiskNames | internal/collector/median.go:192-241 | over independent pairs of snapshots, the disk list names the last snapshot's devices that both snapshots of every window have, in order |
| Sampling.AggregateCgroupNames | internal/collector/median.go:243-286 | and so does the cgroup list |
| Sampling.AggregateDiskFields | internal/collector/median.go:208-241 | utilisation, three latencies and two byte counts of a device are the medians, by the order statistic, of its n readings, one per pair; utilisation is in 0..100 and the rest is the last reading's |
| Sampling.AggregateCgroupFields | internal/collector/median.go:259-286 | and so are a cgroup's four counters |
| Sampling.AggregatePercentages | internal/collector/median.go:91-241 | no percentage leaves 0..100 in total, per core or per disk, whatever the counters and names did |
| Sampling.AggregateClockJump | internal/collector/median.go:54-61 | the aggregate is marked exactly when some window's second snapshot is not later than its first |
| Sampling.BackBetweenWindows | internal/collector/median.go:54-61 | a clock set back between two windows marks nothing |
| Sampling.SampledResult | cmd/why-slow/main.go:380-404 | all of this of what the program hands to the rule engine |
| ProcStat.CutIsExact | internal/collector/process.go:210-222 | nothing in a command name can disturb the cut at the first '(' and the last ')' |
| ProcStat.ParsePrinted | internal/collector/process.go:210-268 | parsing undoes printing for every command name when no later field contains ')', and refuses another process's line |
| ProcStat.ParenSpoilsComm | internal/collector/process.go:210-268 | with a later ')' no accepted line has the right command name |
| ProcStat.CommRecoveredIff | internal/collector/process.go:210-268 | PID and command name are recovered exactly when no later field contains ')' |
| ProcStat.NumbersRecovered | internal/collector/process.go:230-268 | state, ppid, utime, stime, threads, RSS bytes and policy come back as printed, over their whole ranges |
| ProcStat.NoParensRefused | internal/collector/process.go:211-217 | a line without both parentheses in order is refused |
| ProcStat.ShortOrNamelessRefused | internal/collector/process.go:219-229 | so is one with fewer than 22 fields behind the name or a PID that is no number |
| ProcStat.ShortLineHasNoPolicy | internal/collector/process.go:249-252 | a line that ends before the policy field has policy zero |
| CpuMask.CountBitsInHexMask | internal/collector/process.go:351-357 | the loop's count is the sum over the nibble table |
| CpuMask.CountIsPopCount | internal/collector/process.go:344-357 | that sum is the number of one bits of the number the mask denotes, commas and case aside |
| CpuMask.OtherCharsCountNothing | internal/collector/process.go:344-349 | characters that are no hex digits count nothing |
| CpuMask.CountOfPrinted | internal/collector/process.go:344-357 | the count of n printed digits is the number of CPUs below 4n in the set |
| CpuMask.CountIsSetSize | internal/collector/process.go:344-357 | for every CPU set printed in groups of eight digits the count is the size of the set |
| Locks.ParseFileLocks | internal/collector/locks.go:59-77 | every non-blank line is counted and every waiter reported with the holder known at that point |
| Locks.ApplyEntry | internal/collector/locks.go:80-127 | a granted line writes both keys, a waiter reads its lock ID first and its inode if that is zero |
| Locks.SharedMap | internal/collector/locks.go:80-127 | a key of the shared map holds the PID of the latest granted line that names it either way |
| Locks.SharingIsSound | internal/collector/locks.go:80-127 | one map is as good as two while lock IDs have no colon and inode keys do |
| Locks.HolderIsLatestGrant | internal/collector/locks.go:80-127 | a waiter's holder is that of the latest earlier grant of its lock ID, else of its device:inode |
| Locks.SharingNeedsApartKeys | internal/collector/locks.go:80-127 | without that separation a waiter can be blamed on the wrong process |
| Locks.GrantedLine | internal/collector/locks.go:80-127 | the kernel's line for a held lock is read back |
| Locks.BlockedLine | internal/collector/locks.go:80-127 | so is the line for a waiter |
| Locks.GluedLine | internal/collector/locks.go:80-127 | and the waiter's line whose arrow is glued to the lock ID |
| Locks.MalformedLine | internal/collector/locks.go:80-113 | a line with too few fields or no number for a PID is ignored |
| Locks.LatestHolderIsLast | internal/collector/locks.go:115-127 | a holder is whoever is on the last lock that qualifies |
| Locks.NoHolder | internal/collector/locks.go:115-127 | and zero if none does |
| Locks.WaiterAt | internal/collector/locks.go:115-124 | every waiter has its own line of the report, in file order, with its PID, kind, file and holder |
| Locks.WaitersAreAll | internal/collector/locks.go:115-124 | there are as many lines as waiters |
| Locks.WaitersOfFile | internal/collector/locks.go:59-127 | for every list of locks, among blank lines and with any white space before, between and behind the words, exactly the waiters are reported, in order, each with the latest holder of its lock, else of its file |
| Pairing.ParseNetStat | internal/collector/system.go:297-413 | each TcpExt counter is the last value under its name that parses, in the rows of the file |
| Pairing.ParseTCPExtFields | internal/collector/system.go:347-413 | each known counter takes the last parsing value under its name; extra names or values are ignored |
| Pairing.ParseSNMP | internal/collector/system.go:416-474 | the five Tcp and Udp counters from the rows of the file |
| Pairing.ParseIPSNMP | internal/collector/system.go:895-946 | the four Ip counters from the same rows: both readers pair a file identically |
| Pairing.NoiseIsIgnored | internal/collector/system.go:313-318 | lines with fewer than two fields never matter, wherever they stand |
| Pairing.PairsAreRead | internal/collector/system.go:313-338 | any sequence of header/value pairs is read as exactly those pairs |
| Pairing.FileOfPairs | internal/collector/system.go:428-471 | so is any file that shows them with noise lines and any spacing |
| Pairing.MachineIsLookahead | internal/collector/system.go:907-944 | on every file whatever, the state machine finds what a reader looking at two neighbouring lines would |
| Pairing.Resynchronises | internal/collector/system.go:313-338 | an orphan header is dropped at the next line with another prefix and reading starts afresh there |
| Pairing.OrphanHarmlessIff | internal/collector/system.go:313-338 | in front of pairs an orphan header is harmless exactly when the first pair has another prefix |
| Pairing.MetricRecovered | internal/collector/system.go:347-361 | a counter printed under its name is read back over its whole range |
| Pairing.LastValueWins | internal/collector/system.go:347-361 | of several values under a name the last that the reader accepts wins |
| Pairing.NoValueKeeps | internal/collector/system.go:347-361 | without one the earlier value stays |
| Pairing.TcpRecovered | internal/collector/system.go:441-450 | the two Tcp counters are those the file gives under their own names |
| Pairing.UdpRecovered | internal/collector/system.go:451-463 | so are the three Udp counters |
| Pairing.IpRecovered | internal/collector/system.go:922-936 | and the four Ip counters |
| Pairing.TcpExtNames | internal/collector/system.go:363-413 | the 24 TcpExt counters that are kept |
| Pairing.AbsentPrefixReadsZero | internal/collector/system.go:313-338 | a counter whose prefix opens no line of the file reads as zero |
| Pairing.UnparsedValue | internal/collector/system.go:347-361 | a value that does not parse is skipped by netstat; snmp takes the maximum if the digits in front overflow and zero otherwise |
| WrapText.Wrap | internal/presenter/terminal.go:434-457 | the text written is the greedy breaking of the words, rendered with the indent |
| WrapText.WidthIsLength | internal/presenter/terminal.go:441-455 | the width a line is judged by is the length of the line written |
| WrapText.GreedyIsBreaking | internal/presenter/terminal.go:434-457 | the word sequence is preserved and a line over the limit holds a single word |
| WrapText.GreedyIsOptimal | internal/presenter/terminal.go:434-457 | no breaking whose multi-word lines all fit has fewer lines |
| WrapText.GreedyIsTight | internal/presenter/terminal.go:444-450 | no line has room for the first word of the next one |
| WrapText.RenderedLines | internal/presenter/terminal.go:441-456 | cutting the text at its newlines gives exactly the lines of the breaking, each behind the indent |
| WrapText.WrapKeepsWords | internal/presenter/terminal.go:434-457 | with a blank indent, splitting the wrapped text gives back the words of the text |
| TopN.EnrichTopRSSSmapsRollup | internal/collector/process.go:411-441 | in place, exactly min(50, n) positions get their roll-up, each with RSS at least that of every other, and nothing else changes |
| TopN.ChoicesDifferInTies | internal/collector/process.go:426-435 | two such choices differ only in processes of equal RSS, so without ties the choice is determined |
| TopN.ExtractTopProcesses | cmd/why-slow/main.go:169-209 | nothing without a window or a positive n; otherwise min(n, len) reports, busiest first and larger first among equals |
| TopN.TopIsRanked | cmd/why-slow/main.go:176-181 | the list is in order of CPU load, then of memory, and nothing left out outranks anything listed |
| TopN.ReportMeaning | cmd/why-slow/main.go:188-206 | each field of a report is the process's own, megabytes and kilobytes multiply back to bytes, and a missing state shows as a question mark |
| TopN.TopIsDetermined | cmd/why-slow/main.go:176-181 | load and memory of every line of the list are the same in any outcome of the sort |
| Text.FieldsOfSpread | internal/collector/locks.go:80-82 | splitting at white space undoes spreading words over any white space |
| Text.FieldsAreWords | internal/presenter/terminal.go:435-436 | splitting only yields non-empty words without white space |
| Text.AtoiRoundTrip | internal/collector/process.go:222-228 | reading undoes printing over the whole signed 64-bit range |
| Text.AtoiMeaning | internal/collector/process.go:236-252 | a number is an optional sign and digits that fit; otherwise the nearest bound is left behind if the digits in front overflow, and zero if not |
| Text.ParseUintRoundTrip | internal/collector/system.go:353-358 | and over the whole unsigned one |
| Text.ScanMeaning | internal/collector/system.go:353-358 | reading left to right succeeds exactly on digits that fit, and fails with the maximum exactly when the leading digits overflow |

## Left out

- The `Evaluate` bodies of the individual rules: one threshold test and message text each; a rule is an arbitrary function whose findings carry its own ID and tier and a confidence in 0..1.
- The category tests on rule IDs (`isMemoryRule`, `isIORule`, `isCPURule`): a classifier in the switch's order stands for them.
- A finding's evidence, remediation and message texts: copied, never decided on.
- File opening, directory reads, clocks, signals, flags, standard error, terminal cards and JSON: lines, readability and roll-ups are inputs.
- Float rounding and NaN: percentages and confidences are exact reals, so a confidence that only rounding puts above a threshold is not modelled.
- White space beyond the six ASCII characters, and strings that are not byte sequences.
- WorkerPool.StepInv: starting a worker (`wg.Add` and `go`) is one step, and the stop signal is a flag seen by the select; the Go memory model is not modelled.
- WorkerPool.ScanOutcome: reading one process is an oracle per PID; an empty PID list returns before the pool starts and is not part of the model.
- FanOut.SnapshotIsAppliedResults: a task's closure writes one field with one value; what each collector reads is its own affair.
- Sorting.SliceStable: the library's merge and insertion blocks are not modelled, only what any stable sort must return.
- Windows.DiffSnapshots: interfaces, virtual memory and network counters are left out (the interface join has the disk join's shape, the rest are single subtractions), and so are process fields that are merely copied.
- Windows.WindowProcesses: the ratios of open files and queued signals are left out.
- MedianWindows.MedianDiff: network and virtual-memory medians are left out (single applications of the median); fields copied from the latest window beyond those shown are left out.
- CorrelationEngine.Engine.Analyze: the report's timestamp, duration text and pressure summary are left out (copied, never decided on); nil and empty lists are not told apart.
- Pairing.ParseNetStat: the counters are a map keyed by header name instead of struct fields of the same names; the scanner's line-length error is left out.
- ProcStat.ParsePrinted: fields of the process record that other files fill in are left out.
- Locks.ParseFileLocks: a missing or unreadable file and an over-long line are left out; the map is passed as a value instead of shared by reference.
- TopN.EnrichTopRSSSmapsRollup: the roll-up is an oracle by PID and one number stands for its fields; the process list is an array updated in place.
- Key/value readers (meminfo, vmstat, pressure files, load average, sysctls), the watch loop and the PID focus: easy members.
