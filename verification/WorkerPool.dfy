/** The worker pool that reads every process found. */
module WorkerPool {

  // A step is one communication or one wait-group operation of one goroutine, so a run is an
  // arbitrary interleaving of the main goroutine, the workers, the closer and a cancellation
  // that may strike at any moment. Channels are bounded queues: a send on a full channel is
  // a step that is not enabled, a send on a closed one a fault.

  /** A job is the position of a PID in the discovered list, so that repeated PIDs stay apart. */
  type Job = nat

  /** `readable(k)` is the answer the file system gives when the k-th PID is read. */
  datatype Config = Config(pids: seq<int>, numCPU: int, readable: Job -> bool)
  {
    ghost predicate Valid() { |pids| > 0 }

    /** numCPU, at least one, at most one per PID. */
    function NumWorkers(): int {
      var atLeastOne := if numCPU < 1 then 1 else numCPU;
      if atLeastOne > |pids| then |pids| else atLeastOne
    }
  }

  function Distance(m: int, n: int): nat { if m < n then n - m else m - n }

  /** No number of workers from one to one per PID is nearer to the number of CPUs. */
  lemma NumWorkersIsNearest(c: Config, m: int)
    requires c.Valid() && 1 <= m <= |c.pids|
    ensures 1 <= c.NumWorkers() <= |c.pids|
    ensures Distance(c.NumWorkers(), c.numCPU) <= Distance(m, c.numCPU)
  {}

  datatype Channel = Channel(cap: nat, queue: seq<Job>, closed: bool)
  {
    predicate HasRoom() { !closed && |queue| < cap }
    function Send(j: Job): Channel { this.(queue := queue + [j]) }
    function Receive(): Channel requires queue != [] { this.(queue := queue[1..]) }
    function Close(): Channel { this.(closed := true) }
  }

  /** Leaving: the function body returned, the deferred wg.Done has not run yet. */
  datatype Worker = Idle | Holding(job: Job) | Delivering(job: Job) | Leaving | Exited

  datatype Main = Spawning | Sending(next: nat) | ClosingJobs | StartingCloser | Collecting | Returned

  datatype Closer = NotStarted | Waiting | Done

  /** `dropped` and `unreadable` record the fate of the jobs that never reach `results`. */
  datatype State = State(
    main: Main, workers: seq<Worker>, closer: Closer, wg: int,
    jobs: Channel, results: Channel, cancelled: bool,
    dropped: seq<Job>, unreadable: seq<Job>, collected: seq<Job>)

  datatype Step =
    | Spawn | SendJob | CloseJobs | StartCloser | Collect | Return
    | TakeJob(w: nat) | SeeClosed(w: nat) | Examine(w: nat) | Deliver(w: nat) | SignOff(w: nat)
    | CloseResults
    | Cancel

  function Init(c: Config): State {
    State(Spawning, [], NotStarted, 0, Channel(|c.pids|, [], false), Channel(|c.pids|, [], false),
          false, [], [], [])
  }

  predicate OfWorker(step: Step) {
    step.TakeJob? || step.SeeClosed? || step.Examine? || step.Deliver? || step.SignOff?
  }

  ghost predicate Enabled(c: Config, s: State, step: Step) {
    match step
    case Spawn => s.main.Spawning?
    case SendJob => s.main.Sending? && s.jobs.HasRoom()
    case CloseJobs => s.main.ClosingJobs?
    case StartCloser => s.main.StartingCloser?
    case Collect => s.main.Collecting? && s.results.queue != []
    case Return => s.main.Collecting? && s.results.queue == [] && s.results.closed
    case TakeJob(w) => w < |s.workers| && s.workers[w].Idle? && s.jobs.queue != []
    case SeeClosed(w) => w < |s.workers| && s.workers[w].Idle? && s.jobs.queue == [] && s.jobs.closed
    case Examine(w) => w < |s.workers| && s.workers[w].Holding?
    case Deliver(w) => w < |s.workers| && s.workers[w].Delivering? && s.results.HasRoom()
    case SignOff(w) => w < |s.workers| && s.workers[w].Leaving?
    case CloseResults => s.closer.Waiting? && s.wg == 0
    case Cancel => !s.cancelled
  }

  ghost function Apply(c: Config, s: State, step: Step): State
    requires Enabled(c, s, step)
  {
    match step
    case Spawn =>
      s.(workers := s.workers + [Idle], wg := s.wg + 1,
         main := if |s.workers| + 1 < c.NumWorkers() then Spawning else Sending(0))
    case SendJob =>
      s.(jobs := s.jobs.Send(s.main.next),
         main := if s.main.next + 1 < |c.pids| then Sending(s.main.next + 1) else ClosingJobs)
    case CloseJobs => s.(jobs := s.jobs.Close(), main := StartingCloser)
    case StartCloser => s.(closer := Waiting, main := Collecting)
    case Collect => s.(results := s.results.Receive(), collected := s.collected + [s.results.queue[0]])
    case Return => s.(main := Returned)
    case TakeJob(w) => s.(jobs := s.jobs.Receive(), workers := s.workers[w := Holding(s.jobs.queue[0])])
    case SeeClosed(w) => s.(workers := s.workers[w := Leaving])
    case Examine(w) =>
      var j := s.workers[w].job;
      if s.cancelled then s.(workers := s.workers[w := Leaving], dropped := s.dropped + [j])
      else if c.readable(j) then s.(workers := s.workers[w := Delivering(j)])
      else s.(workers := s.workers[w := Idle], unreadable := s.unreadable + [j])
    case Deliver(w) => s.(results := s.results.Send(s.workers[w].job), workers := s.workers[w := Idle])
    case SignOff(w) => s.(workers := s.workers[w := Exited], wg := s.wg - 1)
    case CloseResults => s.(results := s.results.Close(), closer := Done)
    case Cancel => s.(cancelled := true)
  }

  ghost predicate Next(c: Config, s: State, s': State) {
    exists step :: Enabled(c, s, step) && s' == Apply(c, s, step)
  }

  ghost predicate IsRun(c: Config, run: seq<State>) {
    && |run| > 0
    && run[0] == Init(c)
    && forall i :: 0 <= i < |run| - 1 ==> Next(c, run[i], run[i + 1])
  }

  // ---------------------------------------------------------------- Where every job is

  function Range(lo: nat, hi: nat): (r: seq<Job>)
    ensures |r| == if lo <= hi then hi - lo else 0
    decreases hi - lo
  {
    if lo < hi then [lo] + Range(lo + 1, hi) else []
  }

  function Sent(c: Config, m: Main): nat {
    match m
    case Spawning => 0
    case Sending(next) => next
    case _ => |c.pids|
  }

  function InHand(ws: seq<Worker>): seq<Job> {
    if ws == [] then []
    else InHand(ws[..|ws| - 1]) + (var w := ws[|ws| - 1]; if w.Holding? || w.Delivering? then [w.job] else [])
  }

  /** Every job the scan knows of, place by place. */
  ghost function Whereabouts(c: Config, s: State): seq<Job> {
    Range(Sent(c, s.main), |c.pids|) + s.jobs.queue + InHand(s.workers)
    + s.dropped + s.unreadable + s.results.queue + s.collected
  }

  /** No job is ever lost or duplicated. */
  ghost predicate Conserved(c: Config, s: State) {
    multiset(Whereabouts(c, s)) == multiset(Range(0, |c.pids|))
  }

  // The bookkeeping is done in integers: f gives every job a value, and the sum of the
  // values over all places never changes. f == 1 counts jobs, an indicator counts one job.

  function Sum(f: Job -> int, q: seq<Job>): int {
    if q == [] then 0 else f(q[0]) + Sum(f, q[1..])
  }

  function Held(f: Job -> int, w: Worker): int {
    if w.Holding? || w.Delivering? then f(w.job) else 0
  }

  function HeldSum(f: Job -> int, ws: seq<Worker>): int {
    if ws == [] then 0 else HeldSum(f, ws[..|ws| - 1]) + Held(f, ws[|ws| - 1])
  }

  ghost predicate Balanced(c: Config, s: State, f: Job -> int) {
    Sum(f, Range(Sent(c, s.main), |c.pids|)) + Sum(f, s.jobs.queue) + HeldSum(f, s.workers)
    + Sum(f, s.dropped) + Sum(f, s.unreadable) + Sum(f, s.results.queue) + Sum(f, s.collected)
    == Sum(f, Range(0, |c.pids|))
  }

  lemma {:induction false} SumConcat(f: Job -> int, p: seq<Job>, q: seq<Job>)
    ensures Sum(f, p + q) == Sum(f, p) + Sum(f, q)
  {
    if p == [] {
      assert p + q == q;
    } else {
      assert (p + q)[1..] == p[1..] + q;
      SumConcat(f, p[1..], q);
    }
  }

  lemma SumAppend(f: Job -> int, q: seq<Job>, j: Job)
    ensures Sum(f, q + [j]) == Sum(f, q) + f(j)
  {
    SumConcat(f, q, [j]);
  }

  lemma {:induction false} HeldUpdate(f: Job -> int, ws: seq<Worker>, i: nat, w: Worker)
    requires i < |ws|
    ensures HeldSum(f, ws[i := w]) == HeldSum(f, ws) - Held(f, ws[i]) + Held(f, w)
  {
    var n := |ws| - 1;
    if i == n {
      assert ws[i := w][..n] == ws[..n];
    } else {
      assert ws[i := w][..n] == ws[..n][i := w];
      HeldUpdate(f, ws[..n], i, w);
    }
  }

  /** How many workers satisfy p. */
  function Tally(p: Worker -> bool, ws: seq<Worker>): nat {
    if ws == [] then 0 else Tally(p, ws[..|ws| - 1]) + (if p(ws[|ws| - 1]) then 1 else 0)
  }

  lemma {:induction false} TallyUpdate(p: Worker -> bool, ws: seq<Worker>, i: nat, w: Worker)
    requires i < |ws|
    ensures Tally(p, ws[i := w]) == Tally(p, ws) - (if p(ws[i]) then 1 else 0) + (if p(w) then 1 else 0)
  {
    var n := |ws| - 1;
    if i == n {
      assert ws[i := w][..n] == ws[..n];
    } else {
      assert ws[i := w][..n] == ws[..n][i := w];
      TallyUpdate(p, ws[..n], i, w);
    }
  }

  lemma {:induction false} TallyBounds(p: Worker -> bool, ws: seq<Worker>)
    ensures Tally(p, ws) <= |ws|
    ensures Tally(p, ws) == 0 <==> forall i :: 0 <= i < |ws| ==> !p(ws[i])
  {
    if ws != [] {
      var n := |ws| - 1;
      TallyBounds(p, ws[..n]);
      assert forall i :: 0 <= i < n ==> ws[i] == ws[..n][i];
    }
  }

  predicate IsLive(w: Worker) { !w.Exited? }
  predicate IsGone(w: Worker) { w.Exited? || w.Leaving? }

  // ---------------------------------------------------------------- The invariant

  /** A job is in `results` or collected only if its PID could be read. */
  ghost predicate OnlyReadable(c: Config, s: State) {
    && (forall j :: j in s.results.queue ==> c.readable(j))
    && (forall j :: j in s.collected ==> c.readable(j))
    && (forall j :: j in s.unreadable ==> !c.readable(j))
    && (forall w :: 0 <= w < |s.workers| && s.workers[w].Delivering? ==> c.readable(s.workers[w].job))
  }

  ghost predicate Control(c: Config, s: State) {
    && s.jobs.cap == s.results.cap == |c.pids|
    && (s.main.Spawning? ==> |s.workers| < c.NumWorkers())
    && (!s.main.Spawning? ==> |s.workers| == c.NumWorkers())
    && (s.main.Sending? ==> s.main.next < |c.pids|)
    && s.wg == Tally(IsLive, s.workers)
    && (s.jobs.closed <==> s.main.StartingCloser? || s.main.Collecting? || s.main.Returned?)
    && (s.closer.NotStarted? <==> !(s.main.Collecting? || s.main.Returned?))
    && (s.results.closed <==> s.closer.Done?)
    && (s.closer.Done? ==> s.wg == 0)
    && (s.main.Returned? ==> s.results.closed && s.results.queue == [])
  }

  ghost predicate Attrition(s: State) {
    && |s.dropped| <= Tally(IsGone, s.workers)
    && (!s.cancelled ==> s.dropped == [])
    && (!s.cancelled && Tally(IsGone, s.workers) > 0 ==> s.jobs.closed && s.jobs.queue == [])
  }

  ghost predicate Inv(c: Config, s: State, f: Job -> int) {
    Control(c, s) && Balanced(c, s, f) && OnlyReadable(c, s) && Attrition(s)
  }

  lemma ControlMainStep(c: Config, s: State, step: Step)
    requires c.Valid() && Control(c, s) && Enabled(c, s, step) && !OfWorker(step)
    ensures Control(c, Apply(c, s, step))
  {
    TallyBounds(IsLive, s.workers);
  }

  lemma ControlWorkerStep(c: Config, s: State, step: Step)
    requires c.Valid() && Control(c, s) && Enabled(c, s, step) && OfWorker(step)
    ensures Control(c, Apply(c, s, step))
  {
    TallyBounds(IsLive, s.workers);
    TallyUpdate(IsLive, s.workers, step.w, Apply(c, s, step).workers[step.w]);
  }

  lemma ControlStep(c: Config, s: State, step: Step)
    requires c.Valid() && Control(c, s) && Enabled(c, s, step)
    ensures Control(c, Apply(c, s, step))
  {
    if OfWorker(step) { ControlWorkerStep(c, s, step); } else { ControlMainStep(c, s, step); }
  }

  lemma BalancedMainStep(c: Config, s: State, step: Step, f: Job -> int)
    requires Control(c, s) && Balanced(c, s, f) && Enabled(c, s, step) && !OfWorker(step)
    ensures Balanced(c, Apply(c, s, step), f)
  {
    match step
    case SendJob => SumAppend(f, s.jobs.queue, s.main.next);
    case Collect => SumAppend(f, s.collected, s.results.queue[0]);
    case _ =>
  }

  lemma BalancedExamine(c: Config, s: State, w: nat, f: Job -> int)
    requires Balanced(c, s, f) && Enabled(c, s, Examine(w))
    ensures Balanced(c, Apply(c, s, Examine(w)), f)
  {
    var j := s.workers[w].job;
    SumAppend(f, s.dropped, j);
    SumAppend(f, s.unreadable, j);
    HeldUpdate(f, s.workers, w, Apply(c, s, Examine(w)).workers[w]);
  }

  lemma BalancedDeliver(c: Config, s: State, w: nat, f: Job -> int)
    requires Balanced(c, s, f) && Enabled(c, s, Deliver(w))
    ensures Balanced(c, Apply(c, s, Deliver(w)), f)
  {
    SumAppend(f, s.results.queue, s.workers[w].job);
    HeldUpdate(f, s.workers, w, Idle);
  }

  lemma BalancedWorkerStep(c: Config, s: State, step: Step, f: Job -> int)
    requires Balanced(c, s, f) && OfWorker(step) && Enabled(c, s, step)
    ensures Balanced(c, Apply(c, s, step), f)
  {
    match step
    case Examine(w) => BalancedExamine(c, s, w, f);
    case Deliver(w) => BalancedDeliver(c, s, w, f);
    case TakeJob(w) => HeldUpdate(f, s.workers, w, Holding(s.jobs.queue[0]));
    case SeeClosed(w) => HeldUpdate(f, s.workers, w, Leaving);
    case SignOff(w) => HeldUpdate(f, s.workers, w, Exited);
  }

  lemma BalancedStep(c: Config, s: State, step: Step, f: Job -> int)
    requires Control(c, s) && Balanced(c, s, f) && Enabled(c, s, step)
    ensures Balanced(c, Apply(c, s, step), f)
  {
    if OfWorker(step) { BalancedWorkerStep(c, s, step, f); } else { BalancedMainStep(c, s, step, f); }
  }

  lemma OnlyReadableStep(c: Config, s: State, step: Step)
    requires OnlyReadable(c, s) && Enabled(c, s, step)
    ensures OnlyReadable(c, Apply(c, s, step))
  {}

  lemma AttritionMainStep(c: Config, s: State, step: Step)
    requires Control(c, s) && Attrition(s) && Enabled(c, s, step) && !OfWorker(step)
    ensures Attrition(Apply(c, s, step))
  {}

  lemma AttritionWorkerStep(c: Config, s: State, step: Step)
    requires Control(c, s) && Attrition(s) && Enabled(c, s, step) && OfWorker(step)
    ensures Attrition(Apply(c, s, step))
  {
    TallyUpdate(IsGone, s.workers, step.w, Apply(c, s, step).workers[step.w]);
  }

  lemma AttritionStep(c: Config, s: State, step: Step)
    requires Control(c, s) && Attrition(s) && Enabled(c, s, step)
    ensures Attrition(Apply(c, s, step))
  {
    if OfWorker(step) { AttritionWorkerStep(c, s, step); } else { AttritionMainStep(c, s, step); }
  }

  /** Every step of every goroutine, and a cancellation at any point, keeps the invariant. */
  lemma StepInv(c: Config, s: State, s': State, f: Job -> int)
    requires c.Valid() && Inv(c, s, f) && Next(c, s, s')
    ensures Inv(c, s', f)
  {
    var step :| Enabled(c, s, step) && s' == Apply(c, s, step);
    ControlStep(c, s, step);
    BalancedStep(c, s, step, f);
    OnlyReadableStep(c, s, step);
    AttritionStep(c, s, step);
  }

  lemma RunPrefix(c: Config, run: seq<State>)
    requires IsRun(c, run) && |run| > 1
    ensures IsRun(c, run[..|run| - 1]) && Next(c, run[|run| - 2], run[|run| - 1])
  {
    var n := |run| - 2;
    assert Next(c, run[n], run[n + 1]);
    var prefix := run[..n + 1];
    forall i | 0 <= i < n ensures Next(c, prefix[i], prefix[i + 1]) {
      assert Next(c, run[i], run[i + 1]);
    }
  }

  lemma {:induction false} RunInv(c: Config, run: seq<State>, f: Job -> int)
    requires c.Valid() && IsRun(c, run)
    ensures Inv(c, run[|run| - 1], f)
  {
    if |run| > 1 {
      RunPrefix(c, run);
      RunInv(c, run[..|run| - 1], f);
      StepInv(c, run[|run| - 2], run[|run| - 1], f);
    }
  }

  // ---------------------------------------------------------------- Safety

  /**
    A goroutine standing at a send always finds an open channel with room, a close finds
    its channel open, and wg.Done never drives the counter below zero.
  */
  ghost predicate Safe(s: State) {
    && (s.main.Sending? ==> s.jobs.HasRoom())
    && (s.main.ClosingJobs? ==> !s.jobs.closed)
    && (forall w :: 0 <= w < |s.workers| && s.workers[w].Delivering? ==> s.results.HasRoom())
    && (s.closer.Waiting? ==> !s.results.closed)
    && (forall w :: 0 <= w < |s.workers| && s.workers[w].Leaving? ==> s.wg > 0)
    && (s.results.closed ==> forall w :: 0 <= w < |s.workers| ==> s.workers[w].Exited?)
  }

  function One(j: Job): int { 1 }

  lemma {:induction false} SumOne(q: seq<Job>)
    ensures Sum(One, q) == |q|
  {
    if q != [] { SumOne(q[1..]); }
  }

  lemma {:induction false} HeldOne(ws: seq<Worker>, i: nat)
    requires i < |ws|
    ensures HeldSum(One, ws) >= 0
    ensures ws[i].Holding? || ws[i].Delivering? ==> HeldSum(One, ws) >= 1
  {
    var n := |ws| - 1;
    if i < n { HeldOne(ws[..n], i); }
    else if n > 0 { HeldOne(ws[..n], 0); }
  }

  lemma InvSafe(c: Config, s: State)
    requires c.Valid() && Inv(c, s, One)
    ensures Safe(s)
  {
    TallyBounds(IsLive, s.workers);
    SumOne(Range(Sent(c, s.main), |c.pids|)); SumOne(Range(0, |c.pids|));
    SumOne(s.jobs.queue); SumOne(s.dropped); SumOne(s.unreadable);
    SumOne(s.results.queue); SumOne(s.collected);
    if |s.workers| > 0 { HeldOne(s.workers, 0); }
    forall w | 0 <= w < |s.workers| && s.workers[w].Delivering? ensures s.results.HasRoom() {
      HeldOne(s.workers, w);
    }
  }

  ghost function Is(k: Job): Job -> int { j => if j == k then 1 else 0 }

  lemma {:induction false} SumIs(q: seq<Job>, k: Job)
    ensures Sum(Is(k), q) == multiset(q)[k]
  {
    if q != [] {
      SumIs(q[1..], k);
      assert q == [q[0]] + q[1..];
    }
  }

  lemma {:induction false} HeldIsInHand(f: Job -> int, ws: seq<Worker>)
    ensures HeldSum(f, ws) == Sum(f, InHand(ws))
  {
    if ws != [] {
      HeldIsInHand(f, ws[..|ws| - 1]);
      var w := ws[|ws| - 1];
      SumConcat(f, InHand(ws[..|ws| - 1]), if w.Holding? || w.Delivering? then [w.job] else []);
    }
  }

  lemma BalancedAsSum(c: Config, s: State, f: Job -> int)
    requires Balanced(c, s, f)
    ensures Sum(f, Whereabouts(c, s)) == Sum(f, Range(0, |c.pids|))
  {
    HeldIsInHand(f, s.workers);
    var p1 := Range(Sent(c, s.main), |c.pids|);
    var p2 := p1 + s.jobs.queue;
    var p3 := p2 + InHand(s.workers);
    var p4 := p3 + s.dropped;
    var p5 := p4 + s.unreadable;
    SumConcat(f, p1, s.jobs.queue); SumConcat(f, p2, InHand(s.workers)); SumConcat(f, p3, s.dropped);
    SumConcat(f, p4, s.unreadable); SumConcat(f, p5, s.results.queue);
    SumConcat(f, p5 + s.results.queue, s.collected);
  }

  /** No interleaving ever blocks a send, sends on or closes a closed channel, or loses a job. */
  lemma PoolIsSafe(c: Config, run: seq<State>)
    requires c.Valid() && IsRun(c, run)
    ensures Safe(run[|run| - 1]) && Conserved(c, run[|run| - 1])
  {
    var s := run[|run| - 1];
    RunInv(c, run, One);
    InvSafe(c, s);
    forall k: Job ensures multiset(Whereabouts(c, s))[k] == multiset(Range(0, |c.pids|))[k] {
      RunInv(c, run, Is(k));
      BalancedAsSum(c, s, Is(k));
      SumIs(Whereabouts(c, s), k);
      SumIs(Range(0, |c.pids|), k);
    }
  }

  /** Until the scan returns, some goroutine can move; a cancellation is never needed for that. */
  lemma Progress(c: Config, s: State) returns (step: Step)
    requires c.Valid() && Inv(c, s, One) && !s.main.Returned?
    ensures Enabled(c, s, step) && step != Cancel
  {
    InvSafe(c, s);
    match s.main
    case Spawning => step := Spawn;
    case Sending(_) => step := SendJob;
    case ClosingJobs => step := CloseJobs;
    case StartingCloser => step := StartCloser;
    case Collecting =>
      if s.results.queue != [] {
        step := Collect;
      } else if s.results.closed {
        step := Return;
      } else if s.wg == 0 {
        step := CloseResults;
      } else {
        TallyBounds(IsLive, s.workers);
        var w :| 0 <= w < |s.workers| && IsLive(s.workers[w]);
        step := match s.workers[w]
          case Idle => if s.jobs.queue != [] then TakeJob(w) else SeeClosed(w)
          case Holding(_) => Examine(w)
          case Delivering(_) => Deliver(w)
          case Leaving => SignOff(w);
      }
  }

  // ---------------------------------------------------------------- Termination

  function WorkerWeight(w: Worker): nat {
    match w
    case Idle => 2
    case Holding(_) => 5
    case Delivering(_) => 4
    case Leaving => 1
    case Exited => 0
  }

  function Weight(ws: seq<Worker>): nat {
    if ws == [] then 0 else Weight(ws[..|ws| - 1]) + WorkerWeight(ws[|ws| - 1])
  }

  lemma {:induction false} WeightUpdate(ws: seq<Worker>, i: nat, w: Worker)
    requires i < |ws|
    ensures Weight(ws[i := w]) == Weight(ws) - WorkerWeight(ws[i]) + WorkerWeight(w)
  {
    var n := |ws| - 1;
    if i == n {
      assert ws[i := w][..n] == ws[..n];
    } else {
      assert ws[i := w][..n] == ws[..n][i := w];
      WeightUpdate(ws[..n], i, w);
    }
  }

  function MainWeight(m: Main): nat {
    match m
    case Spawning => 5
    case Sending(_) => 5
    case ClosingJobs => 4
    case StartingCloser => 3
    case Collecting => 1
    case Returned => 0
  }

  /** What is left to do: every step lowers it. */
  ghost function Remaining(c: Config, s: State): int {
    5 * (|c.pids| - Sent(c, s.main)) + 4 * |s.jobs.queue| + Weight(s.workers) + |s.results.queue|
    + 3 * (c.NumWorkers() - |s.workers|) + MainWeight(s.main)
    + (if s.closer.Done? then 0 else 1) + (if s.cancelled then 0 else 1)
  }

  lemma RemainingNonNegative(c: Config, s: State)
    requires c.Valid() && Control(c, s)
    ensures 0 <= Remaining(c, s)
  {}

  lemma MainStepLowers(c: Config, s: State, step: Step)
    requires c.Valid() && Control(c, s) && Enabled(c, s, step) && !OfWorker(step)
    ensures Remaining(c, Apply(c, s, step)) < Remaining(c, s)
  {
    if step.Spawn? { assert (s.workers + [Idle])[..|s.workers|] == s.workers; }
  }

  lemma WorkerStepLowers(c: Config, s: State, step: Step)
    requires Control(c, s) && Enabled(c, s, step) && OfWorker(step)
    ensures Remaining(c, Apply(c, s, step)) < Remaining(c, s)
  {
    WeightUpdate(s.workers, step.w, Apply(c, s, step).workers[step.w]);
  }

  lemma StepLowers(c: Config, s: State, step: Step)
    requires c.Valid() && Control(c, s) && Enabled(c, s, step)
    ensures 0 <= Remaining(c, Apply(c, s, step)) < Remaining(c, s)
  {
    ControlStep(c, s, step);
    RemainingNonNegative(c, Apply(c, s, step));
    if OfWorker(step) { WorkerStepLowers(c, s, step); } else { MainStepLowers(c, s, step); }
  }

  lemma NextLowers(c: Config, s: State, s': State)
    requires c.Valid() && Control(c, s) && Next(c, s, s')
    ensures 0 <= Remaining(c, s') < Remaining(c, s)
  {
    var step :| Enabled(c, s, step) && s' == Apply(c, s, step);
    StepLowers(c, s, step);
  }

  /** Every run, however scheduled, has at most 5n + 3w + 7 steps. */
  lemma {:induction false} RunsAreBounded(c: Config, run: seq<State>)
    requires c.Valid() && IsRun(c, run)
    ensures |run| - 1 + Remaining(c, run[|run| - 1]) <= 5 * |c.pids| + 3 * c.NumWorkers() + 7
    ensures |run| - 1 <= 5 * |c.pids| + 3 * c.NumWorkers() + 7
  {
    if |run| > 1 {
      RunPrefix(c, run);
      RunsAreBounded(c, run[..|run| - 1]);
      RunInv(c, run[..|run| - 1], One);
      NextLowers(c, run[|run| - 2], run[|run| - 1]);
    } else {
      InitialWork(c);
    }
  }

  lemma InitialWork(c: Config)
    requires c.Valid()
    ensures 0 <= Remaining(c, Init(c)) <= 5 * |c.pids| + 3 * c.NumWorkers() + 7
  {}

  /** Whatever has happened so far, the scan can still run to its return. */
  lemma {:induction false} EveryRunCompletes(c: Config, run: seq<State>) returns (whole: seq<State>)
    requires c.Valid() && IsRun(c, run)
    ensures IsRun(c, whole) && run <= whole && whole[|whole| - 1].main.Returned?
    decreases Remaining(c, run[|run| - 1])
  {
    RunInv(c, run, One);
    var s := run[|run| - 1];
    if s.main.Returned? {
      whole := run;
    } else {
      var step := Progress(c, s);
      StepLowers(c, s, step);
      var longer := run + [Apply(c, s, step)];
      forall i | 0 <= i < |longer| - 1 ensures Next(c, longer[i], longer[i + 1]) {
        if i < |run| - 1 { assert Next(c, run[i], run[i + 1]); }
      }
      whole := EveryRunCompletes(c, longer);
    }
  }

  // ---------------------------------------------------------------- What the scan returns

  function Readable(c: Config, js: seq<Job>): seq<Job> {
    if js == [] then [] else (if c.readable(js[0]) then [js[0]] else []) + Readable(c, js[1..])
  }

  lemma {:induction false} ReadableCount(c: Config, js: seq<Job>, j: Job)
    ensures multiset(Readable(c, js))[j] == if c.readable(j) then multiset(js)[j] else 0
  {
    if js != [] {
      ReadableCount(c, js[1..], j);
      assert js == [js[0]] + js[1..];
    }
  }

  lemma ReturnedCounts(c: Config, s: State, k: Job)
    requires Inv(c, s, Is(k)) && s.main.Returned?
    ensures multiset(s.collected)[k] <= multiset(Readable(c, Range(0, |c.pids|)))[k]
    ensures !s.cancelled ==> multiset(s.collected)[k] == multiset(Readable(c, Range(0, |c.pids|)))[k]
  {
    TallyBounds(IsLive, s.workers);
    NothingHeld(Is(k), s.workers);
    if |s.workers| > 0 && !s.cancelled { TallyAll(s.workers); }
    ReadableCount(c, Range(0, |c.pids|), k);
    SumIs(Range(0, |c.pids|), k); SumIs(s.jobs.queue, k); SumIs(s.dropped, k);
    SumIs(s.unreadable, k); SumIs(s.collected, k);
    assert k in multiset(s.collected) ==> k in s.collected;
    assert k in multiset(s.unreadable) ==> k in s.unreadable;
  }

  lemma {:induction false} NothingHeld(f: Job -> int, ws: seq<Worker>)
    requires forall i :: 0 <= i < |ws| ==> ws[i].Exited?
    ensures HeldSum(f, ws) == 0
  {
    if ws != [] { NothingHeld(f, ws[..|ws| - 1]); }
  }

  lemma {:induction false} TallyAll(ws: seq<Worker>)
    requires forall i :: 0 <= i < |ws| ==> ws[i].Exited?
    ensures Tally(IsGone, ws) == |ws|
  {
    if ws != [] { TallyAll(ws[..|ws| - 1]); }
  }

  // ---------------------------------------------------------------- What a cancellation stops

  /** The jobs whose result is ready to be sent. */
  function Ready(ws: seq<Worker>): seq<Job> {
    if ws == [] then []
    else Ready(ws[..|ws| - 1]) + (if ws[|ws| - 1].Delivering? then [ws[|ws| - 1].job] else [])
  }

  /** The jobs that have been read and not been lost sight of. */
  function InFlight(s: State): seq<Job> { s.collected + s.results.queue + Ready(s.workers) }

  function ReadyValue(f: Job -> int, w: Worker): int { if w.Delivering? then f(w.job) else 0 }

  lemma ReadySum(f: Job -> int, ws: seq<Worker>)
    requires ws != []
    ensures Sum(f, Ready(ws)) == Sum(f, Ready(ws[..|ws| - 1])) + ReadyValue(f, ws[|ws| - 1])
  {
    var last := ws[|ws| - 1];
    SumConcat(f, Ready(ws[..|ws| - 1]), if last.Delivering? then [last.job] else []);
  }

  lemma {:induction false} ReadyUpdate(f: Job -> int, ws: seq<Worker>, i: nat, w: Worker)
    requires i < |ws|
    ensures Sum(f, Ready(ws[i := w])) == Sum(f, Ready(ws)) - ReadyValue(f, ws[i]) + ReadyValue(f, w)
  {
    var n := |ws| - 1;
    ReadySum(f, ws);
    ReadySum(f, ws[i := w]);
    if i == n {
      assert ws[i := w][..n] == ws[..n];
    } else {
      assert ws[i := w][..n] == ws[..n][i := w];
      ReadyUpdate(f, ws[..n], i, w);
    }
  }

  lemma ReadyAppend(ws: seq<Worker>)
    ensures Ready(ws + [Idle]) == Ready(ws)
  {
    assert (ws + [Idle])[..|ws|] == ws;
  }

  ghost function FlightSum(f: Job -> int, s: State): int {
    Sum(f, s.collected) + Sum(f, s.results.queue) + Sum(f, Ready(s.workers))
  }

  lemma FlightIsSum(f: Job -> int, s: State)
    ensures Sum(f, InFlight(s)) == FlightSum(f, s)
  {
    SumConcat(f, s.collected, s.results.queue);
    SumConcat(f, s.collected + s.results.queue, Ready(s.workers));
  }

  lemma CancelledMainStep(c: Config, s: State, step: Step, f: Job -> int)
    requires s.cancelled && Enabled(c, s, step) && !OfWorker(step)
    ensures Apply(c, s, step).cancelled && Apply(c, s, step).unreadable == s.unreadable
    ensures FlightSum(f, Apply(c, s, step)) == FlightSum(f, s)
  {
    if step.Spawn? { ReadyAppend(s.workers); }
    if step.Collect? { SumAppend(f, s.collected, s.results.queue[0]); }
  }

  lemma CancelledWorkerStep(c: Config, s: State, step: Step, f: Job -> int)
    requires s.cancelled && Enabled(c, s, step) && OfWorker(step)
    ensures Apply(c, s, step).cancelled && Apply(c, s, step).unreadable == s.unreadable
    ensures FlightSum(f, Apply(c, s, step)) == FlightSum(f, s)
  {
    ReadyUpdate(f, s.workers, step.w, Apply(c, s, step).workers[step.w]);
    if step.Deliver? { SumAppend(f, s.results.queue, s.workers[step.w].job); }
  }

  lemma CancelledNext(c: Config, s: State, s': State, f: Job -> int)
    requires s.cancelled && Next(c, s, s')
    ensures s'.cancelled && s'.unreadable == s.unreadable && FlightSum(f, s') == FlightSum(f, s)
  {
    var step :| Enabled(c, s, step) && s' == Apply(c, s, step);
    if OfWorker(step) { CancelledWorkerStep(c, s, step, f); } else { CancelledMainStep(c, s, step, f); }
  }

  lemma {:induction false} CancelledRun(c: Config, run: seq<State>, k: nat, f: Job -> int)
    requires IsRun(c, run) && k < |run| && run[k].cancelled
    ensures run[|run| - 1].cancelled && run[|run| - 1].unreadable == run[k].unreadable
    ensures FlightSum(f, run[|run| - 1]) == FlightSum(f, run[k])
  {
    if k < |run| - 1 {
      RunPrefix(c, run);
      CancelledRun(c, run[..|run| - 1], k, f);
      CancelledNext(c, run[|run| - 2], run[|run| - 1], f);
    }
  }

  lemma {:induction false} NothingReady(ws: seq<Worker>)
    requires forall i :: 0 <= i < |ws| ==> ws[i].Exited?
    ensures Ready(ws) == []
  {
    if ws != [] { NothingReady(ws[..|ws| - 1]); }
  }

  lemma FlightCount(c: Config, run: seq<State>, k: nat, j: Job)
    requires IsRun(c, run) && k < |run| && run[k].cancelled
    ensures multiset(InFlight(run[|run| - 1]))[j] == multiset(InFlight(run[k]))[j]
  {
    CancelledRun(c, run, k, Is(j));
    FlightIsSum(Is(j), run[k]);
    FlightIsSum(Is(j), run[|run| - 1]);
    SumIs(InFlight(run[k]), j);
    SumIs(InFlight(run[|run| - 1]), j);
  }

  lemma ReturnedFlight(c: Config, run: seq<State>)
    requires c.Valid() && IsRun(c, run) && run[|run| - 1].main.Returned?
    ensures InFlight(run[|run| - 1]) == run[|run| - 1].collected
  {
    var t := run[|run| - 1];
    RunInv(c, run, One);
    InvSafe(c, t);
    NothingReady(t.workers);
  }

  /** After a cancellation no further PID is read: the scan returns exactly what was in flight by then. */
  lemma CancellationStopsScan(c: Config, run: seq<State>, k: nat)
    requires c.Valid() && IsRun(c, run) && k < |run| && run[k].cancelled
    ensures run[|run| - 1].unreadable == run[k].unreadable
    ensures multiset(InFlight(run[|run| - 1])) == multiset(InFlight(run[k]))
    ensures run[|run| - 1].main.Returned? ==> multiset(run[|run| - 1].collected) == multiset(InFlight(run[k]))
  {
    CancelledRun(c, run, k, One);
    forall j: Job ensures multiset(InFlight(run[|run| - 1]))[j] == multiset(InFlight(run[k]))[j] {
      FlightCount(c, run, k, j);
    }
    if run[|run| - 1].main.Returned? { ReturnedFlight(c, run); }
  }

  /** A scan cancelled before it read anything returns nothing. */
  lemma CancelledBeforeReading(c: Config, run: seq<State>, k: nat)
    requires c.Valid() && IsRun(c, run) && k < |run| && run[k].cancelled && InFlight(run[k]) == []
    requires run[|run| - 1].main.Returned?
    ensures run[|run| - 1].collected == []
  {
    CancellationStopsScan(c, run, k);
    assert |multiset(run[|run| - 1].collected)| == 0;
  }

  /**
    When the scan returns, every goroutine it started has ended. Without a cancellation
    the collected list is a permutation of exactly the readable jobs. With one it is a
    part of them, no job is collected twice, and at most one received job per worker
    was given up.
  */
  lemma ScanOutcome(c: Config, run: seq<State>)
    requires c.Valid() && IsRun(c, run) && run[|run| - 1].main.Returned?
    ensures var s := run[|run| - 1];
      && s.closer.Done?
      && |s.workers| == c.NumWorkers()
      && (forall w :: 0 <= w < |s.workers| ==> s.workers[w].Exited?)
      && (!s.cancelled ==> multiset(s.collected) == multiset(Readable(c, Range(0, |c.pids|))))
      && multiset(s.collected) <= multiset(Readable(c, Range(0, |c.pids|)))
      && |s.dropped| <= c.NumWorkers()
      && |s.collected| + |s.unreadable| + |s.dropped| + |s.jobs.queue| == |c.pids|
  {
    var s := run[|run| - 1];
    RunInv(c, run, One);
    InvSafe(c, s);
    TallyBounds(IsGone, s.workers);
    NothingHeld(One, s.workers);
    SumOne(Range(0, |c.pids|));
    SumOne(s.jobs.queue); SumOne(s.dropped); SumOne(s.unreadable); SumOne(s.collected);
    forall k: Job
      ensures multiset(s.collected)[k] <= multiset(Readable(c, Range(0, |c.pids|)))[k]
      ensures !s.cancelled ==> multiset(s.collected)[k] == multiset(Readable(c, Range(0, |c.pids|)))[k]
    {
      RunInv(c, run, Is(k));
      ReturnedCounts(c, s, k);
    }
  }
}
