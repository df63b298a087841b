/** The collectors that run in parallel. */
module FanOut {

  // One goroutine per task selects between the task's result and a timeout, while an inner
  // goroutine computes the result and hands it over on a buffered channel: a step system over
  // arbitrary interleavings and arbitrary timeouts.
  //
  // Task i owns field i of the snapshot. `result(i)` is what its closure writes there; None is
  // the file-lock collector's nil result, whose closure writes nothing.

  import opened Wrappers

  datatype Config<V> = Config(blank: seq<V>, result: nat -> Option<V>)

  /** Finishing: the select is over, the deferred wg.Done is still to run. */
  datatype Outer = Unstarted | Preparing | Selecting | Applying | Finishing(applied: bool) | Exited(applied: bool)
  datatype Inner = Absent | Running | Sending | Sent
  /** `full`: the one-slot channel between the two goroutines holds the closure. */
  datatype Task = Task(outer: Outer, inner: Inner, full: bool)

  datatype Main = Starting(next: nat) | Waiting | Returned

  datatype State<V> = State(main: Main, tasks: seq<Task>, wg: int, snap: seq<V>)

  datatype Step =
    | Start | Return
    | Launch(i: nat) | Compute(i: nat) | Send(i: nat)
    | Receive(i: nat) | TimeOut(i: nat) | WriteField(i: nat) | Finish(i: nat)

  predicate OfTask(step: Step) { !step.Start? && !step.Return? }

  function Init<V>(c: Config<V>): State<V> {
    State(if |c.blank| == 0 then Waiting else Starting(0),
          seq(|c.blank|, i => Task(Unstarted, Absent, false)), 0, c.blank)
  }

  ghost predicate Enabled<V(!new)>(c: Config<V>, s: State<V>, step: Step) {
    if OfTask(step) then step.i < |s.tasks| && TaskEnabled(s.tasks[step.i], step)
    else if step.Start? then s.main.Starting? && s.main.next < |s.tasks|
    else s.main.Waiting? && s.wg == 0
  }

  predicate TaskEnabled(t: Task, step: Step)
    requires OfTask(step)
  {
    match step
    case Launch(_) => t.outer.Preparing?
    case Compute(_) => t.inner.Running?
    case Send(_) => t.inner.Sending? && !t.full
    case Receive(_) => t.outer.Selecting? && t.full
    case TimeOut(_) => t.outer.Selecting?
    case WriteField(_) => t.outer.Applying?
    case Finish(_) => t.outer.Finishing?
  }

  function TaskApply(t: Task, step: Step): Task
    requires OfTask(step) && TaskEnabled(t, step)
  {
    match step
    case Launch(_) => t.(outer := Selecting, inner := Running)
    case Compute(_) => t.(inner := Sending)
    case Send(_) => t.(inner := Sent, full := true)
    case Receive(_) => t.(outer := Applying, full := false)
    case TimeOut(_) => t.(outer := Finishing(false))
    case WriteField(_) => t.(outer := Finishing(true))
    case Finish(_) => t.(outer := Exited(t.outer.applied))
  }

  function Written<V>(c: Config<V>, i: nat, before: V): V {
    match c.result(i) case Some(v) => v case None => before
  }

  ghost function Apply<V(!new)>(c: Config<V>, s: State<V>, step: Step): State<V>
    requires Enabled(c, s, step) && |s.snap| == |s.tasks|
  {
    if OfTask(step) then
      State(s.main, s.tasks[step.i := TaskApply(s.tasks[step.i], step)],
            if step.Finish? then s.wg - 1 else s.wg,
            if step.WriteField? then s.snap[step.i := Written(c, step.i, s.snap[step.i])] else s.snap)
    else if step.Start? then
      s.(tasks := s.tasks[s.main.next := Task(Preparing, Absent, false)], wg := s.wg + 1,
         main := if s.main.next + 1 < |s.tasks| then Starting(s.main.next + 1) else Waiting)
    else s.(main := Returned)
  }

  ghost predicate Next<V(!new)>(c: Config<V>, s: State<V>, s': State<V>) {
    |s.snap| == |s.tasks| && exists step :: Enabled(c, s, step) && s' == Apply(c, s, step)
  }

  ghost predicate IsRun<V(!new)>(c: Config<V>, run: seq<State<V>>) {
    && |run| > 0
    && run[0] == Init(c)
    && forall i :: 0 <= i < |run| - 1 ==> Next(c, run[i], run[i + 1])
  }

  // ---------------------------------------------------------------- The invariant

  predicate Started(t: Task) { !t.outer.Unstarted? }
  predicate Open(t: Task) { !t.outer.Unstarted? && !t.outer.Exited? }

  predicate Applied(t: Task) { (t.outer.Finishing? || t.outer.Exited?) && t.outer.applied }

  /** The result was sent, and it is no longer in the channel. */
  predicate Taken(t: Task) { t.inner.Sent? && !t.full }

  function OpenCount(ts: seq<Task>): nat {
    if ts == [] then 0 else OpenCount(ts[..|ts| - 1]) + (if Open(ts[|ts| - 1]) then 1 else 0)
  }

  lemma {:induction false} OpenUpdate(ts: seq<Task>, i: nat, t: Task)
    requires i < |ts|
    ensures OpenCount(ts[i := t]) == OpenCount(ts) - (if Open(ts[i]) then 1 else 0) + (if Open(t) then 1 else 0)
  {
    var n := |ts| - 1;
    if i == n {
      assert ts[i := t][..n] == ts[..n];
    } else {
      assert ts[i := t][..n] == ts[..n][i := t];
      OpenUpdate(ts[..n], i, t);
    }
  }

  lemma {:induction false} OpenNone(ts: seq<Task>)
    ensures OpenCount(ts) == 0 <==> forall i :: 0 <= i < |ts| ==> !Open(ts[i])
  {
    if ts != [] {
      var n := |ts| - 1;
      OpenNone(ts[..n]);
      assert forall i :: 0 <= i < n ==> ts[i] == ts[..n][i];
    }
  }

  /** How the two goroutines of one task stand to each other. */
  predicate TaskInv(t: Task) {
    && (t.inner.Absent? <==> t.outer.Unstarted? || t.outer.Preparing?)
    && (t.full ==> t.inner.Sent?)
    && (Taken(t) <==> t.outer.Applying? || Applied(t))
  }

  ghost predicate Inv<V(!new)>(c: Config<V>, s: State<V>) {
    && |s.tasks| == |s.snap| == |c.blank|
    && s.wg == OpenCount(s.tasks)
    && (forall i :: 0 <= i < |s.tasks| ==> TaskInv(s.tasks[i]))
    && (match s.main
        case Starting(next) =>
          next < |s.tasks| && forall i :: 0 <= i < |s.tasks| ==> (Started(s.tasks[i]) <==> i < next)
        case Waiting => forall i :: 0 <= i < |s.tasks| ==> Started(s.tasks[i])
        case Returned => forall i :: 0 <= i < |s.tasks| ==> s.tasks[i].outer.Exited?)
    && (forall i :: 0 <= i < |s.tasks| ==>
          s.snap[i] == if Applied(s.tasks[i]) then Written(c, i, c.blank[i]) else c.blank[i])
  }

  lemma TaskStepInv(t: Task, step: Step)
    requires TaskInv(t) && OfTask(step) && TaskEnabled(t, step)
    ensures TaskInv(TaskApply(t, step)) && Started(TaskApply(t, step)) && Started(t)
    ensures Open(TaskApply(t, step)) <==> Open(t) && !step.Finish?
    ensures step.Finish? ==> Open(t)
    ensures t.outer.Exited? ==> TaskApply(t, step).outer.Exited?
    ensures Applied(TaskApply(t, step)) <==> Applied(t) || step.WriteField?
    ensures step.WriteField? ==> !Applied(t)
  {}

  lemma TaskStepKeepsInv<V(!new)>(c: Config<V>, s: State<V>, step: Step)
    requires Inv(c, s) && OfTask(step) && Enabled(c, s, step)
    ensures Inv(c, Apply(c, s, step))
  {
    var s' := Apply(c, s, step);
    OpenUpdate(s.tasks, step.i, s'.tasks[step.i]);
    TaskStepInv(s.tasks[step.i], step);
  }

  lemma StartKeepsInv<V(!new)>(c: Config<V>, s: State<V>)
    requires Inv(c, s) && Enabled(c, s, Start)
    ensures Inv(c, Apply(c, s, Start))
  {
    OpenUpdate(s.tasks, s.main.next, Task(Preparing, Absent, false));
  }

  lemma StepInv<V(!new)>(c: Config<V>, s: State<V>, s': State<V>)
    requires Inv(c, s) && Next(c, s, s')
    ensures Inv(c, s')
  {
    var step :| Enabled(c, s, step) && s' == Apply(c, s, step);
    OpenNone(s.tasks);
    if OfTask(step) { TaskStepKeepsInv(c, s, step); }
    else if step.Start? { StartKeepsInv(c, s); }
  }

  lemma RunPrefix<V(!new)>(c: Config<V>, run: seq<State<V>>)
    requires IsRun(c, run) && |run| > 1
    ensures IsRun(c, run[..|run| - 1]) && Next(c, run[|run| - 2], run[|run| - 1])
  {
    var n := |run| - 2;
    var prefix := run[..n + 1];
    assert Next(c, run[n], run[n + 1]);
    forall i | 0 <= i < n ensures Next(c, prefix[i], prefix[i + 1]) {
      assert Next(c, run[i], run[i + 1]);
    }
  }

  lemma {:induction false} RunInv<V(!new)>(c: Config<V>, run: seq<State<V>>)
    requires IsRun(c, run)
    ensures Inv(c, run[|run| - 1])
  {
    if |run| == 1 {
      OpenNone(Init(c).tasks);
    } else {
      RunPrefix(c, run);
      RunInv(c, run[..|run| - 1]);
      StepInv(c, run[|run| - 2], run[|run| - 1]);
    }
  }

  // ---------------------------------------------------------------- Theorems

  /** An inner goroutine never blocks on its send, not even long after its task timed out. */
  lemma SendNeverBlocks<V(!new)>(c: Config<V>, run: seq<State<V>>, i: nat)
    requires IsRun(c, run) && i < |run[|run| - 1].tasks|
    requires run[|run| - 1].tasks[i].inner.Sending?
    ensures Enabled(c, run[|run| - 1], Send(i))
  {
    RunInv(c, run);
  }

  /** Once the collectors have returned, whatever is still running leaves the snapshot alone for good. */
  lemma {:induction false} NoWriteAfterReturn<V(!new)>(c: Config<V>, run: seq<State<V>>, k: nat)
    requires IsRun(c, run) && k < |run| && run[k].main.Returned?
    ensures run[|run| - 1].snap == run[k].snap && run[|run| - 1].main.Returned?
  {
    if k < |run| - 1 {
      RunPrefix(c, run);
      NoWriteAfterReturn(c, run[..|run| - 1], k);
      RunInv(c, run[..|run| - 1]);
    }
  }

  ghost function AppliedTasks<V(!new)>(s: State<V>): set<nat> {
    set i | 0 <= i < |s.tasks| && Applied(s.tasks[i])
  }

  /** The returned snapshot holds exactly the applied results, whatever the order was. */
  lemma SnapshotIsAppliedResults<V(!new)>(c: Config<V>, run: seq<State<V>>)
    requires IsRun(c, run)
    ensures var s := run[|run| - 1];
      && |s.snap| == |s.tasks| == |c.blank|
      && (forall i :: 0 <= i < |c.blank| ==>
            s.snap[i] == if i in AppliedTasks(s) then Written(c, i, c.blank[i]) else c.blank[i])
      && (s.main.Returned? ==> forall i :: 0 <= i < |c.blank| ==>
            (i !in AppliedTasks(s) <==> s.tasks[i].outer == Exited(false)))
  {
    RunInv(c, run);
  }

  /** An applied result is in the snapshot; a nil one leaves the field as it was. */
  lemma AppliedResultIsWritten<V(!new)>(c: Config<V>, run: seq<State<V>>, i: nat)
    requires IsRun(c, run) && i in AppliedTasks(run[|run| - 1])
    ensures var snap := run[|run| - 1].snap;
      && i < |snap| == |c.blank|
      && (c.result(i).Some? ==> snap[i] == c.result(i).value)
      && (c.result(i).None? ==> snap[i] == c.blank[i])
  {
    SnapshotIsAppliedResults(c, run);
  }

  /** On return the results applied are exactly those that were taken from their channels. */
  lemma TakenIsApplied<V(!new)>(c: Config<V>, run: seq<State<V>>, i: nat)
    requires IsRun(c, run) && run[|run| - 1].main.Returned? && i < |c.blank|
    ensures i < |run[|run| - 1].tasks|
    ensures Taken(run[|run| - 1].tasks[i]) <==> i in AppliedTasks(run[|run| - 1])
  {
    RunInv(c, run);
  }

  /** Two runs that applied the same tasks end in the same snapshot. */
  lemma OrderDoesNotMatter<V(!new)>(c: Config<V>, run: seq<State<V>>, other: seq<State<V>>)
    requires IsRun(c, run) && IsRun(c, other)
    requires AppliedTasks(run[|run| - 1]) == AppliedTasks(other[|other| - 1])
    ensures run[|run| - 1].snap == other[|other| - 1].snap
  {
    SnapshotIsAppliedResults(c, run);
    SnapshotIsAppliedResults(c, other);
  }

  /** The caller always gets away, even when every collector hangs: no Compute is needed. */
  lemma Progress<V(!new)>(c: Config<V>, s: State<V>) returns (step: Step)
    requires Inv(c, s) && !s.main.Returned?
    ensures Enabled(c, s, step) && !step.Compute? && !step.Send?
  {
    OpenNone(s.tasks);
    if s.main.Starting? {
      step := Start;
    } else if s.wg == 0 {
      step := Return;
    } else {
      var i :| 0 <= i < |s.tasks| && Open(s.tasks[i]);
      step := match s.tasks[i].outer
        case Preparing => Launch(i)
        case Selecting => TimeOut(i)
        case Applying => WriteField(i)
        case Finishing(_) => Finish(i);
    }
  }

  function OuterWeight(o: Outer): nat {
    match o
    case Unstarted => 7 case Preparing => 6 case Selecting => 3
    case Applying => 2 case Finishing(_) => 1 case Exited(_) => 0
  }

  function InnerWeight(i: Inner): nat {
    match i case Absent => 0 case Running => 2 case Sending => 1 case Sent => 0
  }

  function Weight(ts: seq<Task>): nat {
    if ts == [] then 0
    else Weight(ts[..|ts| - 1]) + OuterWeight(ts[|ts| - 1].outer) + InnerWeight(ts[|ts| - 1].inner)
  }

  lemma {:induction false} WeightUpdate(ts: seq<Task>, i: nat, t: Task)
    requires i < |ts|
    ensures Weight(ts[i := t]) + OuterWeight(ts[i].outer) + InnerWeight(ts[i].inner)
         == Weight(ts) + OuterWeight(t.outer) + InnerWeight(t.inner)
  {
    var n := |ts| - 1;
    if i == n {
      assert ts[i := t][..n] == ts[..n];
    } else {
      assert ts[i := t][..n] == ts[..n][i := t];
      WeightUpdate(ts[..n], i, t);
    }
  }

  lemma {:induction false} FreshWeight(ts: seq<Task>)
    requires forall i :: 0 <= i < |ts| ==> ts[i] == Task(Unstarted, Absent, false)
    ensures Weight(ts) == 7 * |ts|
  {
    if ts != [] { FreshWeight(ts[..|ts| - 1]); }
  }

  ghost function Remaining<V(!new)>(s: State<V>): nat {
    Weight(s.tasks) + if s.main.Returned? then 0 else 1
  }

  lemma TaskStepLowers<V(!new)>(c: Config<V>, s: State<V>, step: Step)
    requires Inv(c, s) && Enabled(c, s, step) && OfTask(step)
    ensures Remaining(Apply(c, s, step)) < Remaining(s)
  {
    WeightUpdate(s.tasks, step.i, Apply(c, s, step).tasks[step.i]);
  }

  lemma StepLowers<V(!new)>(c: Config<V>, s: State<V>, step: Step)
    requires Inv(c, s) && Enabled(c, s, step)
    ensures Remaining(Apply(c, s, step)) < Remaining(s)
  {
    if OfTask(step) {
      TaskStepLowers(c, s, step);
    } else if step.Start? {
      WeightUpdate(s.tasks, s.main.next, Apply(c, s, step).tasks[s.main.next]);
    }
  }

  /** Every run, left-over goroutines included, has at most 7n + 1 steps. */
  lemma {:induction false} RunsAreBounded<V(!new)>(c: Config<V>, run: seq<State<V>>)
    requires IsRun(c, run)
    ensures |run| - 1 + Remaining(run[|run| - 1]) <= 7 * |c.blank| + 1
    ensures |run| - 1 <= 7 * |c.blank| + 1
  {
    if |run| == 1 {
      FreshWeight(Init(c).tasks);
    } else {
      RunPrefix(c, run);
      RunsAreBounded(c, run[..|run| - 1]);
      RunInv(c, run[..|run| - 1]);
      var s := run[|run| - 2];
      var step :| Enabled(c, s, step) && run[|run| - 1] == Apply(c, s, step);
      StepLowers(c, s, step);
    }
  }

  ghost predicate Quiescent<V(!new)>(c: Config<V>, s: State<V>) {
    && !Enabled(c, s, Start) && !Enabled(c, s, Return)
    && forall i: nat :: i < |s.tasks| ==>
      forall step :: OfTask(step) ==> !TaskEnabled(s.tasks[i], step)
  }

  /** When nothing can move any more, the caller has returned and no goroutine is left. */
  lemma NothingIsLeftBehind<V(!new)>(c: Config<V>, run: seq<State<V>>)
    requires IsRun(c, run) && Quiescent(c, run[|run| - 1])
    ensures run[|run| - 1].main.Returned?
    ensures forall t :: t in run[|run| - 1].tasks ==> t.outer.Exited? && t.inner.Sent?
  {
    RunInv(c, run);
    var s := run[|run| - 1];
    if !s.main.Returned? {
      var step := Progress(c, s);
      assert false;
    }
    forall t | t in s.tasks ensures t.inner.Sent? {
      var i :| 0 <= i < |s.tasks| && s.tasks[i] == t;
      assert !TaskEnabled(t, Compute(i)) && !TaskEnabled(t, Send(i));
    }
  }
}
