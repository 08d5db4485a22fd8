/** Progress: in every state reached by fitting changes, the workers and the driver going on by themselves, in
    whatever order, bring the driver's call to its return within a number of steps that is known beforehand.
    Work that is executed ends and adds no more work. */
module GcThreadPoolProgress {
  import opened GcThreadPool
  import opened GcThreadPoolSafety
  import opened GcThreadPoolLiveness

  // ---------------------------------------------------------------- the measure

  /** What a worker's own steps can still use up, apart from taking work. */
  function WorkerWeight(w: Worker, exit: bool): nat {
    match w
    case Exited => 0
    case Leaving => 2
    case LoopTop => 4
    case Entering => if exit then 6 else 3
    case Sleeping(called) => if exit then 6 else if called then 2 else 0
    case AwaitingTask(called) => if exit then 6 else if called then 5 else 0
    case Executing(_) => if exit then 6 else 5
  }

  function Weights(ws: seq<Worker>, exit: bool): (n: nat)
    ensures n <= 6 * |ws|
  {
    if ws == [] then 0 else WorkerWeight(ws[0], exit) + Weights(ws[1..], exit)
  }

  const TASK_WEIGHT := 8

  /** How many waits and phases the driver's call has before it; `unit` is more than workers can gain in one. */
  function DriverWeight(d: Driver, unit: nat): nat {
    match d
    case Idle => 0
    case FinishReturned => 0
    case Draining(_) => unit
    case DrainingTask(_, _) => unit + 1
    case AwaitingStop(called, _) => 2 * unit + if called then 1 else 0
    case StopEntry(_) => 3 * unit
    case AwaitingFinish(called) => 4 * unit + if called then 1 else 0
    case FinishEntry => 5 * unit
    case Helping => 6 * unit
    case HelpingTask(_) => 6 * unit + 1
  }

  /** The steps that workers and driver can take at most. */
  function Measure(s: Pool): nat {
    DriverWeight(s.driver, 6 * |s.workers| + 2) + TASK_WEIGHT * |s.queue| + Weights(s.workers, s.exit)
  }

  lemma {:induction false} WeightsUpdate(ws: seq<Worker>, i: nat, w: Worker, exit: bool)
    requires i < |ws|
    ensures Weights(ws[i := w], exit) == Weights(ws, exit) - WorkerWeight(ws[i], exit) + WorkerWeight(w, exit)
  {
    if i == 0 {
      assert ws[0 := w][1..] == ws[1..];
    } else {
      assert ws[i := w][1..] == ws[1..][i - 1 := w];
      WeightsUpdate(ws[1..], i - 1, w, exit);
    }
  }

  // ---------------------------------------------------------------- every step uses it up

  /** What a worker's step changes besides the worker. */
  lemma WorkerChanges(s: Pool, w: nat)
    requires WorkerReady(s, w)
    ensures var s' := RunWorker(s, w);
            && s'.exit == s.exit && |s'.workers| == |s.workers| && s'.workers == s.workers[w := s'.workers[w]]
            && (s'.driver == s.driver || s'.driver == NotifyFinish(s.driver) || s'.driver == NotifyStop(s.driver))
  {
  }

  /** A worker that notifies the driver gives up 2, any other at least 1. */
  lemma WorkerPays(s: Pool, w: nat)
    requires WorkerReady(s, w)
    ensures var s' := RunWorker(s, w);
            && TASK_WEIGHT * |s'.queue| + WorkerWeight(s'.workers[w], s.exit) + (if s'.driver == s.driver then 1 else 2)
               <= TASK_WEIGHT * |s.queue| + WorkerWeight(s.workers[w], s.exit)
  {
  }

  lemma NotifyingCosts(d: Driver, d': Driver, unit: nat)
    requires d' == NotifyFinish(d) || d' == NotifyStop(d)
    ensures DriverWeight(d', unit) <= DriverWeight(d, unit) + 1
  {
  }

  lemma WorkerUses(s: Pool, w: nat)
    requires WorkerReady(s, w)
    ensures Measure(RunWorker(s, w)) < Measure(s)
  {
    var s' := RunWorker(s, w);
    WorkerChanges(s, w);
    WorkerPays(s, w);
    WeightsUpdate(s.workers, w, s'.workers[w], s.exit);
    if s'.driver != s.driver {
      NotifyingCosts(s.driver, s'.driver, 6 * |s.workers| + 2);
    }
  }

  lemma DriverUses(s: Pool)
    requires DriverReady(s)
    ensures Measure(RunDriver(s)) < Measure(s)
  {
  }

  /** The workers and the driver going on by themselves. */
  predicate Undisturbed(steps: seq<Step>) {
    forall i :: 0 <= i < |steps| ==> steps[i].WorkerStep? || steps[i].DriverStep?
  }

  lemma StepUses(s: Pool, step: Step)
    requires Enabled(s, step) && (step.WorkerStep? || step.DriverStep?)
    ensures Measure(Apply(s, step)) < Measure(s)
  {
    match step
    case WorkerStep(w) => WorkerUses(s, w);
    case DriverStep => DriverUses(s);
  }

  lemma {:induction false} RunUses(s: Pool, steps: seq<Step>)
    requires IsRun(s, steps) && Undisturbed(steps)
    ensures |steps| + Measure(After(s, steps)) <= Measure(s) && Fitting(s, steps)
    decreases |steps|
  {
    if steps != [] {
      StepUses(s, steps[0]);
      RunUses(Apply(s, steps[0]), steps[1..]);
    }
  }

  // ---------------------------------------------------------------- somebody can go on until the call returns

  lemma SomebodyGoesOn(s: Pool) returns (step: Step)
    requires Safe(s) && Live(s) && !BetweenCalls(s)
    ensures Enabled(s, step) && (step.WorkerStep? || step.DriverStep?)
  {
    LiveMeansUnblocked(s);
    if DriverReady(s) {
      step := DriverStep;
    } else {
      assert DriverBlocked(s);
      var w :| 0 <= w < |s.workers| && !Blocked(s.workers[w]);
      step := WorkerStep(w);
    }
  }

  /** From every state reached by fitting changes, also after Exit: an undisturbed run, whatever the order of
      its steps, has no more steps than the measure says, and as long as the driver's call has not returned
      somebody can go on.  So the call returns. */
  lemma CallReturns(n: nat, before: seq<Step>, steps: seq<Step>)
    requires IsRun(Init(n), before) && Fitting(Init(n), before)
    requires IsRun(After(Init(n), before), steps) && Undisturbed(steps)
    ensures var s := After(Init(n), before);
            var s' := After(s, steps);
            && |steps| + Measure(s') <= Measure(s)
            && (BetweenCalls(s') ||
                exists step: Step :: (step.WorkerStep? || step.DriverStep?) && Enabled(s', step))
  {
    InitLive(n);
    RunKeepsLive(Init(n), before);
    var s := After(Init(n), before);
    RunUses(s, steps);
    RunKeepsLive(s, steps);
    if !BetweenCalls(After(s, steps)) {
      var _ := SomebodyGoesOn(After(s, steps));
    }
  }

  /** The driver's call returns in some run of at most so many steps. */
  lemma {:induction false} RunsToReturn(s: Pool) returns (steps: seq<Step>)
    requires Safe(s) && Live(s)
    ensures IsRun(s, steps) && Undisturbed(steps) && |steps| <= Measure(s) && BetweenCalls(After(s, steps))
    ensures Finishing(s.driver) ==> After(s, steps).driver.FinishReturned?
    decreases Measure(s)
  {
    if BetweenCalls(s) {
      steps := [];
    } else {
      var step := SomebodyGoesOn(s);
      StepKeepsSafe(s, step);
      StepKeepsLive(s, step);
      StepUses(s, step);
      StepKeepsCall(s, step);
      var rest := RunsToReturn(Apply(s, step));
      steps := [step] + rest;
      assert steps[1..] == rest;
    }
  }

  /** The driver is in WaitFinish. */
  predicate Finishing(d: Driver) {
    match d
    case Idle => false
    case StopEntry(finishing) => finishing
    case AwaitingStop(_, finishing) => finishing
    case Draining(finishing) => finishing
    case DrainingTask(_, finishing) => finishing
    case _ => true
  }

  lemma StepKeepsCall(s: Pool, step: Step)
    requires Enabled(s, step) && (step.WorkerStep? || step.DriverStep?)
    ensures Finishing(s.driver) ==> Finishing(Apply(s, step).driver)
  {
  }

  /** In every state reached by fitting changes WaitFinish, once called, can return, within a number of steps
      that depends on the threads and the queue alone. */
  lemma WaitFinishReturns(n: nat, before: seq<Step>) returns (steps: seq<Step>)
    requires IsRun(Init(n), before) && Fitting(Init(n), before) && Finishing(After(Init(n), before).driver)
    ensures var s := After(Init(n), before);
            && IsRun(s, steps) && Undisturbed(steps) && After(s, steps).driver.FinishReturned?
            && |steps| <= 42 * n + 13 + TASK_WEIGHT * |s.queue|
  {
    InitLive(n);
    RunKeepsLive(Init(n), before);
    KeepsThreads(Init(n), before);
    var s := After(Init(n), before);
    steps := RunsToReturn(s);
    MeasureBound(s);
  }

  lemma MeasureBound(s: Pool)
    ensures Measure(s) <= 42 * |s.workers| + 13 + TASK_WEIGHT * |s.queue|
  {
  }
}
