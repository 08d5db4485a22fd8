/** Which changes of a running pool's thread limit can block it for ever: exactly those that do not fit. */
module GcThreadPoolLimits {
  import opened GcThreadPool
  import opened GcThreadPoolSafety
  import opened GcThreadPoolLiveness
  import opened GcThreadPoolProgress
  import opened GcThreadPoolTheorems

  // ---------------------------------------------------------------- workers come to rest

  /** The driver awaits the end of the work, and as many threads as the limit can never await work: too
      many do already, or too few are awake. */
  ghost predicate Doomed(s: Pool) {
    && s.running && !s.exit && s.queue == [] && s.driver == AwaitingFinish(false) && Counted(s)
    && (forall i :: 0 <= i < |s.workers| ==> !s.workers[i].Leaving? && !s.workers[i].Exited?)
    && (s.waiting > s.maxActive || Count(s.workers, IsAwake) < s.maxActive)
  }

  lemma DoomedStep(s: Pool, w: nat)
    requires Doomed(s) && w < |s.workers| && !Blocked(s.workers[w])
    ensures WorkerReady(s, w) && Doomed(RunWorker(s, w)) && Measure(RunWorker(s, w)) < Measure(s)
  {
    var s' := RunWorker(s, w);
    StepKeepsCounts(s, WorkerStep(w));
    AwaitingAreActive(s);
    AwaitingAreActive(s');
    assert s'.workers == s.workers[w := s'.workers[w]];
    CountUpdate(s.workers, w, s'.workers[w], IsAwake);
    WorkerUses(s, w);
  }

  /** Nothing but WaitFinish, the workers and the driver going on. */
  predicate OnlyWaitFinish(steps: seq<Step>) {
    forall i :: 0 <= i < |steps| ==> steps[i].WorkerStep? || steps[i].DriverStep? || steps[i].CallWaitFinish?
  }

  lemma {:induction false} Settles(s: Pool) returns (steps: seq<Step>)
    requires Doomed(s)
    ensures LeadsToDeadlock(s, steps) && OnlyWaitFinish(steps)
    decreases Measure(s)
  {
    if AllBlocked(s.workers) {
      steps := [];
    } else {
      var w :| 0 <= w < |s.workers| && !Blocked(s.workers[w]);
      DoomedStep(s, w);
      var rest := Settles(RunWorker(s, w));
      Prepend(s, WorkerStep(w), rest);
      steps := [WorkerStep(w)] + rest;
    }
  }

  // ---------------------------------------------------------------- WaitFinish comes to wait

  /** s and s' differ in what is done, not in threads, counters and limit. */
  ghost predicate SameThreads(s: Pool, s': Pool) {
    s'.running == s.running && s'.exit == s.exit && s'.maxActive == s.maxActive && s'.currActive == s.currActive
    && s'.waiting == s.waiting && s'.workers == s.workers
  }

  /** The driver's own loop empties the queue. */
  lemma {:induction false} Drains(s: Pool) returns (steps: seq<Step>)
    requires s.running && !s.exit && s.driver == Helping
    ensures IsRun(s, steps) && OnlyWaitFinish(steps)
    ensures var s' := After(s, steps); SameThreads(s, s') && s'.driver == Helping && s'.queue == []
    decreases |s.queue|
  {
    if s.queue == [] {
      steps := [];
    } else {
      var s1 := RunDriver(s);
      var s2 := RunDriver(s1);
      var rest := Drains(s2);
      Prepend(s1, DriverStep, rest);
      Prepend(s, DriverStep, [DriverStep] + rest);
      steps := [DriverStep] + ([DriverStep] + rest);
    }
  }

  /** A driver that calls WaitFinish in a state in which as many threads as the limit can never await work
      may wait for ever. */
  lemma WaitsForEver(s: Pool) returns (steps: seq<Step>)
    requires BetweenCalls(s) && s.running && !s.exit && Counted(s)
    requires forall i :: 0 <= i < |s.workers| ==> !s.workers[i].Leaving? && !s.workers[i].Exited?
    requires s.waiting > s.maxActive || Count(s.workers, IsAwake) < s.maxActive
    ensures LeadsToDeadlock(s, steps) && OnlyWaitFinish(steps)
  {
    AwaitingAreActive(s);
    var s1 := Apply(s, CallWaitFinish);
    var drain := Drains(s1);
    var s2 := After(s1, drain);
    var s3 := RunDriver(s2);
    var s4 := RunDriver(s3);
    assert Doomed(s4);
    var rest := Settles(s4);
    Prepend(s3, DriverStep, rest);
    Prepend(s2, DriverStep, [DriverStep] + rest);
    rest := [DriverStep] + ([DriverStep] + rest);
    RunSplits(s1, drain, rest);
    Prepend(s, CallWaitFinish, drain + rest);
    steps := [CallWaitFinish] + (drain + rest);
  }

  // ---------------------------------------------------------------- exactness

  lemma UnfitChangeBlocks(s: Pool, num: int) returns (steps: seq<Step>)
    requires Safe(s) && Live(s) && BetweenCalls(s) && s.running && !s.exit && !ChangeFits(s, num)
    ensures LeadsToDeadlock(Apply(s, SetMaxActive(num)), steps) && OnlyWaitFinish(steps)
  {
    var s' := Apply(s, SetMaxActive(num));
    assert s'.workers == s.workers;
    steps := WaitsForEver(s');
  }

  lemma {:induction false} WaitFinishFits(s: Pool, steps: seq<Step>)
    requires OnlyWaitFinish(steps)
    ensures Fitting(s, steps)
    decreases |steps|
  {
    if steps != [] {
      WaitFinishFits(Apply(s, steps[0]), steps[1..]);
    }
  }

  /** No run from s whose changes of the limit fit blocks the driver and all workers. */
  ghost predicate NeverBlocks(s: Pool) {
    forall steps :: IsRun(s, steps) && Fitting(s, steps) ==> !LeadsToDeadlock(s, steps)
  }

  /** In any state reached by changes that fit, a change of the running pool's limit fits if and only if no
      later run of fitting changes can block the driver and all workers. */
  lemma FitIsExact(n: nat, run: seq<Step>, num: int)
    requires IsRun(Init(n), run) && Fitting(Init(n), run)
    requires var s := After(Init(n), run); BetweenCalls(s) && s.running && !s.exit
    ensures var s := After(Init(n), run); ChangeFits(s, num) <==> NeverBlocks(Apply(s, SetMaxActive(num)))
  {
    InitLive(n);
    RunKeepsLive(Init(n), run);
    var s := After(Init(n), run);
    var s' := Apply(s, SetMaxActive(num));
    if ChangeFits(s, num) {
      StepKeepsSafe(s, SetMaxActive(num));
      StepKeepsLive(s, SetMaxActive(num));
      forall steps | IsRun(s', steps) && Fitting(s', steps) ensures !LeadsToDeadlock(s', steps) {
        RunKeepsLive(s', steps);
        LiveMeansUnblocked(After(s', steps));
      }
    } else {
      var steps := UnfitChangeBlocks(s, num);
      WaitFinishFits(s', steps);
    }
  }
}
