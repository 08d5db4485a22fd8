/** The thread pool's guarantees over whole runs. */
module GcThreadPoolTheorems {
  import opened GcThreadPool
  import opened GcThreadPoolSafety
  import opened GcThreadPoolLiveness

  // ---------------------------------------------------------------- safety, for every run

  /** Whatever the interleaving, and whenever Exit comes, a WaitFinish that has returned leaves
      an empty queue and no executor with a task; each task ever added was executed exactly once
      or was thrown away by ClearAllWork. */
  lemma WaitFinishCompletes(n: nat, steps: seq<Step>)
    requires IsRun(Init(n), steps)
    requires After(Init(n), steps).driver.FinishReturned?
    ensures var s := After(Init(n), steps);
            && s.queue == []
            && (forall e: nat :: Holding(s, e) == -1)
            && (forall t :: 0 <= t < |s.history| ==>
                  s.history[t] == TaskRecord(Finished, 1) || s.history[t] == TaskRecord(Discarded, 0))
  {
    InitSafe(n);
    RunKeepsSafe(Init(n), steps);
    var s := After(Init(n), steps);
    assert NoWorkerExecutes(s);
    forall e: nat ensures Holding(s, e) == -1 {}
    forall t | 0 <= t < |s.history|
      ensures s.history[t] == TaskRecord(Finished, 1) || s.history[t] == TaskRecord(Discarded, 0)
    {
      assert s.history[t].place.HeldBy? ==> Holding(s, s.history[t].place.executor) == t;
    }
  }

  /** Without ClearAllWork nothing is thrown away, so every task added has finished. */
  lemma WaitFinishFinishesAll(n: nat, steps: seq<Step>)
    requires IsRun(Init(n), steps) && ClearAllWork !in steps
    requires After(Init(n), steps).driver.FinishReturned?
    ensures var s := After(Init(n), steps);
            forall t :: 0 <= t < |s.history| ==> s.history[t] == TaskRecord(Finished, 1)
  {
    WaitFinishCompletes(n, steps);
    NothingDiscarded(Init(n), steps);
  }

  ghost predicate NoneDiscarded(s: Pool) {
    forall t :: 0 <= t < |s.history| ==> s.history[t].place != Discarded
  }

  lemma StepDiscardsNothing(s: Pool, step: Step)
    requires NoneDiscarded(s) && step != ClearAllWork
    ensures NoneDiscarded(Apply(s, step))
  {
  }

  lemma {:induction false} NothingDiscarded(s: Pool, steps: seq<Step>)
    requires NoneDiscarded(s) && ClearAllWork !in steps
    ensures NoneDiscarded(After(s, steps))
    decreases |steps|
  {
    if steps != [] {
      StepDiscardsNothing(s, steps[0]);
      NothingDiscarded(Apply(s, steps[0]), steps[1..]);
    }
  }

  /** In every reachable state the two counters count what they are meant to count, the queue is
      in order of arrival, and each task is queued, held by exactly one executor, finished or
      discarded; no task is executed twice. */
  lemma CountersAndOwners(n: nat, steps: seq<Step>)
    requires IsRun(Init(n), steps)
    ensures var s := After(Init(n), steps);
            && s.currActive == Count(s.workers, IsActive)
            && s.waiting == Count(s.workers, IsAwaiting)
            && (forall i, j :: 0 <= i < j < |s.queue| ==> s.queue[i] < s.queue[j])
            && (forall t: Task :: t in s.queue <==> t < |s.history| && s.history[t].place == Queued)
            && (forall e: nat, t: Task :: Holding(s, e) == t <==> t < |s.history| && s.history[t].place == HeldBy(e))
            && (forall t :: 0 <= t < |s.history| ==> s.history[t].runs <= 1)
  {
    InitSafe(n);
    RunKeepsSafe(Init(n), steps);
    var s := After(Init(n), steps);
    forall t: Task ensures t in s.queue <==> t < |s.history| && s.history[t].place == Queued {
      var first := |s.history| - |s.queue|;
      if first <= t < |s.history| {
        assert s.queue[t - first] == t;
      }
    }
  }

  // ---------------------------------------------------------------- runs that block

  lemma Prepend(s: Pool, step: Step, rest: seq<Step>)
    requires Enabled(s, step) && IsRun(Apply(s, step), rest)
    ensures IsRun(s, [step] + rest) && After(s, [step] + rest) == After(Apply(s, step), rest)
  {
    assert ([step] + rest)[1..] == rest;
  }

  /** A pool of two threads, both asleep after the constructor's Stop. */
  function Stopped(maxActive: int): Pool {
    Pool(false, false, [], maxActive, 0, 0, [Sleeping(false), Sleeping(false)], Idle, [])
  }

  lemma ReachStopped() returns (steps: seq<Step>)
    ensures IsRun(Init(2), steps) && After(Init(2), steps) == Stopped(2)
  {
    var s0 := Init(2);
    var s1 := Apply(s0, WorkerStep(0));
    var s2 := Apply(s1, WorkerStep(0));
    var s3 := Apply(s2, WorkerStep(1));
    var s4 := Apply(s3, WorkerStep(1));
    var s5 := Apply(s4, DriverStep);
    assert s2.workers == [Sleeping(false), LoopTop];
    assert s5 == Stopped(2);
    Prepend(s4, DriverStep, []);
    Prepend(s3, WorkerStep(1), [DriverStep]);
    Prepend(s2, WorkerStep(1), [WorkerStep(1), DriverStep]);
    steps := [WorkerStep(1)] + [WorkerStep(1), DriverStep];
    Prepend(s1, WorkerStep(0), steps);
    steps := [WorkerStep(0)] + steps;
    Prepend(s0, WorkerStep(0), steps);
    steps := [WorkerStep(0)] + steps;
  }

  ghost predicate LeadsToDeadlock(s: Pool, steps: seq<Step>) {
    IsRun(s, steps) && DriverBlocked(After(s, steps)) && AllBlocked(After(s, steps).workers)
  }

  /** A change that does not fit: lowering the limit of a running pool whose two threads already await
      work leaves WaitFinish waiting for a count of threads that can never be reached. */
  lemma LoweringWhileRunningBlocks() returns (steps: seq<Step>)
    ensures LeadsToDeadlock(Init(2), steps)
  {
    var s0 := Stopped(2);
    var s1 := Apply(s0, Start);
    var s2 := Apply(s1, WorkerStep(0));
    var s3 := Apply(s2, WorkerStep(1));
    assert s3 == s0.(running := true, currActive := 2, waiting := 2,
                     workers := [AwaitingTask(false), AwaitingTask(false)]);
    var s4 := Apply(s3, SetMaxActive(1));
    var s5 := Apply(s4, CallWaitFinish);
    var s6 := Apply(s5, DriverStep);
    var s7 := Apply(s6, DriverStep);
    assert s7.driver == AwaitingFinish(false);
    Prepend(s6, DriverStep, []);
    Prepend(s5, DriverStep, [DriverStep]);
    var tail := [DriverStep] + [DriverStep];
    Prepend(s4, CallWaitFinish, tail);
    tail := [CallWaitFinish] + tail;
    Prepend(s3, SetMaxActive(1), tail);
    tail := [SetMaxActive(1)] + tail;
    Prepend(s2, WorkerStep(1), tail);
    tail := [WorkerStep(1)] + tail;
    Prepend(s1, WorkerStep(0), tail);
    tail := [WorkerStep(0)] + tail;
    Prepend(s0, Start, tail);
    tail := [Start] + tail;
    var head := ReachStopped();
    RunSplits(Init(2), head, tail);
    steps := head + tail;
  }

  /** One admitted thread busy with task 0, the other asleep. */
  function OneBusy(): Pool {
    Pool(true, false, [], 1, 1, 0, [Executing(0), Sleeping(false)], Idle, [TaskRecord(HeldBy(1), 1)])
  }

  /** One admitted thread awaiting work, the other asleep. */
  function OneAwaiting(): Pool {
    Pool(true, false, [], 1, 1, 1, [AwaitingTask(false), Sleeping(false)], Idle, [])
  }

  lemma ReachOneAwaiting() returns (steps: seq<Step>)
    ensures IsRun(Stopped(2), steps) && After(Stopped(2), steps) == OneAwaiting()
  {
    var s0 := Stopped(2);
    var s1 := Apply(s0, SetMaxActive(1));
    var s2 := Apply(s1, Start);
    var s3 := Apply(s2, WorkerStep(0));
    var s4 := Apply(s3, WorkerStep(1));
    assert s4 == OneAwaiting();
    steps := [];
    Prepend(s3, WorkerStep(1), steps);
    steps := [WorkerStep(1)] + steps;
    Prepend(s2, WorkerStep(0), steps);
    steps := [WorkerStep(0)] + steps;
    Prepend(s1, Start, steps);
    steps := [Start] + steps;
    Prepend(s0, SetMaxActive(1), steps);
    steps := [SetMaxActive(1)] + steps;
  }

  lemma ReachOneBusy() returns (steps: seq<Step>)
    ensures IsRun(OneAwaiting(), steps) && After(OneAwaiting(), steps) == OneBusy()
  {
    var s0 := OneAwaiting();
    var s1 := Apply(s0, AddWork(0));
    var s2 := Apply(s1, WorkerStep(0));
    assert s2.history == OneBusy().history;
    steps := [];
    Prepend(s1, WorkerStep(0), steps);
    steps := [WorkerStep(0)] + steps;
    Prepend(s0, AddWork(0), steps);
    steps := [AddWork(0)] + steps;
  }

  lemma RaisingOneBusyBlocks() returns (steps: seq<Step>)
    ensures LeadsToDeadlock(OneBusy(), steps)
  {
    var s0 := OneBusy();
    var s1 := Apply(s0, SetMaxActive(2));
    var s2 := Apply(s1, CallWaitFinish);
    var s3 := Apply(s2, DriverStep);
    var s4 := Apply(s3, DriverStep);
    assert s4 == s0.(maxActive := 2, driver := AwaitingFinish(false));
    var s5 := Apply(s4, WorkerStep(0));
    var s6 := Apply(s5, WorkerStep(0));
    var s7 := Apply(s6, WorkerStep(0));
    assert s7.workers == [AwaitingTask(false), Sleeping(false)];
    steps := [];
    Prepend(s6, WorkerStep(0), steps);
    steps := [WorkerStep(0)] + steps;
    Prepend(s5, WorkerStep(0), steps);
    steps := [WorkerStep(0)] + steps;
    Prepend(s4, WorkerStep(0), steps);
    steps := [WorkerStep(0)] + steps;
    Prepend(s3, DriverStep, steps);
    steps := [DriverStep] + steps;
    Prepend(s2, DriverStep, steps);
    steps := [DriverStep] + steps;
    Prepend(s1, CallWaitFinish, steps);
    steps := [CallWaitFinish] + steps;
    Prepend(s0, SetMaxActive(2), steps);
    steps := [SetMaxActive(2)] + steps;
  }

  /** Another: while the one admitted thread is busy, `waitingThreadNum` is 0, the
      sleeping thread is not notified, and WaitFinish waits for two waiting threads. */
  lemma RaisingWhileRunningBlocks() returns (steps: seq<Step>)
    ensures LeadsToDeadlock(Init(2), steps)
  {
    var a := ReachStopped();
    var b := ReachOneAwaiting();
    var c := ReachOneBusy();
    var d := RaisingOneBusyBlocks();
    RunSplits(Init(2), a, b);
    RunSplits(Init(2), a + b, c);
    RunSplits(Init(2), a + b + c, d);
    steps := a + b + c + d;
  }

  // ---------------------------------------------------------------- after Exit

  /** How many of its own steps a worker of an exiting pool still has to make. */
  function StepsToExit(w: Worker): nat {
    match w
    case Exited => 0
    case Leaving => 1
    case LoopTop => 2
    case _ => 3
  }

  function StepsOf(steps: seq<Step>, w: nat): nat {
    if steps == [] then 0 else (if steps[0] == WorkerStep(w) then 1 else 0) + StepsOf(steps[1..], w)
  }

  lemma ExitingStep(s: Pool, step: Step, w: nat)
    requires s.exit && Enabled(s, step) && w < |s.workers|
    ensures Apply(s, step).exit && |Apply(s, step).workers| == |s.workers|
    ensures StepsToExit(Apply(s, step).workers[w]) ==
            StepsToExit(s.workers[w]) - (if step == WorkerStep(w) then 1 else 0)
  {
  }

  ghost predicate ExitWakesAll(s: Pool) {
    s.exit ==> forall i :: 0 <= i < |s.workers| ==> s.workers[i].Exited? || !Blocked(s.workers[i])
  }

  lemma StepKeepsExitWakesAll(s: Pool, step: Step)
    requires ExitWakesAll(s) && Enabled(s, step)
    ensures ExitWakesAll(Apply(s, step))
  {
  }

  lemma {:induction false} RunKeepsExitWakesAll(s: Pool, steps: seq<Step>)
    requires ExitWakesAll(s) && IsRun(s, steps)
    ensures ExitWakesAll(After(s, steps))
    decreases |steps|
  {
    if steps != [] {
      StepKeepsExitWakesAll(s, steps[0]);
      RunKeepsExitWakesAll(Apply(s, steps[0]), steps[1..]);
    }
  }

  /** Once Exit has been called every worker needs at most three more steps of its own to
      terminate, and until then it is never blocked: the destructor's joins return. */
  lemma {:induction false} ExitReleasesWorkers(n: nat, before: seq<Step>, after: seq<Step>, w: nat)
    requires IsRun(Init(n), before + after) && After(Init(n), before).exit && w < n
    ensures IsRun(Init(n), before)
    ensures var s, s' := After(Init(n), before), After(Init(n), before + after);
            && w < |s.workers| == |s'.workers|
            && StepsOf(after, w) + StepsToExit(s'.workers[w]) == StepsToExit(s.workers[w]) <= 3
            && (s'.workers[w].Exited? || WorkerReady(s', w))
  {
    RunKeepsExitWakesAll(Init(n), before + after);
    RunSplits(Init(n), before, after);
    KeepsThreads(Init(n), before);
    ExitingRun(After(Init(n), before), after, w);
  }

  lemma {:induction false} RunSplits(s: Pool, a: seq<Step>, b: seq<Step>)
    ensures IsRun(s, a + b) <==> IsRun(s, a) && IsRun(After(s, a), b)
    ensures After(s, a + b) == After(After(s, a), b)
    decreases |a|
  {
    if a == [] {
      assert a + b == b;
    } else {
      assert (a + b)[1..] == a[1..] + b;
      RunSplits(Apply(s, a[0]), a[1..], b);
    }
  }

  lemma {:induction false} ExitingRun(s: Pool, steps: seq<Step>, w: nat)
    requires s.exit && IsRun(s, steps) && w < |s.workers|
    ensures |After(s, steps).workers| == |s.workers|
    ensures After(s, steps).exit
    ensures StepsOf(steps, w) + StepsToExit(After(s, steps).workers[w]) == StepsToExit(s.workers[w])
    decreases |steps|
  {
    if steps != [] {
      ExitingStep(s, steps[0], w);
      ExitingRun(Apply(s, steps[0]), steps[1..], w);
    }
  }
}
