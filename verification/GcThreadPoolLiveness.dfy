/** No wake-up is lost: what runs keep whose changes of the thread limit fit the threads' state. */
module GcThreadPoolLiveness {
  import opened GcThreadPool
  import opened GcThreadPoolSafety

  // ---------------------------------------------------------------- who is blocked

  predicate Blocked(w: Worker) {
    w == Sleeping(false) || w == AwaitingTask(false) || w.Exited?
  }

  /** The driver waits with no notification on its way. */
  predicate DriverBlocked(s: Pool) {
    s.driver == AwaitingFinish(false) || (s.driver.AwaitingStop? && !s.driver.notified)
  }

  ghost predicate AllBlocked(ws: seq<Worker>) {
    forall i :: 0 <= i < |ws| ==> Blocked(ws[i])
  }

  ghost predicate Has(ws: seq<Worker>, x: Worker) {
    exists i :: 0 <= i < |ws| && ws[i] == x
  }

  predicate IsAwake(w: Worker) { w != Sleeping(false) }

  predicate IsCalled(w: Worker) { w == AwaitingTask(true) }

  // ---------------------------------------------------------------- the liveness invariant

  ghost predicate Limits(s: Pool) {
    && 0 <= s.maxActive <= |s.workers| && (|s.workers| > 0 ==> s.maxActive > 0)
    && (!s.running && !s.exit && !InStop(s.driver) ==> s.currActive == 0)
  }

  /** The limit lies between the threads that await work and those that are not asleep. */
  ghost predicate Balanced(s: Pool) {
    s.running && !s.exit ==> s.waiting <= s.maxActive <= Count(s.workers, IsAwake)
  }

  ghost predicate Notified(s: Pool) {
    && (s.exit ==> !Has(s.workers, Sleeping(false)) && !Has(s.workers, AwaitingTask(false)))
    && (!s.running ==> !Has(s.workers, AwaitingTask(false)))
    && (!s.exit ==> forall i :: 0 <= i < |s.workers| ==> !s.workers[i].Leaving? && !s.workers[i].Exited?)
    && (s.driver.AwaitingFinish? ==> s.running)
    && (s.driver == AwaitingFinish(false) ==> !s.exit && s.waiting != s.maxActive)
    && (DriverBlocked(s) && s.driver.AwaitingStop? ==> s.currActive != 0)
  }

  /** While a thread awaits work uncalled, there is a called one for each queued task. */
  ghost predicate Fed(s: Pool) {
    s.running && !s.exit && Has(s.workers, AwaitingTask(false)) ==> |s.queue| <= Count(s.workers, IsCalled)
  }

  ghost predicate Live(s: Pool) {
    Limits(s) && Balanced(s) && Notified(s) && Fed(s)
  }

  /** The limit's new value, or the notification that goes with raising it, keeps the balance. */
  predicate ChangeFits(s: Pool, num: int) {
    var limit := ClampActive(s, num);
    s.waiting <= limit && (limit <= Count(s.workers, IsAwake) || (limit > s.maxActive && s.waiting > 0))
  }

  predicate FittingStep(s: Pool, step: Step) {
    step.SetMaxActive? && s.running && !s.exit ==> ChangeFits(s, step.num)
  }

  /** Every change of the limit of a running pool fits. */
  predicate Fitting(s: Pool, steps: seq<Step>)
    decreases |steps|
  {
    steps == [] || (FittingStep(s, steps[0]) && Fitting(Apply(s, steps[0]), steps[1..]))
  }

  // ---------------------------------------------------------------- workers

  lemma AwaitingAreActive(s: Pool)
    requires Counted(s)
    ensures 0 <= s.waiting <= s.currActive <= Count(s.workers, IsAwake)
  {
    CountCompare(s.workers, IsAwaiting, s.workers, IsActive);
    CountCompare(s.workers, IsActive, s.workers, IsAwake);
  }

  lemma WorkerKeepsLimits(s: Pool, w: nat)
    requires Safe(s) && Live(s) && WorkerReady(s, w)
    ensures Limits(RunWorker(s, w))
  {
    if IsActive(s.workers[w]) {
      CountZero(s.workers, IsActive, w);
    }
  }

  lemma WorkerKeepsBalanced(s: Pool, w: nat)
    requires Safe(s) && Live(s) && WorkerReady(s, w)
    ensures Balanced(RunWorker(s, w))
  {
    var s' := RunWorker(s, w);
    StepKeepsCounts(s, WorkerStep(w));
    AwaitingAreActive(s');
    CountUpdate(s.workers, w, s'.workers[w], IsAwake);
    assert s'.workers == s.workers[w := s'.workers[w]];
  }

  lemma WorkerKeepsNotified(s: Pool, w: nat)
    requires Safe(s) && Live(s) && WorkerReady(s, w)
    ensures Notified(RunWorker(s, w))
  {
    var s' := RunWorker(s, w);
    AwaitingAreActive(s);
    forall x: Worker, i | 0 <= i < |s.workers| && i != w && s'.workers[i] == x ensures Has(s.workers, x) {}
  }

  lemma WorkerKeepsFed(s: Pool, w: nat)
    requires Safe(s) && Live(s) && WorkerReady(s, w)
    ensures Fed(RunWorker(s, w))
  {
    var s' := RunWorker(s, w);
    CountUpdate(s.workers, w, s'.workers[w], IsCalled);
    assert s'.workers == s.workers[w := s'.workers[w]];
    if Has(s'.workers, AwaitingTask(false)) {
      var i :| 0 <= i < |s'.workers| && s'.workers[i] == AwaitingTask(false);
      assert i != w ==> s.workers[i] == AwaitingTask(false);
    }
  }

  // ---------------------------------------------------------------- the driver and the callers

  lemma StopWakes(ws: seq<Worker>)
    ensures Has(NotifyAwaiting(ws), Sleeping(false)) ==> Has(ws, Sleeping(false))
    ensures !Has(NotifyAwaiting(ws), AwaitingTask(false))
  {
    assert forall i :: 0 <= i < |ws| ==> NotifyAwaiting(ws)[i] == WakeAwaiting(ws[i]);
  }

  lemma DriverKeepsNotified(s: Pool)
    requires Safe(s) && Live(s) && DriverReady(s)
    ensures Notified(RunDriver(s))
  {
    StopWakes(s.workers);
  }

  lemma DriverKeepsBalanced(s: Pool)
    requires Safe(s) && Live(s) && DriverReady(s)
    ensures Limits(RunDriver(s)) && Balanced(RunDriver(s)) && Fed(RunDriver(s))
  {
  }

  /** Waking workers up loses no awake or called one. */
  lemma WakingCounts(ws: seq<Worker>, vs: seq<Worker>)
    requires |ws| == |vs|
    requires forall i :: 0 <= i < |ws| ==>
      vs[i] == ws[i] || vs[i] == WakeSleeper(ws[i]) || vs[i] == WakeAwaiting(ws[i]) ||
      vs[i] == WakeSleeper(WakeAwaiting(ws[i]))
    ensures Count(vs, IsAwake) >= Count(ws, IsAwake) && Count(vs, IsCalled) >= Count(ws, IsCalled)
    ensures Has(vs, AwaitingTask(false)) ==> Has(ws, AwaitingTask(false))
    ensures Has(vs, Sleeping(false)) ==> Has(ws, Sleeping(false))
  {
    CountCompare(ws, IsAwake, vs, IsAwake);
    CountCompare(ws, IsCalled, vs, IsCalled);
  }

  lemma StartKeepsBalanced(s: Pool)
    requires Safe(s) && Live(s) && BetweenCalls(s)
    ensures Balanced(Apply(s, Start))
  {
    AwaitingAreActive(s);
    CountAll(NotifySleepers(s.workers), IsAwake);
  }

  lemma ChangeKeepsBalanced(s: Pool, num: int)
    requires Safe(s) && Live(s) && BetweenCalls(s) && FittingStep(s, SetMaxActive(num))
    ensures Balanced(Apply(s, SetMaxActive(num)))
  {
    CountAll(NotifySleepers(s.workers), IsAwake);
  }

  /** The steps that touch workers only by notifying them. */
  predicate OnlyNotifies(step: Step) {
    !step.WorkerStep? && !step.DriverStep? && !step.AddWork? && !step.TaskAddsWork?
  }

  lemma NotifyingWakes(s: Pool, step: Step)
    requires Enabled(s, step) && OnlyNotifies(step)
    ensures var ws, vs := s.workers, Apply(s, step).workers;
            && |vs| == |ws| && Count(vs, IsAwake) >= Count(ws, IsAwake) && Count(vs, IsCalled) >= Count(ws, IsCalled)
            && (Has(vs, AwaitingTask(false)) ==> Has(ws, AwaitingTask(false)))
            && (Has(vs, Sleeping(false)) ==> Has(ws, Sleeping(false)))
  {
    var s' := Apply(s, step);
    assert forall i :: 0 <= i < |s.workers| ==>
      s'.workers[i] == s.workers[i] || s'.workers[i] == WakeSleeper(s.workers[i]) ||
      s'.workers[i] == WakeAwaiting(s.workers[i])
      || s'.workers[i] == WakeSleeper(WakeAwaiting(s.workers[i]));
    WakingCounts(s.workers, s'.workers);
  }

  lemma NotifyingKeepsBalanced(s: Pool, step: Step)
    requires Safe(s) && Live(s) && Enabled(s, step) && FittingStep(s, step) && OnlyNotifies(step)
    ensures Limits(Apply(s, step)) && Balanced(Apply(s, step)) && Fed(Apply(s, step))
  {
    NotifyingWakes(s, step);
    match step
    case Start => StartKeepsBalanced(s);
    case SetMaxActive(num) => ChangeKeepsBalanced(s, num);
    case _ =>
  }

  lemma NotifyingKeepsNotified(s: Pool, step: Step)
    requires Safe(s) && Live(s) && Enabled(s, step) && OnlyNotifies(step)
    ensures Notified(Apply(s, step))
  {
    NotifyingWakes(s, step);
  }

  lemma PushKeepsFed(s: Pool, pick: nat)
    requires Safe(s) && Live(s) && LegalPick(s.workers, pick)
    ensures Fed(PushWork(s, pick))
  {
    var s' := PushWork(s, pick);
    if s'.running && !s'.exit && Has(s'.workers, AwaitingTask(false)) {
      var i :| 0 <= i < |s'.workers| && s'.workers[i] == AwaitingTask(false);
      assert s.workers[i] == AwaitingTask(false);
      CountZero(s.workers, IsAwaiting, i);
      CountUpdate(s.workers, pick, AwaitingTask(true), IsCalled);
    }
  }

  lemma PushKeepsLive(s: Pool, s': Pool, pick: nat)
    requires Safe(s) && Live(s) && LegalPick(s.workers, pick)
    requires s' == PushWork(s, pick) || (BetweenCalls(s) && s' == PushWork(s, pick).(driver := Idle))
    ensures Live(s')
  {
    PushKeepsFed(s, pick);
    assert forall i :: 0 <= i < |s.workers| ==>
           s'.workers[i] == s.workers[i] || s'.workers[i] == WakeAwaiting(s.workers[i]);
    WakingCounts(s.workers, s'.workers);
  }

  lemma StepKeepsLive(s: Pool, step: Step)
    requires Safe(s) && Live(s) && Enabled(s, step) && FittingStep(s, step)
    ensures Live(Apply(s, step))
  {
    match step
    case WorkerStep(w) =>
      WorkerKeepsLimits(s, w);
      WorkerKeepsBalanced(s, w);
      WorkerKeepsNotified(s, w);
      WorkerKeepsFed(s, w);
    case DriverStep =>
      DriverKeepsNotified(s);
      DriverKeepsBalanced(s);
    case AddWork(pick) => PushKeepsLive(s, Apply(s, step), pick);
    case TaskAddsWork(_, pick) => PushKeepsLive(s, Apply(s, step), pick);
    case _ =>
      NotifyingKeepsBalanced(s, step);
      NotifyingKeepsNotified(s, step);
  }

  // ---------------------------------------------------------------- whole runs

  lemma StepKeepsSafe(s: Pool, step: Step)
    requires Safe(s) && Enabled(s, step)
    ensures Safe(Apply(s, step))
  {
    StepKeepsCounts(s, step);
    StepKeepsOwned(s, step);
    StepKeepsPhased(s, step);
  }

  lemma {:induction false} RunKeepsLive(s: Pool, steps: seq<Step>)
    requires Safe(s) && Live(s) && IsRun(s, steps) && Fitting(s, steps)
    ensures Safe(After(s, steps)) && Live(After(s, steps))
    decreases |steps|
  {
    if steps != [] {
      StepKeepsSafe(s, steps[0]);
      StepKeepsLive(s, steps[0]);
      RunKeepsLive(Apply(s, steps[0]), steps[1..]);
    }
  }

  lemma StepKeepsThreads(s: Pool, step: Step)
    ensures |Apply(s, step).workers| == |s.workers|
  {
  }

  lemma {:induction false} KeepsThreads(s: Pool, steps: seq<Step>)
    ensures |After(s, steps).workers| == |s.workers|
    decreases |steps|
  {
    if steps != [] {
      StepKeepsThreads(s, steps[0]);
      KeepsThreads(Apply(s, steps[0]), steps[1..]);
    }
  }

  lemma InitLive(n: nat)
    ensures Safe(Init(n)) && Live(Init(n))
  {
    InitSafe(n);
  }

  lemma {:induction false} CountSome(ws: seq<Worker>, p: Worker -> bool)
    requires Count(ws, p) > 0
    ensures exists i :: 0 <= i < |ws| && p(ws[i])
  {
    if !p(ws[0]) {
      CountSome(ws[1..], p);
      var i :| 0 <= i < |ws[1..]| && p(ws[1..][i]);
      assert p(ws[i + 1]);
    }
  }

  lemma BlockedAreAwaiting(s: Pool)
    requires Safe(s) && Live(s) && AllBlocked(s.workers)
    ensures s.exit || !s.running ==> s.currActive == 0
    ensures s.running && !s.exit ==> s.waiting == s.currActive == s.maxActive
    ensures s.running && !s.exit && |s.workers| > 0 ==> s.queue == []
  {
    if s.exit || !s.running {
      if s.currActive > 0 {
        CountSome(s.workers, IsActive);
      }
    } else {
      CountCompare(s.workers, IsAwake, s.workers, IsAwaiting);
      CountCompare(s.workers, IsActive, s.workers, IsAwaiting);
      AwaitingAreActive(s);
      if |s.workers| > 0 {
        CountSome(s.workers, IsAwaiting);
        if Count(s.workers, IsCalled) > 0 {
          CountSome(s.workers, IsCalled);
        }
      }
    }
  }

  /** In a state that keeps the invariant nobody waits in vain. */
  lemma LiveMeansUnblocked(s: Pool)
    requires Safe(s) && Live(s)
    ensures !(DriverBlocked(s) && AllBlocked(s.workers))
    ensures s.running && !s.exit && s.queue != [] && |s.workers| > 0 ==> !AllBlocked(s.workers)
  {
    if AllBlocked(s.workers) {
      BlockedAreAwaiting(s);
    }
  }

  /** If every change of a running pool's limit fits, the driver is never left waiting in WaitFinish or
      Stop with every worker blocked and no notification on its way, and queued work is never left to
      blocked workers. */
  lemma NoLostWakeUp(n: nat, steps: seq<Step>)
    requires IsRun(Init(n), steps) && Fitting(Init(n), steps)
    ensures var s := After(Init(n), steps);
            && !(DriverBlocked(s) && AllBlocked(s.workers))
            && (s.running && !s.exit && s.queue != [] && n > 0 ==> !AllBlocked(s.workers))
  {
    InitLive(n);
    RunKeepsLive(Init(n), steps);
    KeepsThreads(Init(n), steps);
    LiveMeansUnblocked(After(Init(n), steps));
  }

  // ---------------------------------------------------------------- the limit changes only while stopped

  /** As many active threads as the limit allows, and none of them executing once all await work. */
  ghost predicate WithinLimit(s: Pool) {
    && (s.running && !s.exit ==> s.currActive <= s.maxActive)
    && (s.running && s.waiting >= s.maxActive ==> NoWorkerExecutes(s))
  }

  /** When as many threads await work as are active, no active thread is doing anything else. */
  lemma AllAwaiting(s: Pool)
    requires Counted(s) && s.waiting >= s.currActive
    ensures NoWorkerExecutes(s)
  {
    forall i | 0 <= i < |s.workers| ensures !s.workers[i].Executing? {
      if s.workers[i].Executing? {
        var ws := s.workers[i := Exited];
        SetWorkerCounts(s.workers, i, Exited);
        CountCompare(ws, IsAwaiting, ws, IsActive);
      }
    }
  }

  lemma StepKeepsCurrActive(s: Pool, step: Step)
    requires Safe(s) && Live(s) && WithinLimit(s) && Enabled(s, step) && (step.SetMaxActive? ==> !s.running)
    ensures var s' := Apply(s, step); s'.running && !s'.exit ==> s'.currActive <= s'.maxActive
  {
  }

  lemma StepKeepsIdle(s: Pool, step: Step)
    requires Safe(s) && Live(s) && WithinLimit(s) && Enabled(s, step) && (step.SetMaxActive? ==> !s.running)
    ensures var s' := Apply(s, step); s'.running && s'.exit && s'.waiting >= s'.maxActive ==> NoWorkerExecutes(s')
  {
  }

  lemma StepKeepsWithinLimit(s: Pool, step: Step)
    requires Safe(s) && Live(s) && WithinLimit(s) && Enabled(s, step) && (step.SetMaxActive? ==> !s.running)
    ensures WithinLimit(Apply(s, step))
  {
    StepKeepsCurrActive(s, step);
    StepKeepsIdle(s, step);
    var s' := Apply(s, step);
    if s'.running && !s'.exit && s'.waiting >= s'.maxActive {
      StepKeepsCounts(s, step);
      AllAwaiting(s');
    }
  }

  lemma {:induction false} DisciplinedRun(s: Pool, steps: seq<Step>)
    requires Safe(s) && Live(s) && WithinLimit(s) && IsRun(s, steps) && Disciplined(s, steps)
    ensures Fitting(s, steps) && WithinLimit(After(s, steps))
    decreases |steps|
  {
    if steps != [] {
      StepKeepsSafe(s, steps[0]);
      StepKeepsLive(s, steps[0]);
      StepKeepsWithinLimit(s, steps[0]);
      DisciplinedRun(Apply(s, steps[0]), steps[1..]);
    }
  }

  /** If the limit is changed only while the pool is stopped, every change fits, and as many waiting
      threads as the limit mean that nobody executes, also after Exit. */
  lemma StoppedChangesFit(n: nat, steps: seq<Step>)
    requires IsRun(Init(n), steps) && Disciplined(Init(n), steps)
    ensures Fitting(Init(n), steps)
    ensures var s := After(Init(n), steps); s.running && s.waiting == s.maxActive ==> NoWorkerExecutes(s)
  {
    InitLive(n);
    DisciplinedRun(Init(n), steps);
  }
}
