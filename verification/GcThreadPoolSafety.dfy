/** What every run of the thread pool keeps, whatever the schedule. */
module GcThreadPoolSafety {
  import opened GcThreadPool

  // ---------------------------------------------------------------- counting workers

  predicate IsActive(w: Worker) { !w.Sleeping? && !w.Exited? }

  predicate IsAwaiting(w: Worker) { w.AwaitingTask? }

  function Count(ws: seq<Worker>, p: Worker -> bool): (n: nat)
    ensures n <= |ws|
  {
    if ws == [] then 0 else (if p(ws[0]) then 1 else 0) + Count(ws[1..], p)
  }

  lemma {:induction false} CountUpdate(ws: seq<Worker>, i: nat, x: Worker, p: Worker -> bool)
    requires i < |ws|
    ensures Count(ws[i := x], p) ==
            Count(ws, p) - (if p(ws[i]) then 1 else 0) + (if p(x) then 1 else 0)
  {
    if i == 0 {
      assert ws[0 := x][1..] == ws[1..];
    } else {
      assert ws[i := x][1..] == ws[1..][i - 1 := x];
      CountUpdate(ws[1..], i - 1, x, p);
    }
  }

  /** Two lists that agree on `p` place by place, or where `p` implies `q`. */
  lemma {:induction false} CountCompare(ws: seq<Worker>, p: Worker -> bool, vs: seq<Worker>, q: Worker -> bool)
    requires |ws| == |vs|
    requires forall i :: 0 <= i < |ws| ==> p(ws[i]) ==> q(vs[i])
    ensures Count(ws, p) <= Count(vs, q)
    ensures (forall i :: 0 <= i < |ws| ==> p(ws[i]) == q(vs[i])) ==> Count(ws, p) == Count(vs, q)
  {
    if ws != [] {
      CountCompare(ws[1..], p, vs[1..], q);
    }
  }

  lemma {:induction false} CountZero(ws: seq<Worker>, p: Worker -> bool, i: nat)
    requires i < |ws| && p(ws[i])
    ensures Count(ws, p) > 0
  {
    if i > 0 {
      CountZero(ws[1..], p, i - 1);
    }
  }

  lemma {:induction false} CountAll(ws: seq<Worker>, p: Worker -> bool)
    requires forall i :: 0 <= i < |ws| ==> p(ws[i])
    ensures Count(ws, p) == |ws|
  {
    if ws != [] {
      CountAll(ws[1..], p);
    }
  }

  // ---------------------------------------------------------------- the safety invariant

  /** The counters mean what GcThreadPool.h says they mean. */
  ghost predicate Counted(s: Pool) {
    s.currActive == Count(s.workers, IsActive) && s.waiting == Count(s.workers, IsAwaiting)
  }

  /** The queue holds the youngest tasks, oldest first. */
  ghost predicate QueueInOrder(s: Pool) {
    |s.queue| <= |s.history| &&
    forall i :: 0 <= i < |s.queue| ==> s.queue[i] == |s.history| - |s.queue| + i
  }

  /** `history` agrees with the queue and with what each executor is running. */
  ghost predicate Owned(s: Pool) {
    && QueueInOrder(s)
    && (forall t :: 0 <= t < |s.history| ==> (s.history[t].place == Queued <==> |s.history| - |s.queue| <= t))
    && (forall t :: 0 <= t < |s.history| && s.history[t].place.HeldBy? ==>
          Holding(s, s.history[t].place.executor) == t)
    && (forall e: nat :: Holding(s, e) >= 0 ==>
          Holding(s, e) < |s.history| && s.history[Holding(s, e)].place == HeldBy(e))
    && (forall t :: 0 <= t < |s.history| ==>
          s.history[t].runs == if s.history[t].place.HeldBy? || s.history[t].place.Finished? then 1 else 0)
  }

  ghost predicate NoWorkerExecutes(s: Pool) {
    forall i :: 0 <= i < |s.workers| ==> !s.workers[i].Executing?
  }

  predicate InStop(d: Driver) { d.StopEntry? || d.AwaitingStop? }

  ghost predicate Phased(s: Pool) {
    && (s.driver.AwaitingStop? || s.driver.Draining? || s.driver.DrainingTask? || s.driver.FinishReturned? ==>
          !s.running)
    && (!s.running && !InStop(s.driver) ==> NoWorkerExecutes(s))
    && (s.driver.FinishReturned? ==> s.queue == [])
  }

  ghost predicate Safe(s: Pool) {
    Counted(s) && Owned(s) && Phased(s)
  }

  // ---------------------------------------------------------------- counters

  lemma NotifyKeepsCounts(ws: seq<Worker>, vs: seq<Worker>)
    requires |ws| == |vs|
    requires forall i :: 0 <= i < |ws| ==> vs[i] == WakeSleeper(ws[i]) || vs[i] == WakeAwaiting(ws[i]) || vs[i] == ws[i]
                                           || vs[i] == WakeSleeper(WakeAwaiting(ws[i]))
    ensures Count(vs, IsActive) == Count(ws, IsActive)
    ensures Count(vs, IsAwaiting) == Count(ws, IsAwaiting)
  {
    CountCompare(ws, IsActive, vs, IsActive);
    CountCompare(ws, IsAwaiting, vs, IsAwaiting);
  }

  lemma SetWorkerCounts(ws: seq<Worker>, w: nat, x: Worker)
    requires w < |ws|
    ensures Count(ws[w := x], IsActive) ==
            Count(ws, IsActive) - (if IsActive(ws[w]) then 1 else 0) + (if IsActive(x) then 1 else 0)
    ensures Count(ws[w := x], IsAwaiting) ==
            Count(ws, IsAwaiting) - (if IsAwaiting(ws[w]) then 1 else 0) + (if IsAwaiting(x) then 1 else 0)
  {
    CountUpdate(ws, w, x, IsActive);
    CountUpdate(ws, w, x, IsAwaiting);
  }

  lemma WorkerKeepsCounts(s: Pool, w: nat)
    requires Counted(s) && WorkerReady(s, w)
    ensures Counted(RunWorker(s, w))
  {
    SetWorkerCounts(s.workers, w, RunWorker(s, w).workers[w]);
  }

  lemma DriverKeepsCounts(s: Pool)
    requires Counted(s) && DriverReady(s)
    ensures Counted(RunDriver(s))
  {
    NotifyKeepsCounts(s.workers, RunDriver(s).workers);
  }

  lemma StepKeepsCounts(s: Pool, step: Step)
    requires Counted(s) && Enabled(s, step)
    ensures Counted(Apply(s, step))
  {
    match step
    case WorkerStep(w) => WorkerKeepsCounts(s, w);
    case DriverStep => DriverKeepsCounts(s);
    case SpuriousWorker(w) => SetWorkerCounts(s.workers, w, WakeSleeper(WakeAwaiting(s.workers[w])));
    case _ => NotifyKeepsCounts(s.workers, Apply(s, step).workers);
  }

  // ---------------------------------------------------------------- tasks

  /** Nobody but executor `e` takes up or puts down a task. */
  ghost predicate OthersHold(s: Pool, s': Pool, e: nat) {
    forall x: nat :: x != e ==> Holding(s', x) == Holding(s, x)
  }

  lemma TakeKeepsOwned(s: Pool, s': Pool, e: nat)
    requires Owned(s) && s.queue != [] && OthersHold(s, s', e)
    requires Holding(s, e) == -1 && Holding(s', e) == s.queue[0]
    requires s'.queue == s.queue[1..] && s'.history == Record(s.history, s.queue[0], HeldBy(e))
    ensures Owned(s')
  {
    var t := s.queue[0];
    assert t == |s.history| - |s.queue|;
    assert s'.history[t] == TaskRecord(HeldBy(e), 1);
    forall x: nat | Holding(s', x) >= 0
      ensures Holding(s', x) < |s'.history| && s'.history[Holding(s', x)].place == HeldBy(x)
    {
      if x != e {
        assert s.history[Holding(s, x)].place == HeldBy(x);
      }
    }
  }

  lemma FinishKeepsOwned(s: Pool, s': Pool, e: nat)
    requires Owned(s) && Holding(s, e) >= 0 && OthersHold(s, s', e)
    requires Holding(s', e) == -1
    requires s'.queue == s.queue && s'.history == Record(s.history, Holding(s, e), Finished)
    ensures Owned(s')
  {
    var t := Holding(s, e);
    assert s.history[t].place == HeldBy(e);
    forall x: nat | Holding(s', x) >= 0
      ensures Holding(s', x) < |s'.history| && s'.history[Holding(s', x)].place == HeldBy(x)
    {
      assert x != e;
      assert s.history[Holding(s, x)].place == HeldBy(x);
    }
  }

  lemma SameKeepsOwned(s: Pool, s': Pool)
    requires Owned(s) && s'.queue == s.queue && s'.history == s.history
    requires forall x: nat :: Holding(s', x) == Holding(s, x)
    ensures Owned(s')
  {
  }

  lemma PushKeepsOwned(s: Pool, s': Pool)
    requires Owned(s) && s'.queue == s.queue + [|s.history|] && s'.history == s.history + [TaskRecord(Queued, 0)]
    requires forall x: nat :: Holding(s', x) == Holding(s, x)
    ensures Owned(s')
  {
  }

  lemma DiscardKeepsOwned(s: Pool, s': Pool)
    requires Owned(s) && s'.queue == [] && s'.history == DiscardFrom(s.history, s.queue)
    requires forall x: nat :: Holding(s', x) == Holding(s, x)
    ensures Owned(s')
  {
    forall t | 0 <= t < |s.history|
      ensures t in s.queue <==> s.history[t].place == Queued
    {
      var first := |s.history| - |s.queue|;
      if t >= first {
        assert s.queue[t - first] == t;
      }
    }
  }

  lemma WorkerKeepsOwned(s: Pool, w: nat)
    requires Owned(s) && WorkerReady(s, w)
    ensures Owned(RunWorker(s, w))
  {
    var s' := RunWorker(s, w);
    assert Holding(s', w + 1) == if s'.workers[w].Executing? then s'.workers[w].task else -1;
    assert OthersHold(s, s', w + 1);
    if s.workers[w].Executing? {
      assert s.workers[w].task == Holding(s, w + 1);
      FinishKeepsOwned(s, s', w + 1);
    } else if s'.workers[w].Executing? {
      TakeKeepsOwned(s, s', w + 1);
    } else {
      SameKeepsOwned(s, s');
    }
  }

  lemma DriverKeepsOwned(s: Pool)
    requires Owned(s) && DriverReady(s)
    ensures Owned(RunDriver(s))
  {
    var s' := RunDriver(s);
    assert OthersHold(s, s', 0);
    if s.driver.HelpingTask? || s.driver.DrainingTask? {
      assert s.driver.task == Holding(s, 0);
      FinishKeepsOwned(s, s', 0);
    } else if s'.driver.HelpingTask? || s'.driver.DrainingTask? {
      TakeKeepsOwned(s, s', 0);
    } else {
      SameKeepsOwned(s, s');
    }
  }

  lemma StepKeepsOwned(s: Pool, step: Step)
    requires Owned(s) && Enabled(s, step)
    ensures Owned(Apply(s, step))
  {
    var s' := Apply(s, step);
    match step
    case WorkerStep(w) => WorkerKeepsOwned(s, w);
    case DriverStep => DriverKeepsOwned(s);
    case AddWork(_) => PushKeepsOwned(s, s');
    case TaskAddsWork(_, _) => PushKeepsOwned(s, s');
    case ClearAllWork => DiscardKeepsOwned(s, s');
    case _ => SameKeepsOwned(s, s');
  }

  // ---------------------------------------------------------------- phases

  lemma WorkerKeepsPhased(s: Pool, w: nat)
    requires Phased(s) && WorkerReady(s, w)
    ensures Phased(RunWorker(s, w))
  {
  }

  lemma NoneActive(s: Pool)
    requires Counted(s) && s.currActive == 0
    ensures NoWorkerExecutes(s)
  {
    forall i | 0 <= i < |s.workers| ensures !s.workers[i].Executing? {
      if s.workers[i].Executing? {
        CountZero(s.workers, IsActive, i);
      }
    }
  }

  lemma DriverKeepsPhased(s: Pool)
    requires Counted(s) && Owned(s) && Phased(s) && DriverReady(s)
    ensures Phased(RunDriver(s))
  {
    if s.currActive == 0 {
      NoneActive(s);
    }
  }

  lemma StepKeepsPhased(s: Pool, step: Step)
    requires Counted(s) && Owned(s) && Phased(s) && Enabled(s, step)
    ensures Phased(Apply(s, step))
  {
    match step
    case WorkerStep(w) => WorkerKeepsPhased(s, w);
    case DriverStep => DriverKeepsPhased(s);
    case _ =>
  }

  lemma InitSafe(n: nat)
    ensures Safe(Init(n))
  {
    CountAll(Init(n).workers, IsActive);
    CountNone(Init(n).workers);
  }

  lemma {:induction false} CountNone(ws: seq<Worker>)
    requires forall i :: 0 <= i < |ws| ==> ws[i] == LoopTop
    ensures Count(ws, IsAwaiting) == 0
  {
    if ws != [] {
      CountNone(ws[1..]);
    }
  }

  lemma {:induction false} RunKeepsSafe(s: Pool, steps: seq<Step>)
    requires Safe(s) && IsRun(s, steps)
    ensures Safe(After(s, steps))
    decreases |steps|
  {
    if steps != [] {
      StepKeepsCounts(s, steps[0]);
      StepKeepsOwned(s, steps[0]);
      StepKeepsPhased(s, steps[0]);
      RunKeepsSafe(Apply(s, steps[0]), steps[1..]);
    }
  }
}
