/** The GC thread pool as a machine whose steps are the pool's critical sections.

    `N` workers and one driver share the mutex, the work queue, the two counters
    and four condition variables.  Everything a thread does between taking
    `poolMutex` and giving it up (by unlocking or by waiting) is one step.  A
    thread inside a wait carries a flag saying whether a notification has reached
    it; a spurious wake-up raises the same flag.  `Exit` may happen at any moment.

    Tasks are numbered in the order in which `AddWork` receives them.  `history`
    records for each task where it is and how often it has been executed; no
    step reads it.
 */
module GcThreadPool {

  type Task = nat

  datatype Worker =
    | LoopTop                        // about to test IsExited()
    | Entering                       // about to lock poolMutex
    | Sleeping(notified: bool)       // in threadSleepingCondVar.wait
    | AwaitingTask(notified: bool)   // in taskEmptyCondVar.wait
    | Executing(task: Task)
    | Leaving                        // saw the exit flag, about to lock for the last time
    | Exited

  /** `finishing` tells a Stop or a DrainWorkQueue made by WaitFinish from a direct call. */
  datatype Driver =
    | Idle
    | Helping                        // in WaitFinish's own drain loop, about to lock
    | HelpingTask(task: Task)
    | FinishEntry                    // about to lock for the wait of WaitFinish
    | AwaitingFinish(notified: bool) // in allWorkDoneCondVar.wait
    | StopEntry(finishing: bool)     // about to lock in Stop
    | AwaitingStop(notified: bool, finishing: bool)  // in allThreadStopped.wait
    | Draining(finishing: bool)      // in DrainWorkQueue, about to lock
    | DrainingTask(task: Task, finishing: bool)
    | FinishReturned                 // WaitFinish has returned

  /** An executor is numbered as `HeapWork::Execute` numbers it: 0 is the driver. */
  datatype Place = Queued | HeldBy(executor: nat) | Finished | Discarded

  datatype TaskRecord = TaskRecord(place: Place, runs: nat)

  datatype Pool = Pool(
    running: bool,
    exit: bool,
    queue: seq<Task>,
    maxActive: int,
    currActive: int,
    waiting: int,
    workers: seq<Worker>,
    driver: Driver,
    history: seq<TaskRecord>)

  datatype Step =
    | WorkerStep(w: nat)
    | TaskAddsWork(executor: nat, pick: nat)  // a task calls AddWork while it runs
    | DriverStep
    | AddWork(pick: nat)
    | Start
    | CallWaitFinish
    | CallStop
    | CallDrain
    | ClearAllWork
    | SetMaxActive(num: int)
    | Exit
    | SpuriousWorker(w: nat)
    | SpuriousDriver

  // ---------------------------------------------------------------- condition variables

  function WakeSleeper(w: Worker): Worker {
    if w.Sleeping? then Sleeping(true) else w
  }

  function WakeAwaiting(w: Worker): Worker {
    if w.AwaitingTask? then AwaitingTask(true) else w
  }

  /** threadSleepingCondVar.notify_all */
  function NotifySleepers(ws: seq<Worker>): seq<Worker> {
    seq(|ws|, i requires 0 <= i < |ws| => WakeSleeper(ws[i]))
  }

  /** taskEmptyCondVar.notify_all */
  function NotifyAwaiting(ws: seq<Worker>): seq<Worker> {
    seq(|ws|, i requires 0 <= i < |ws| => WakeAwaiting(ws[i]))
  }

  /** allWorkDoneCondVar.notify_all */
  function NotifyFinish(d: Driver): Driver {
    if d.AwaitingFinish? then AwaitingFinish(true) else d
  }

  /** allThreadStopped.notify_all */
  function NotifyStop(d: Driver): Driver {
    if d.AwaitingStop? then d.(notified := true) else d
  }

  /** taskEmptyCondVar.notify_one wakes some un-notified waiter, if there is one. */
  ghost predicate LegalPick(ws: seq<Worker>, pick: nat) {
    (exists i :: 0 <= i < |ws| && ws[i] == AwaitingTask(false)) ==>
      pick < |ws| && ws[pick] == AwaitingTask(false)
  }

  function NotifyOneAwaiting(ws: seq<Worker>, pick: nat): seq<Worker> {
    if pick < |ws| && ws[pick] == AwaitingTask(false) then ws[pick := AwaitingTask(true)] else ws
  }

  // ---------------------------------------------------------------- task history

  function Record(h: seq<TaskRecord>, t: Task, place: Place): seq<TaskRecord> {
    if t < |h| then
      h[t := TaskRecord(place, h[t].runs + (if place.HeldBy? then 1 else 0))]
    else h
  }

  /** What an executor is running. */
  function Holding(s: Pool, executor: nat): (t: int) {
    if executor == 0 then
      if s.driver.HelpingTask? || s.driver.DrainingTask? then s.driver.task else -1
    else if executor <= |s.workers| && s.workers[executor - 1].Executing? then s.workers[executor - 1].task
    else -1
  }

  // ---------------------------------------------------------------- worker sections

  /** The part of WorkerFunc's section after the sleep loop. */
  function TakeOrAwait(s: Pool, w: nat): Pool
    requires w < |s.workers|
  {
    if s.queue == [] && s.running && !s.exit then
      var waiting := s.waiting + 1;
      s.(waiting := waiting,
         driver := if waiting == s.maxActive then NotifyFinish(s.driver) else s.driver,
         workers := s.workers[w := AwaitingTask(false)])
    else if s.queue != [] && s.running && !s.exit then
      s.(queue := s.queue[1..],
         workers := s.workers[w := Executing(s.queue[0])],
         history := Record(s.history, s.queue[0], HeldBy(w + 1)))
    else
      s.(workers := s.workers[w := LoopTop])
  }

  /** WorkerFunc's section from the test of the sleep loop on. */
  function SleepOrGoOn(s: Pool, w: nat): Pool
    requires w < |s.workers|
  {
    if (s.currActive > s.maxActive || !s.running) && !s.exit then
      s.(currActive := s.currActive - 1,
         driver := if s.currActive - 1 == 0 then NotifyStop(s.driver) else s.driver,
         workers := s.workers[w := Sleeping(false)])
    else TakeOrAwait(s, w)
  }

  function Leave(s: Pool, w: nat): Pool
    requires w < |s.workers|
  {
    s.(currActive := s.currActive - 1,
       driver := if s.currActive - 1 == 0 then NotifyStop(s.driver) else s.driver,
       workers := s.workers[w := Exited])
  }

  predicate WorkerReady(s: Pool, w: nat) {
    w < |s.workers| &&
    match s.workers[w]
    case Sleeping(n) => n
    case AwaitingTask(n) => n
    case Exited => false
    case _ => true
  }

  function RunWorker(s: Pool, w: nat): Pool
    requires WorkerReady(s, w)
  {
    match s.workers[w]
    case LoopTop => s.(workers := s.workers[w := if s.exit then Leaving else Entering])
    case Entering => SleepOrGoOn(s, w)
    case Sleeping(_) => SleepOrGoOn(s.(currActive := s.currActive + 1), w)
    case AwaitingTask(_) => TakeOrAwait(s.(waiting := s.waiting - 1), w)
    case Executing(t) =>
      s.(workers := s.workers[w := LoopTop], history := Record(s.history, t, Finished))
    case Leaving => Leave(s, w)
  }

  // ---------------------------------------------------------------- driver sections

  function PushWork(s: Pool, pick: nat): Pool {
    s.(queue := s.queue + [|s.history|],
       history := s.history + [TaskRecord(Queued, 0)],
       workers := if s.running && s.waiting > 0 then NotifyOneAwaiting(s.workers, pick) else s.workers)
  }

  /** The loop test of WaitFinish's wait; the next call is Stop. */
  function FinishWait(s: Pool): Pool {
    if s.waiting != s.maxActive && s.running && !s.exit
    then s.(driver := AwaitingFinish(false))
    else s.(driver := StopEntry(true))
  }

  /** The loop test of Stop's wait. */
  function StopWait(s: Pool, finishing: bool): Pool {
    if s.currActive != 0 then s.(driver := AwaitingStop(false, finishing))
    else s.(driver := if finishing then Draining(true) else Idle)
  }

  predicate DriverReady(s: Pool) {
    match s.driver
    case Idle => false
    case FinishReturned => false
    case AwaitingFinish(n) => n
    case AwaitingStop(n, _) => n
    case _ => true
  }

  function RunDriver(s: Pool): Pool
    requires DriverReady(s)
  {
    match s.driver
    case Helping =>
      if s.queue != [] && s.running && !s.exit then
        s.(queue := s.queue[1..], driver := HelpingTask(s.queue[0]),
           history := Record(s.history, s.queue[0], HeldBy(0)))
      else s.(driver := FinishEntry)
    case HelpingTask(t) => s.(driver := Helping, history := Record(s.history, t, Finished))
    case FinishEntry => FinishWait(s)
    case AwaitingFinish(_) => FinishWait(s)
    case StopEntry(finishing) =>
      StopWait(s.(running := false, workers := NotifyAwaiting(s.workers)), finishing)
    case AwaitingStop(_, finishing) => StopWait(s, finishing)
    case Draining(finishing) =>
      if s.queue != [] then
        s.(queue := s.queue[1..], driver := DrainingTask(s.queue[0], finishing),
           history := Record(s.history, s.queue[0], HeldBy(0)))
      else s.(driver := if finishing then FinishReturned else Idle)
    case DrainingTask(t, finishing) =>
      s.(driver := Draining(finishing), history := Record(s.history, t, Finished))
  }

  /** Every queued task is deleted unexecuted. */
  function DiscardFrom(h: seq<TaskRecord>, queue: seq<Task>): (r: seq<TaskRecord>)
    ensures |r| == |h|
  {
    seq(|h|, t requires 0 <= t < |h| => if t in queue then h[t].(place := Discarded) else h[t])
  }

  function ClampActive(s: Pool, num: int): int {
    if num >= |s.workers| then |s.workers| else if num > 0 then num else s.maxActive
  }

  function ChangeMaxActive(s: Pool, num: int): Pool {
    var newMax := ClampActive(s, num);
    s.(maxActive := newMax,
       workers := if newMax > s.maxActive && s.waiting > 0 && s.running
                  then NotifySleepers(s.workers) else s.workers)
  }

  // ---------------------------------------------------------------- the machine

  /** The pool as its constructor leaves it: threads started, about to call Stop. */
  function Init(n: nat): Pool {
    Pool(false, false, [], n, n, 0, seq(n, _ => LoopTop), StopEntry(false), [])
  }

  predicate BetweenCalls(s: Pool) {
    s.driver.Idle? || s.driver.FinishReturned?
  }

  ghost predicate Enabled(s: Pool, step: Step) {
    match step
    case WorkerStep(w) => WorkerReady(s, w)
    case TaskAddsWork(e, pick) => Holding(s, e) >= 0 && LegalPick(s.workers, pick)
    case DriverStep => DriverReady(s)
    case AddWork(pick) => BetweenCalls(s) && LegalPick(s.workers, pick)
    case CallDrain => BetweenCalls(s) && !s.running  // asserted by DrainWorkQueue
    case Exit => true
    case SpuriousWorker(w) => w < |s.workers| && (s.workers[w].Sleeping? || s.workers[w].AwaitingTask?)
    case SpuriousDriver => s.driver.AwaitingFinish? || s.driver.AwaitingStop?
    case _ => BetweenCalls(s)
  }

  function Apply(s: Pool, step: Step): Pool {
    match step
    case WorkerStep(w) => if WorkerReady(s, w) then RunWorker(s, w) else s
    case TaskAddsWork(_, pick) => PushWork(s, pick)
    case DriverStep => if DriverReady(s) then RunDriver(s) else s
    case AddWork(pick) => PushWork(s, pick).(driver := Idle)
    case Start => s.(running := true, workers := NotifySleepers(s.workers), driver := Idle)
    case CallWaitFinish => s.(driver := Helping)
    case CallStop => s.(driver := StopEntry(false))
    case CallDrain => s.(driver := Draining(false))
    case ClearAllWork => s.(queue := [], history := DiscardFrom(s.history, s.queue), driver := Idle)
    case SetMaxActive(num) => ChangeMaxActive(s, num).(driver := Idle)
    case Exit =>
      s.(exit := true, workers := NotifySleepers(NotifyAwaiting(s.workers)),
         driver := NotifyStop(NotifyFinish(s.driver)))
    case SpuriousWorker(w) =>
      if w < |s.workers| then s.(workers := s.workers[w := WakeSleeper(WakeAwaiting(s.workers[w]))]) else s
    case SpuriousDriver => s.(driver := NotifyStop(NotifyFinish(s.driver)))
  }

  ghost predicate IsRun(s: Pool, steps: seq<Step>)
    decreases |steps|
  {
    steps == [] || (Enabled(s, steps[0]) && IsRun(Apply(s, steps[0]), steps[1..]))
  }

  function After(s: Pool, steps: seq<Step>): Pool
    decreases |steps|
  {
    if steps == [] then s else After(Apply(s, steps[0]), steps[1..])
  }

  /** The manual's rule: the thread limit changes only while the pool is stopped. */
  ghost predicate Disciplined(s: Pool, steps: seq<Step>)
    decreases |steps|
  {
    steps == [] ||
    ((steps[0].SetMaxActive? ==> !s.running) && Disciplined(Apply(s, steps[0]), steps[1..]))
  }
}
