/** Two runs of two threads: an instance registered from outside, between the inserting thread's test and
    its store, makes one key return two instances; and an instance that registers itself is given to
    another thread before it is complete. */
module InterningRace {
  import opened Interning
  import opened InterningSafety
  import opened InterningCallers

  /** What a state with two threads looks like to someone interested in key k alone. */
  ghost predicate Looks(s: State, k: Key, lock: int, vec: seq<nat>, ds: seq<Desc>, top: seq<seq<Frame>>,
                        log: seq<Event>) {
    && |s.buckets| == BUCKETS && s.buckets[BucketOf(k)].lock == lock && Vec(s.buckets, k) == vec
    && s.descs == ds && |s.stacks| == |top| == 2 && s.stacks[0] == top[0] && s.stacks[1] == top[1]
    && s.log == log
  }

  /** Some run leads from s to s'; if `own`, one in which instances register only themselves. */
  ghost predicate Reaches(s: State, s': State, own: bool) {
    exists steps :: IsRun(s, steps) && After(s, steps) == s' && (own ==> OwnRun(s, steps))
  }

  lemma {:induction false} RunLonger(s: State, steps: seq<Step>, step: Step)
    requires IsRun(s, steps) && Enabled(After(s, steps), step)
    ensures IsRun(s, steps + [step]) && After(s, steps + [step]) == Apply(After(s, steps), step)
    ensures OwnRun(s, steps) && OwnStep(After(s, steps), step) ==> OwnRun(s, steps + [step])
    decreases |steps|
  {
    if steps != [] {
      assert (steps + [step])[1..] == steps[1..] + [step];
      RunLonger(Apply(s, steps[0]), steps[1..], step);
    }
  }

  lemma Go(s0: State, s: State, own: bool, step: Step) returns (s': State)
    requires Reaches(s0, s, own) && Enabled(s, step) && (own ==> OwnStep(s, step))
    ensures s' == Apply(s, step) && Reaches(s0, s', own)
  {
    var steps :| IsRun(s0, steps) && After(s0, steps) == s && (own ==> OwnRun(s0, steps));
    RunLonger(s0, steps, step);
    s' := Apply(s, step);
  }

  function Ask(k: Key, pc: Pc): seq<Frame> {
    [Frame(k, GetOrCreate, pc)]
  }

  function Reg(k: Key, info: nat, pc: Pc): seq<Frame> {
    [Frame(k, Register(info), pc)]
  }

  /** Thread 0 asks for k and enters its bucket. */
  lemma Enters(s0: State, s: State, own: bool, k: Key) returns (s': State)
    requires Reaches(s0, s, own) && Looks(s, k, 0, [], [], [[], []], [])
    ensures Reaches(s0, s', own) && s'.nextInfo == s.nextInfo && s'.registered == s.registered
    ensures Looks(s', k, 1, [], [], [Ask(k, ReadScan(0)), []], [])
  {
    s' := s;
    s' := Go(s0, s', own, Call(0, k, GetOrCreate));
    assert Looks(s', k, 0, [], [], [Ask(k, LockRead), []], []);
    s' := Go(s0, s', own, Run(0, false));
    assert Looks(s', k, 0, [], [], [Ask(k, ReadCas(0)), []], []);
    s' := Go(s0, s', own, Run(0, false));
  }

  /** It finds nothing. */
  lemma FindsNothing(s0: State, s: State, own: bool, k: Key) returns (s': State)
    requires Reaches(s0, s, own) && Looks(s, k, 1, [], [], [Ask(k, ReadScan(0)), []], [])
    ensures Reaches(s0, s', own) && s'.nextInfo == s.nextInfo && s'.registered == s.registered
    ensures Looks(s', k, 0, [], [], [Ask(k, LockWrite), []], [])
  {
    s' := s;
    s' := Go(s0, s', own, Run(0, false));
    assert Looks(s', k, 1, [], [], [Ask(k, UnlockRead(None)), []], []);
    s' := Go(s0, s', own, Run(0, false));
  }

  /** It looks again with the bucket to itself. */
  lemma LooksAgain(s0: State, s: State, own: bool, k: Key) returns (s': State)
    requires Reaches(s0, s, own) && Looks(s, k, 0, [], [], [Ask(k, LockWrite), []], [])
    ensures Reaches(s0, s', own) && s'.nextInfo == s.nextInfo && s'.registered == s.registered
    ensures Looks(s', k, -1, [], [], [Ask(k, Insert), []], [])
  {
    s' := s;
    s' := Go(s0, s', own, Run(0, false));
    assert Looks(s', k, -1, [], [], [Ask(k, WriteScan(0)), []], []);
    s' := Go(s0, s', own, Run(0, false));
  }

  /** It inserts a descriptor and passes its first test. */
  lemma Inserts(s0: State, s: State, own: bool, k: Key) returns (s': State)
    requires Reaches(s0, s, own) && Looks(s, k, -1, [], [], [Ask(k, Insert), []], [])
    ensures Reaches(s0, s', own) && s'.nextInfo == s.nextInfo && s'.registered == s.registered
    ensures Looks(s', k, 0, [0], [Desc(k, 0, None, NotCreated)], [Ask(k, Publish(0)), []], [])
  {
    s' := s;
    s' := Go(s0, s', own, Run(0, false));
    assert Looks(s', k, -1, [0], [Desc(k, 0, None, NotCreated)], [Ask(k, UnlockWrite(0)), []], []);
    s' := Go(s0, s', own, Run(0, false));
    assert Looks(s', k, 0, [0], [Desc(k, 0, None, NotCreated)], [Ask(k, CheckCreated(0)), []], []);
    s' := Go(s0, s', own, Run(0, false));
  }

  /** Thread 1 enters the descriptor's bucket, whatever thread 0 is doing. */
  lemma StartsLooking(s0: State, s: State, own: bool, d: Desc, purpose: Purpose, st: seq<Frame>, log: seq<Event>)
    returns (s': State)
    requires Reaches(s0, s, own) && Looks(s, d.key, 0, [0], [d], [st, []], log) && (own ==> purpose.GetOrCreate?)
    ensures Reaches(s0, s', own) && s'.nextInfo == s.nextInfo
    ensures Looks(s', d.key, 1, [0], [d], [st, [Frame(d.key, purpose, ReadScan(0))]], log)
  {
    s' := s;
    s' := Go(s0, s', own, Call(1, d.key, purpose));
    assert Looks(s', d.key, 0, [0], [d], [st, [Frame(d.key, purpose, LockRead)]], log);
    s' := Go(s0, s', own, Run(1, false));
    assert Looks(s', d.key, 0, [0], [d], [st, [Frame(d.key, purpose, ReadCas(0))]], log);
    s' := Go(s0, s', own, Run(1, false));
  }

  /** It finds the descriptor. */
  lemma Finds(s0: State, s: State, own: bool, d: Desc, purpose: Purpose, st: seq<Frame>, log: seq<Event>)
    returns (s': State)
    requires Reaches(s0, s, own) && Looks(s, d.key, 0, [0], [d], [st, []], log) && (own ==> purpose.GetOrCreate?)
    ensures Reaches(s0, s', own) && s'.nextInfo == s.nextInfo
    ensures Looks(s', d.key, 0, [0], [d], [st, [Frame(d.key, purpose, Found(purpose, 0))]], log)
  {
    s' := StartsLooking(s0, s, own, d, purpose, st, log);
    s' := Go(s0, s', own, Run(1, false));
    assert Looks(s', d.key, 1, [0], [d], [st, [Frame(d.key, purpose, UnlockRead(Some(0)))]], log);
    s' := Go(s0, s', own, Run(1, false));
  }

  /** Thread 1 registers an instance of its own for k. */
  lemma OutsiderRegisters(s0: State, s: State, k: Key, i: nat) returns (s': State)
    requires Reaches(s0, s, false) && Looks(s, k, 0, [0], [Desc(k, 0, None, NotCreated)], [Ask(k, Publish(0)), []], [])
    ensures Reaches(s0, s', false) && s'.nextInfo == s.nextInfo
    ensures Looks(s', k, 0, [0], [Desc(k, 0, Some(i), Inited)], [Ask(k, Publish(0)), []], [])
  {
    s' := Finds(s0, s, false, Desc(k, 0, None, NotCreated), Register(i), Ask(k, Publish(0)), []);
    s' := OutsiderStores(s0, s', k, i);
  }

  lemma OutsiderStores(s0: State, s: State, k: Key, i: nat) returns (s': State)
    requires Reaches(s0, s, false)
    requires Looks(s, k, 0, [0], [Desc(k, 0, None, NotCreated)], [Ask(k, Publish(0)), Reg(k, i, TestInfo(0))], [])
    ensures Reaches(s0, s', false) && s'.nextInfo == s.nextInfo
    ensures Looks(s', k, 0, [0], [Desc(k, 0, Some(i), Inited)], [Ask(k, Publish(0)), []], [])
  {
    s' := s;
    s' := Go(s0, s', false, Run(1, false));
    assert Looks(s', k, 0, [0], [Desc(k, 0, None, NotCreated)], [Ask(k, Publish(0)), Reg(k, i, StoreInfo(0))], []);
    s' := Go(s0, s', false, Run(1, false));
    assert Looks(s', k, 0, [0], [Desc(k, 0, Some(i), NotCreated)], [Ask(k, Publish(0)), Reg(k, i, SetInited(0))], []);
    s' := Go(s0, s', false, Run(1, false));
  }

  /** It is given what is there. */
  lemma IsGiven(s0: State, s: State, own: bool, k: Key, i: nat, st: seq<Frame>, log: seq<Event>) returns (s': State)
    requires Reaches(s0, s, own) &&
             Looks(s, k, 0, [0], [Desc(k, 0, Some(i), Inited)], [st, Ask(k, CheckCreated(0))], log)
    ensures Reaches(s0, s', own) && s'.nextInfo == s.nextInfo
    ensures Looks(s', k, 0, [0], [Desc(k, 0, Some(i), Inited)], [st, []], log + [Returned(0, 1, Some(i), Inited)])
  {
    s' := s;
    s' := Go(s0, s', own, Run(1, false));
    assert Looks(s', k, 0, [0], [Desc(k, 0, Some(i), Inited)], [st, Ask(k, CheckIniting(0))], log);
    s' := Go(s0, s', own, Run(1, false));
    assert Looks(s', k, 0, [0], [Desc(k, 0, Some(i), Inited)], [st, Ask(k, CheckInited(0))], log);
    s' := Go(s0, s', own, Run(1, false));
    assert Looks(s', k, 0, [0], [Desc(k, 0, Some(i), Inited)], [st, Ask(k, Return(0))], log);
    s' := Go(s0, s', own, Run(1, false));
    assert Looks(s', k, 0, [0], [Desc(k, 0, Some(i), Inited)], [st, []], log + [Returned(0, 1, Some(i), Inited)]);
  }

  /** Thread 0 stores its instance over it and completes it. */
  lemma InserterStores(s0: State, s: State, k: Key, i: nat, log: seq<Event>) returns (s': State)
    requires Reaches(s0, s, false) && Looks(s, k, 0, [0], [Desc(k, 0, Some(i), Inited)], [Ask(k, Publish(0)), []], log)
    ensures Reaches(s0, s', false)
    ensures Looks(s', k, 0, [0], [Desc(k, 0, Some(s.nextInfo), Inited)], [Ask(k, CheckIniting(0)), []],
                  log + [Created(0, 0)])
  {
    s' := s;
    s' := Go(s0, s', false, Run(0, false));
    assert Looks(s', k, 0, [0], [Desc(k, 0, Some(s.nextInfo), Inited)], [Ask(k, MarkIniting(0)), []],
                 log + [Created(0, 0)]);
    s' := Go(s0, s', false, Run(0, false));
    assert Looks(s', k, 0, [0], [Desc(k, 0, Some(s.nextInfo), Initing)], [Ask(k, Filling(0)), []],
                 log + [Created(0, 0)]);
    s' := Go(s0, s', false, Run(0, false));
  }

  /** It is given that. */
  lemma InserterReturns(s0: State, s: State, k: Key, i: nat, log: seq<Event>) returns (s': State)
    requires Reaches(s0, s, false) &&
             Looks(s, k, 0, [0], [Desc(k, 0, Some(i), Inited)], [Ask(k, CheckIniting(0)), []], log)
    ensures Reaches(s0, s', false)
    ensures Looks(s', k, 0, [0], [Desc(k, 0, Some(i), Inited)], [[], []], log + [Returned(0, 0, Some(i), Inited)])
  {
    s' := s;
    s' := Go(s0, s', false, Run(0, false));
    assert Looks(s', k, 0, [0], [Desc(k, 0, Some(i), Inited)], [Ask(k, CheckInited(0)), []], log);
    s' := Go(s0, s', false, Run(0, false));
    assert Looks(s', k, 0, [0], [Desc(k, 0, Some(i), Inited)], [Ask(k, Return(0)), []], log);
    s' := Go(s0, s', false, Run(0, false));
  }

  /** From the start, thread 0 passes its test. */
  lemma Begins(s0: State, own: bool, k: Key) returns (s: State)
    requires Init(s0) && |s0.stacks| == 2
    ensures Reaches(s0, s, own) && s.nextInfo == s0.nextInfo
    ensures Looks(s, k, 0, [0], [Desc(k, 0, None, NotCreated)], [Ask(k, Publish(0)), []], [])
  {
    assert IsRun(s0, []) && After(s0, []) == s0 && OwnRun(s0, []);
    assert Reaches(s0, s0, own);
    s := Enters(s0, s0, own, k);
    s := FindsNothing(s0, s, own, k);
    s := LooksAgain(s0, s, own, k);
    s := Inserts(s0, s, own, k);
  }

  /** One key, two returns, two instances: the run above from any initial state with two threads. */
  lemma OutsideRegistrationSplitsKey(s0: State, k: Key, i: nat) returns (s: State)
    requires Init(s0) && |s0.stacks| == 2 && i != s0.nextInfo
    ensures Reaches(s0, s, false) && |s.descs| == 1 && s.descs[0].key == k
    ensures Returned(0, 1, Some(i), Inited) in s.log && Returned(0, 0, Some(s0.nextInfo), Inited) in s.log
  {
    s := Begins(s0, false, k);
    s := OutsiderRegisters(s0, s, k, i);
    s := Finds(s0, s, false, Desc(k, 0, Some(i), Inited), GetOrCreate, Ask(k, Publish(0)), []);
    s := IsGiven(s0, s, false, k, i, Ask(k, Publish(0)), []);
    s := InserterStores(s0, s, k, i, s.log);
    s := InserterReturns(s0, s, k, s0.nextInfo, s.log);
    assert s.log[0] == Returned(0, 1, Some(i), Inited) && s.log[2] == Returned(0, 0, Some(s0.nextInfo), Inited);
  }

  // ---------------------------------------------------------------- given before it is complete

  function Fill(k: Key): Frame {
    Frame(k, GetOrCreate, Filling(0))
  }

  /** Thread 0 stores its instance and calls AddTypeInfo for it. */
  lemma StartsFilling(s0: State, s: State, k: Key) returns (s': State)
    requires Reaches(s0, s, true) && Looks(s, k, 0, [0], [Desc(k, 0, None, NotCreated)], [Ask(k, Publish(0)), []], [])
    ensures Reaches(s0, s', true)
    ensures Looks(s', k, 0, [0], [Desc(k, 0, Some(s.nextInfo), Initing)],
                  [[Fill(k)] + Reg(k, s.nextInfo, LockRead), []], [Created(0, 0)])
  {
    s' := s;
    s' := Go(s0, s', true, Run(0, false));
    assert Looks(s', k, 0, [0], [Desc(k, 0, Some(s.nextInfo), NotCreated)], [Ask(k, MarkIniting(0)), []],
                 [Created(0, 0)]);
    s' := Go(s0, s', true, Run(0, false));
    assert Looks(s', k, 0, [0], [Desc(k, 0, Some(s.nextInfo), Initing)], [[Fill(k)], []], [Created(0, 0)]);
    s' := Go(s0, s', true, Call(0, k, Register(s.nextInfo)));
  }

  lemma FindsWhileFilling(s0: State, s: State, k: Key, i: nat) returns (s': State)
    requires Reaches(s0, s, true)
    requires Looks(s, k, 0, [0], [Desc(k, 0, Some(i), Initing)], [[Fill(k)] + Reg(k, i, LockRead), []], [Created(0, 0)])
    ensures Reaches(s0, s', true)
    ensures Looks(s', k, 0, [0], [Desc(k, 0, Some(i), Initing)], [[Fill(k)] + Reg(k, i, TestInfo(0)), []],
                  [Created(0, 0)])
  {
    s' := s;
    s' := Go(s0, s', true, Run(0, false));
    assert Looks(s', k, 0, [0], [Desc(k, 0, Some(i), Initing)], [[Fill(k)] + Reg(k, i, ReadCas(0)), []],
                 [Created(0, 0)]);
    s' := Go(s0, s', true, Run(0, false));
    assert Looks(s', k, 1, [0], [Desc(k, 0, Some(i), Initing)], [[Fill(k)] + Reg(k, i, ReadScan(0)), []],
                 [Created(0, 0)]);
    s' := Go(s0, s', true, Run(0, false));
    assert Looks(s', k, 1, [0], [Desc(k, 0, Some(i), Initing)], [[Fill(k)] + Reg(k, i, UnlockRead(Some(0))), []],
                 [Created(0, 0)]);
    s' := Go(s0, s', true, Run(0, false));
  }

  /** Whether the instance has a uuid already or not. */
  lemma RegistersWhileFilling(s0: State, s: State, k: Key, i: nat) returns (s': State)
    requires Reaches(s0, s, true)
    requires Looks(s, k, 0, [0], [Desc(k, 0, Some(i), Initing)], [[Fill(k)] + Reg(k, i, TestInfo(0)), []],
                   [Created(0, 0)])
    ensures Reaches(s0, s', true)
    ensures Looks(s', k, 0, [0], [Desc(k, 0, Some(i), Inited)], [[Fill(k)], []], [Created(0, 0)])
  {
    s' := s;
    s' := Go(s0, s', true, Run(0, false));
    if i !in s.registered {
      assert Looks(s', k, 0, [0], [Desc(k, 0, Some(i), Initing)], [[Fill(k)] + Reg(k, i, StoreInfo(0)), []],
                   [Created(0, 0)]);
      s' := Go(s0, s', true, Run(0, false));
    }
    assert Looks(s', k, 0, [0], [Desc(k, 0, Some(i), Initing)], [[Fill(k)] + Reg(k, i, SetInited(0)), []],
                 [Created(0, 0)]);
    s' := Go(s0, s', true, Run(0, false));
  }

  /** Thread 1 is given the instance as INITED while thread 0 is still filling it in, although nothing was
      registered but by the creation itself. */
  lemma GivenWhileFilling(s0: State, k: Key) returns (s: State)
    requires Init(s0) && |s0.stacks| == 2
    ensures Reaches(s0, s, true) && |s.descs| == 1 && s.descs[0].key == k
    ensures |s.stacks| == 2 && s.stacks[0] == [Frame(k, GetOrCreate, Filling(0))]
    ensures s.log == [Created(0, 0), Returned(0, 1, Some(s0.nextInfo), Inited)]
  {
    s := Begins(s0, true, k);
    s := StartsFilling(s0, s, k);
    s := FindsWhileFilling(s0, s, k, s0.nextInfo);
    s := RegistersWhileFilling(s0, s, k, s0.nextInfo);
    s := Finds(s0, s, true, Desc(k, 0, Some(s0.nextInfo), Inited), GetOrCreate, [Fill(k)], [Created(0, 0)]);
    s := IsGiven(s0, s, true, k, s0.nextInfo, [Fill(k)], [Created(0, 0)]);
  }
}
