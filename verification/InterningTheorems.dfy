/** The interning table is canonical: what holds of every run, and of every run in which AddTypeInfo does
    not cut in on a creation. */
module InterningTheorems {
  import opened Interning
  import opened InterningSafety

  // ---------------------------------------------------------------- creation happens once

  /** How often an instance was created for descriptor id. */
  function Creations(log: seq<Event>, id: nat): nat {
    if log == [] then 0
    else Creations(log[..|log| - 1], id) + (if log[|log| - 1].Created? && log[|log| - 1].id == id then 1 else 0)
  }

  lemma CreationsAppend(log: seq<Event>, e: Event, id: nat)
    ensures Creations(log + [e], id) == Creations(log, id) + (if e.Created? && e.id == id then 1 else 0)
  {
    assert (log + [e])[..|log|] == log;
  }

  ghost predicate DescCreated(s: State, id: nat)
    requires id < |s.descs|
  {
    Creations(s.log, id) <= 1 && (Creations(s.log, id) == 1 ==> s.descs[id].typeInfo.Some?)
  }

  ghost predicate Creator(ds: seq<Desc>, e: Event) {
    e.id < |ds| && (e.Created? ==> ds[e.id].tid == e.thread)
  }

  /** A thread that is about to create an instance is the first to. */
  ghost predicate ToCreate(s: State, t: nat)
    requires t < |s.stacks|
  {
    s.stacks[t] != [] && Top(s.stacks[t]).pc.Publish? ==> Creations(s.log, Top(s.stacks[t]).pc.id) == 0
  }

  ghost predicate CreatedOnce(s: State) {
    && (forall id :: 0 <= id < |s.descs| ==> DescCreated(s, id))
    && (forall e :: 0 <= e < |s.log| ==> Creator(s.descs, s.log[e]))
    && (forall t :: 0 <= t < |s.stacks| ==> ToCreate(s, t))
  }

  lemma {:induction false} NoneCreated(log: seq<Event>, ds: seq<Desc>, id: nat)
    requires forall e :: 0 <= e < |log| ==> Creator(ds, log[e])
    requires id >= |ds|
    ensures Creations(log, id) == 0
  {
    if log != [] {
      assert Creator(ds, log[|log| - 1]);
      var init := log[..|log| - 1];
      forall e | 0 <= e < |init| ensures Creator(ds, init[e]) {
        assert init[e] == log[e];
      }
      NoneCreated(init, ds, id);
    }
  }

  /** A step that logs nothing and creates nothing. */
  lemma QuietStep(s: State, s': State, t: nat)
    requires CreatedOnce(s) && s'.log == s.log && Grows(s.descs, s'.descs)
    requires forall id :: 0 <= id < |s.descs| && s.descs[id].typeInfo.Some? ==> s'.descs[id].typeInfo.Some?
    requires t < |s.stacks| && |s'.stacks| == |s.stacks| && s'.stacks == s.stacks[t := s'.stacks[t]]
    requires ToCreate(s', t)
    ensures CreatedOnce(s')
  {
    forall id | 0 <= id < |s'.descs| ensures DescCreated(s', id) {
      if id < |s.descs| {
        assert DescCreated(s, id);
      } else {
        NoneCreated(s.log, s.descs, id);
      }
    }
    forall e | 0 <= e < |s'.log| ensures Creator(s'.descs, s'.log[e]) {
      assert Creator(s.descs, s.log[e]);
    }
    forall u | 0 <= u < |s'.stacks| ensures ToCreate(s', u) {
      assert ToCreate(s, u);
    }
  }

  lemma SearchKeepsCreated(s: State, t: nat, spurious: bool)
    requires Sound(s) && CreatedOnce(s) && Runnable(s, t) && InSearch(Top(s.stacks[t]).pc)
    ensures CreatedOnce(RunSearch(s, t, Top(s.stacks[t]), spurious))
  {
    SearchMoves(s, t, spurious);
    QuietStep(s, RunSearch(s, t, Top(s.stacks[t]), spurious), t);
  }

  lemma CheckKeepsCreated(s: State, t: nat)
    requires Sound(s) && CreatedOnce(s) && Runnable(s, t) && !InSearch(Top(s.stacks[t]).pc)
    requires !Top(s.stacks[t]).pc.Publish? && !Top(s.stacks[t]).pc.Return?
    ensures CreatedOnce(RunFound(s, t, Top(s.stacks[t])))
  {
    var f := Top(s.stacks[t]);
    var s' := RunFound(s, t, f);
    assert DescCreated(s, f.pc.id);
    FoundMoves(s, t);
    assert Positioned(s.stacks[t]) by { assert StackOk(s.buckets, s.descs, t, s.stacks[t]); }
    QuietStep(s, s', t);
  }

  lemma PublishKeepsCreated(s: State, t: nat)
    requires Sound(s) && CreatedOnce(s) && Runnable(s, t) && Top(s.stacks[t]).pc.Publish?
    ensures CreatedOnce(RunFound(s, t, Top(s.stacks[t])))
  {
    var f := Top(s.stacks[t]);
    var id := f.pc.id;
    var s' := RunFound(s, t, f);
    FoundMoves(s, t);
    assert s.descs[id].tid == t by {
      assert StackOk(s.buckets, s.descs, t, s.stacks[t]);
      assert FrameOk(s.buckets, s.descs, t, f);
    }
    assert ToCreate(s, t);
    assert s'.log == s.log + [Created(id, t)];
    forall i | 0 <= i < |s'.descs| ensures DescCreated(s', i) {
      assert DescCreated(s, i);
      CreationsAppend(s.log, Created(id, t), i);
    }
    forall e | 0 <= e < |s'.log| ensures Creator(s'.descs, s'.log[e]) {
      if e < |s.log| {
        assert Creator(s.descs, s.log[e]);
      }
    }
    forall u | 0 <= u < |s'.stacks| ensures ToCreate(s', u) {
      assert ToCreate(s, u);
      if u != t && s.stacks[u] != [] && Top(s.stacks[u]).pc.Publish? {
        assert StackOk(s.buckets, s.descs, u, s.stacks[u]);
        assert FrameOk(s.buckets, s.descs, u, Top(s.stacks[u]));
        CreationsAppend(s.log, Created(id, t), Top(s.stacks[u]).pc.id);
      }
    }
  }

  lemma ReturnKeepsCreated(s: State, t: nat)
    requires Sound(s) && CreatedOnce(s) && Runnable(s, t) && Top(s.stacks[t]).pc.Return?
    ensures CreatedOnce(RunFound(s, t, Top(s.stacks[t])))
  {
    var f := Top(s.stacks[t]);
    var s' := RunFound(s, t, f);
    var e := s'.log[|s.log|];
    FoundMoves(s, t);
    forall i | 0 <= i < |s'.descs| ensures DescCreated(s', i) {
      assert DescCreated(s, i);
      CreationsAppend(s.log, e, i);
    }
    forall j | 0 <= j < |s'.log| ensures Creator(s'.descs, s'.log[j]) {
      if j < |s.log| {
        assert Creator(s.descs, s.log[j]);
      }
    }
    assert StackOk(s.buckets, s.descs, t, s.stacks[t]);
    forall u | 0 <= u < |s'.stacks| ensures ToCreate(s', u) {
      assert ToCreate(s, u);
      if s'.stacks[u] != [] && Top(s'.stacks[u]).pc.Publish? {
        CreationsAppend(s.log, e, Top(s'.stacks[u]).pc.id);
      }
    }
  }

  lemma StepKeepsCreated(s: State, step: Step)
    requires Sound(s) && CreatedOnce(s) && Enabled(s, step)
    ensures CreatedOnce(Apply(s, step))
  {
    match step
    case Call(t, key, purpose) => QuietStep(s, Apply(s, step), t);
    case Run(t, spurious) =>
      var pc := Top(s.stacks[t]).pc;
      if InSearch(pc) {
        SearchKeepsCreated(s, t, spurious);
      } else if pc.Publish? {
        PublishKeepsCreated(s, t);
      } else if pc.Return? {
        ReturnKeepsCreated(s, t);
      } else {
        CheckKeepsCreated(s, t);
      }
  }

  // ---------------------------------------------------------------- every run

  lemma InitSound(s: State)
    requires Init(s)
    ensures Sound(s) && CreatedOnce(s)
  {
    forall b | 0 <= b < BUCKETS ensures LockMeans(s.buckets[b].lock, s.stacks, b) {
      NoHolders(s.stacks, b, Reading);
      NoHolders(s.stacks, b, Writing);
    }
  }

  lemma {:induction false} RunKeepsSound(s: State, steps: seq<Step>)
    requires Sound(s) && CreatedOnce(s) && IsRun(s, steps)
    ensures Sound(After(s, steps)) && CreatedOnce(After(s, steps))
    decreases |steps|
  {
    if steps != [] {
      StepKeepsSound(s, steps[0]);
      StepKeepsCreated(s, steps[0]);
      RunKeepsSound(Apply(s, steps[0]), steps[1..]);
    }
  }

  /** In every reachable state: a writer of a bucket is alone in it, and the unlock operations find the
      count they expect. */
  lemma LocksExclude(s0: State, steps: seq<Step>, t: nat, b: nat)
    requires Init(s0) && IsRun(s0, steps) && t < |After(s0, steps).stacks| && b < BUCKETS
    ensures var s := After(s0, steps);
            && |s.buckets| == BUCKETS
            && (Holds(s.stacks[t], b, Writing) ==>
                  s.buckets[b].lock == WRITE_LOCKED &&
                  forall u, m :: 0 <= u < |s.stacks| && u != t ==> !Holds(s.stacks[u], b, m))
            && (Holds(s.stacks[t], b, Reading) ==> s.buckets[b].lock > 0)
  {
    InitSound(s0);
    RunKeepsSound(s0, steps);
    var s := After(s0, steps);
    assert LockMeans(s.buckets[b].lock, s.stacks, b);
    if Holds(s.stacks[t], b, Writing) {
      HolderCounts(s.stacks, t, b, Writing);
      forall u, m | 0 <= u < |s.stacks| && u != t ensures !Holds(s.stacks[u], b, m) {
        OneWriter(s, t, u, b);
      }
    }
    if Holds(s.stacks[t], b, Reading) {
      HolderCounts(s.stacks, t, b, Reading);
    }
  }

  /** In every reachable state: a key has at most one descriptor, at most one instance is created for it,
      and only by the thread that inserted the descriptor. */
  lemma OneDescriptorOneCreation(s0: State, steps: seq<Step>)
    requires Init(s0) && IsRun(s0, steps)
    ensures var s := After(s0, steps);
            && (forall i, j :: 0 <= i < |s.descs| && 0 <= j < |s.descs| && s.descs[i].key == s.descs[j].key ==> i == j)
            && (forall id :: 0 <= id < |s.descs| ==> Creations(s.log, id) <= 1)
            && (forall e :: 0 <= e < |s.log| && s.log[e].Created? ==>
                  s.log[e].id < |s.descs| && s.descs[s.log[e].id].tid == s.log[e].thread)
  {
    InitSound(s0);
    RunKeepsSound(s0, steps);
    var s := After(s0, steps);
    forall id | 0 <= id < |s.descs| ensures Creations(s.log, id) <= 1 {
      assert DescCreated(s, id);
    }
    forall e | 0 <= e < |s.log| && s.log[e].Created?
      ensures s.log[e].id < |s.descs| && s.descs[s.log[e].id].tid == s.log[e].thread
    {
      assert Creator(s.descs, s.log[e]);
    }
  }

  // ---------------------------------------------------------------- guarded runs

  predicate Stands(s: State, u: nat, pc: Pc) {
    u < |s.stacks| && s.stacks[u] != [] && Top(s.stacks[u]).pc == pc
  }

  predicate Registers(pc: Pc) { pc.StoreInfo? || pc.SetInited? }

  /** AddTypeInfo is about to replace another instance, or to store one while another thread is about to store
      its own, or to set INITED while another thread, having stored its own, is about to set INITING. */
  predicate CutsIn(s: State, t: nat)
    requires Runnable(s, t) && Registers(Top(s.stacks[t]).pc)
  {
    var f := Top(s.stacks[t]);
    var found := s.descs[f.pc.id].typeInfo;
    || (f.pc.StoreInfo? && found.Some? && found.value != f.purpose.info)
    || (exists u :: 0 <= u < |s.stacks| && u != t && Stands(s, u, Prey(f.pc)))
  }

  /** Where the thread is whose creation a registering step can cut in on. */
  function Prey(pc: Pc): Pc
    requires Registers(pc)
  {
    if pc.StoreInfo? then Publish(pc.id) else MarkIniting(pc.id)
  }

  predicate GuardedStep(s: State, step: Step)
    requires Enabled(s, step)
  {
    step.Run? && Registers(Top(s.stacks[step.t]).pc) ==> !CutsIn(s, step.t)
  }

  predicate Guarded(s: State, steps: seq<Step>)
    requires IsRun(s, steps)
    decreases |steps|
  {
    steps == [] || (GuardedStep(s, steps[0]) && Guarded(Apply(s, steps[0]), steps[1..]))
  }

  ghost predicate StatusOk(d: Desc) {
    !d.status.NotCreated? ==> d.typeInfo.Some?
  }

  ghost predicate PcOk(ds: seq<Desc>, t: nat, pc: Pc) {
    match pc
    case Publish(id) => id < |ds| && ds[id].typeInfo.None?
    case MarkIniting(id) => id < |ds| && ds[id].typeInfo.Some? && ds[id].status.NotCreated?
    case Filling(id) => id < |ds| && !ds[id].status.NotCreated?
    case Return(id) => id < |ds| && (ds[id].status.Inited? || (ds[id].tid == t && !ds[id].status.NotCreated?))
    case SetInited(id) => id < |ds| && ds[id].typeInfo.Some?
    case _ => true
  }

  ghost predicate StackInOrder(ds: seq<Desc>, t: nat, st: seq<Frame>) {
    forall p :: 0 <= p < |st| ==> PcOk(ds, t, st[p].pc)
  }

  /** A return is of the descriptor's instance, and to another thread only once its status is INITED. */
  ghost predicate ReturnOk(ds: seq<Desc>, e: Event) {
    e.Returned? ==> e.id < |ds| && e.info.Some? && e.info == ds[e.id].typeInfo &&
                    (e.thread == ds[e.id].tid || e.status.Inited?)
  }

  ghost predicate Orderly(s: State) {
    && (forall id :: 0 <= id < |s.descs| ==> StatusOk(s.descs[id]))
    && (forall t :: 0 <= t < |s.stacks| ==> StackInOrder(s.descs, t, s.stacks[t]))
    && (forall e :: 0 <= e < |s.log| ==> ReturnOk(s.descs, s.log[e]))
  }

  /** How a descriptor may change: an instance once stored stays, and the status only advances. */
  ghost predicate Advances(d: Desc, d': Desc) {
    && d'.key == d.key && d'.tid == d.tid && StatusOk(d')
    && (d.typeInfo.Some? ==> d'.typeInfo == d.typeInfo)
    && (d.status.Inited? ==> d'.status.Inited?) && (d.status.Initing? ==> !d'.status.NotCreated?)
  }

  ghost predicate AllAdvance(ds: seq<Desc>, ds': seq<Desc>) {
    && |ds| <= |ds'| && (forall id :: 0 <= id < |ds| ==> Advances(ds[id], ds'[id]))
    && (forall id :: |ds| <= id < |ds'| ==> StatusOk(ds'[id]))
  }

  /** Frames that wait for nothing the step touches stay right. */
  lemma OrderStays(ds: seq<Desc>, ds': seq<Desc>, t: nat, st: seq<Frame>)
    requires StackInOrder(ds, t, st) && AllAdvance(ds, ds')
    requires forall p :: 0 <= p < |st| && (st[p].pc.Publish? || st[p].pc.MarkIniting?) ==>
             ds'[st[p].pc.id] == ds[st[p].pc.id]
    ensures StackInOrder(ds', t, st)
  {
    forall p | 0 <= p < |st| ensures PcOk(ds', t, st[p].pc) {
      assert PcOk(ds, t, st[p].pc);
    }
  }

  lemma OrderMoves(ds: seq<Desc>, ds': seq<Desc>, t: nat, st: seq<Frame>, st': seq<Frame>)
    requires StackInOrder(ds, t, st) && AllAdvance(ds, ds') && Positioned(st)
    requires st != [] && Moved(st, st') && (|st'| == |st| ==> PcOk(ds', t, Top(st').pc))
    ensures StackInOrder(ds', t, st')
  {
    var n := |st| - 1;
    assert StackInOrder(ds, t, st[..n]);
    OrderStays(ds, ds', t, st[..n]);
    if |st'| == |st| {
      forall p | 0 <= p < |st'| ensures PcOk(ds', t, st'[p].pc) {
        if p < n {
          assert st'[p] == st'[..n][p] == st[..n][p];
        }
      }
    }
  }

  ghost predicate LogGrows(ds: seq<Desc>, log: seq<Event>, log': seq<Event>) {
    log' == log || (|log'| == |log| + 1 && log'[..|log|] == log && ReturnOk(ds, log'[|log|]))
  }

  predicate SameDesc(ds: seq<Desc>, ds': seq<Desc>, id: nat) {
    id < |ds| && id < |ds'| && ds'[id] == ds[id]
  }

  /** The descriptors that other threads are about to create an instance for stay as they were. */
  ghost predicate Untouched(s: State, s': State, t: nat) {
    forall u, p {:trigger s.stacks[u][p]} ::
      0 <= u < |s.stacks| && u != t && 0 <= p < |s.stacks[u]| &&
      (s.stacks[u][p].pc.Publish? || s.stacks[u][p].pc.MarkIniting?) ==>
        SameDesc(s.descs, s'.descs, s.stacks[u][p].pc.id)
  }

  /** What thread t's step must show to keep the order. */
  lemma OrderlyStep(s: State, s': State, t: nat)
    requires Orderly(s) && AllAdvance(s.descs, s'.descs) && LogGrows(s'.descs, s.log, s'.log)
    requires t < |s.stacks| && |s'.stacks| == |s.stacks| && s'.stacks == s.stacks[t := s'.stacks[t]]
    requires StackInOrder(s'.descs, t, s'.stacks[t])
    requires Untouched(s, s', t)
    ensures Orderly(s')
  {
    forall u | 0 <= u < |s'.stacks| ensures StackInOrder(s'.descs, u, s'.stacks[u]) {
      if u != t {
        assert StackInOrder(s.descs, u, s.stacks[u]);
        OrderStays(s.descs, s'.descs, u, s.stacks[u]);
      }
    }
    forall e | 0 <= e < |s'.log| ensures ReturnOk(s'.descs, s'.log[e]) {
      if e < |s.log| {
        assert s'.log[e] == s'.log[..|s.log|][e] == s.log[e];
        assert ReturnOk(s.descs, s.log[e]);
      }
    }
    forall id | 0 <= id < |s'.descs| ensures StatusOk(s'.descs[id]) {
      if id < |s.descs| {
        assert Advances(s.descs[id], s'.descs[id]);
      }
    }
  }

  /** Only its inserting thread changes a descriptor. */
  ghost predicate ChangesOwn(ds: seq<Desc>, ds': seq<Desc>, t: nat) {
    |ds| <= |ds'| && forall id :: 0 <= id < |ds| && ds[id].tid != t ==> ds'[id] == ds[id]
  }

  lemma OthersUntouched(s: State, s': State, t: nat)
    requires Sound(s) && ChangesOwn(s.descs, s'.descs, t)
    ensures Untouched(s, s', t)
  {
    forall u, p {:trigger s.stacks[u][p]} | 0 <= u < |s.stacks| && u != t && 0 <= p < |s.stacks[u]|
        && (s.stacks[u][p].pc.Publish? || s.stacks[u][p].pc.MarkIniting?)
      ensures SameDesc(s.descs, s'.descs, s.stacks[u][p].pc.id)
    {
      assert StackOk(s.buckets, s.descs, u, s.stacks[u]);
      assert FrameOk(s.buckets, s.descs, u, s.stacks[u][p]);
    }
  }

  lemma SearchAdvances(s: State, t: nat, spurious: bool)
    requires Runnable(s, t) && InSearch(Top(s.stacks[t]).pc)
    requires forall id :: 0 <= id < |s.descs| ==> StatusOk(s.descs[id])
    ensures var s' := RunSearch(s, t, Top(s.stacks[t]), spurious);
            && AllAdvance(s.descs, s'.descs) && ChangesOwn(s.descs, s'.descs, t) && s'.log == s.log
            && (|s'.stacks[t]| == |s.stacks[t]| ==> PcOk(s'.descs, t, Top(s'.stacks[t]).pc))
  {
  }

  lemma SearchKeepsOrder(s: State, t: nat, spurious: bool)
    requires Sound(s) && Orderly(s) && Runnable(s, t) && InSearch(Top(s.stacks[t]).pc)
    ensures Orderly(RunSearch(s, t, Top(s.stacks[t]), spurious))
  {
    var s' := RunSearch(s, t, Top(s.stacks[t]), spurious);
    SearchMoves(s, t, spurious);
    SearchAdvances(s, t, spurious);
    assert Positioned(s.stacks[t]) by { assert StackOk(s.buckets, s.descs, t, s.stacks[t]); }
    assert StackInOrder(s.descs, t, s.stacks[t]);
    OrderMoves(s.descs, s'.descs, t, s.stacks[t], s'.stacks[t]);
    OthersUntouched(s, s', t);
    OrderlyStep(s, s', t);
  }

  lemma FoundAdvances(s: State, t: nat)
    requires Sound(s) && Orderly(s) && Runnable(s, t) && !InSearch(Top(s.stacks[t]).pc)
    requires GuardedStep(s, Run(t, false))
    ensures var s' := RunFound(s, t, Top(s.stacks[t]));
            && AllAdvance(s.descs, s'.descs) && LogGrows(s'.descs, s.log, s'.log)
            && (|s'.stacks[t]| == |s.stacks[t]| ==> PcOk(s'.descs, t, Top(s'.stacks[t]).pc))
  {
    var f := Top(s.stacks[t]);
    var id := f.pc.id;
    assert FrameOk(s.buckets, s.descs, t, f) by {
      assert StackOk(s.buckets, s.descs, t, s.stacks[t]);
    }
    assert PcOk(s.descs, t, f.pc) by {
      assert StackInOrder(s.descs, t, s.stacks[t]);
    }
    assert StatusOk(s.descs[id]);
    assert Advances(s.descs[id], RunFound(s, t, f).descs[id]);
  }

  lemma FoundUntouched(s: State, t: nat)
    requires Sound(s) && Orderly(s) && Runnable(s, t) && !InSearch(Top(s.stacks[t]).pc) && GuardedStep(s, Run(t, false))
    ensures Untouched(s, RunFound(s, t, Top(s.stacks[t])), t)
  {
    var f := Top(s.stacks[t]);
    var s' := RunFound(s, t, f);
    assert FrameOk(s.buckets, s.descs, t, f) by {
      assert StackOk(s.buckets, s.descs, t, s.stacks[t]);
    }
    forall u, p {:trigger s.stacks[u][p]} | 0 <= u < |s.stacks| && u != t && 0 <= p < |s.stacks[u]|
        && (s.stacks[u][p].pc.Publish? || s.stacks[u][p].pc.MarkIniting?)
      ensures SameDesc(s.descs, s'.descs, s.stacks[u][p].pc.id)
    {
      assert StackOk(s.buckets, s.descs, u, s.stacks[u]);
      assert FrameOk(s.buckets, s.descs, u, s.stacks[u][p]);
      assert p == |s.stacks[u]| - 1;
      assert PcOk(s.descs, u, s.stacks[u][p].pc) by {
        assert StackInOrder(s.descs, u, s.stacks[u]);
      }
      assert Registers(f.pc) ==> !Stands(s, u, Prey(f.pc));
    }
  }

  lemma FoundKeepsOrder(s: State, t: nat)
    requires Sound(s) && Orderly(s) && Runnable(s, t) && !InSearch(Top(s.stacks[t]).pc)
    requires GuardedStep(s, Run(t, false))
    ensures Orderly(RunFound(s, t, Top(s.stacks[t])))
  {
    var s' := RunFound(s, t, Top(s.stacks[t]));
    FoundMoves(s, t);
    FoundAdvances(s, t);
    assert Positioned(s.stacks[t]) by { assert StackOk(s.buckets, s.descs, t, s.stacks[t]); }
    assert StackInOrder(s.descs, t, s.stacks[t]);
    OrderMoves(s.descs, s'.descs, t, s.stacks[t], s'.stacks[t]);
    FoundUntouched(s, t);
    OrderlyStep(s, s', t);
  }

  lemma CallKeepsOrder(s: State, t: nat, key: Key, purpose: Purpose)
    requires Sound(s) && Orderly(s) && Enabled(s, Call(t, key, purpose))
    ensures Orderly(Apply(s, Call(t, key, purpose)))
  {
    var s' := Apply(s, Call(t, key, purpose));
    assert StackInOrder(s.descs, t, s.stacks[t]);
    OthersUntouched(s, s', t);
    OrderlyStep(s, s', t);
  }

  lemma StepKeepsOrder(s: State, step: Step)
    requires Sound(s) && Orderly(s) && Enabled(s, step) && GuardedStep(s, step)
    ensures Orderly(Apply(s, step))
  {
    match step
    case Call(t, key, purpose) => CallKeepsOrder(s, t, key, purpose);
    case Run(t, spurious) =>
      if InSearch(Top(s.stacks[t]).pc) {
        SearchKeepsOrder(s, t, spurious);
      } else {
        FoundKeepsOrder(s, t);
      }
  }

  lemma {:induction false} RunKeepsOrder(s: State, steps: seq<Step>)
    requires Sound(s) && CreatedOnce(s) && Orderly(s) && IsRun(s, steps) && Guarded(s, steps)
    ensures Sound(After(s, steps)) && Orderly(After(s, steps))
    decreases |steps|
  {
    if steps != [] {
      StepKeepsSound(s, steps[0]);
      StepKeepsCreated(s, steps[0]);
      StepKeepsOrder(s, steps[0]);
      RunKeepsOrder(Apply(s, steps[0]), steps[1..]);
    }
  }

  /** In every guarded run, all callers asking for one key are given the same instance, and a caller on
      another thread than the creating one is given it only when its status is INITED. */
  lemma OneInstancePerKey(s0: State, steps: seq<Step>, e: nat, f: nat)
    requires Init(s0) && IsRun(s0, steps) && Guarded(s0, steps)
    requires var s := After(s0, steps);
             e < |s.log| && f < |s.log| && s.log[e].Returned? && s.log[f].Returned?
    ensures var s := After(s0, steps);
            var x, y := s.log[e], s.log[f];
            && x.id < |s.descs| && y.id < |s.descs| && x.info.Some?
            && (s.descs[x.id].key == s.descs[y.id].key ==> x.info == y.info)
            && (x.thread != s.descs[x.id].tid ==> x.status == Inited)
  {
    InitSound(s0);
    RunKeepsOrder(s0, steps);
    var s := After(s0, steps);
    assert ReturnOk(s.descs, s.log[e]) && ReturnOk(s.descs, s.log[f]);
  }

  // ---------------------------------------------------------------- the guard is exact

  /** The next steps of the threads that stand there keep every descriptor advancing. */
  ghost predicate NextAdvance(s: State, pc: Pc) {
    forall u :: 0 <= u < |s.stacks| && Stands(s, u, pc) ==>
      Runnable(s, u) && AllAdvance(s.descs, Apply(s, Run(u, false)).descs)
  }

  /** AddTypeInfo's store or status store, and the next steps of those it meets in the middle of a creation,
      only advance descriptors if and only if it does not cut in. */
  lemma GuardIsExact(s: State, t: nat)
    requires Sound(s) && Orderly(s) && Runnable(s, t) && Registers(Top(s.stacks[t]).pc)
    requires Top(s.stacks[t]).pc.StoreInfo? ==> Top(s.stacks[t]).purpose.info != s.nextInfo
    ensures var s' := Apply(s, Run(t, false));
            !CutsIn(s, t) <==> AllAdvance(s.descs, s'.descs) && NextAdvance(s', Prey(Top(s.stacks[t]).pc))
  {
    var f := Top(s.stacks[t]);
    var s' := Apply(s, Run(t, false));
    RegisteringMoves(s, t, s');
    if !CutsIn(s, t) {
      FoundAdvances(s, t);
      StillNobody(s, s', t, Prey(f.pc));
    } else if AllAdvance(s.descs, s'.descs) {
      assert Advances(s.descs[f.pc.id], s'.descs[f.pc.id]);
      var u :| 0 <= u < |s.stacks| && u != t && Stands(s, u, Prey(f.pc));
      PreyFallsBack(s, t, u, s');
    }
  }

  /** A registering step leaves the other stacks alone and uncovers a creation at most. */
  lemma RegisteringMoves(s: State, t: nat, s': State)
    requires Sound(s) && Runnable(s, t) && Registers(Top(s.stacks[t]).pc) && s' == RunFound(s, t, Top(s.stacks[t]))
    ensures |s'.stacks| == |s.stacks| && forall u :: 0 <= u < |s.stacks| && u != t ==> s'.stacks[u] == s.stacks[u]
    ensures !Stands(s', t, Prey(Top(s.stacks[t]).pc))
  {
    assert Positioned(s.stacks[t]) by { assert StackOk(s.buckets, s.descs, t, s.stacks[t]); }
  }

  lemma StillNobody(s: State, s': State, t: nat, pc: Pc)
    requires |s'.stacks| == |s.stacks| && t < |s.stacks| && !Stands(s', t, pc)
    requires forall u :: 0 <= u < |s.stacks| && u != t ==> s'.stacks[u] == s.stacks[u] && !Stands(s, u, pc)
    ensures NextAdvance(s', pc)
  {
    forall u | 0 <= u < |s'.stacks| ensures !Stands(s', u, pc) {
    }
  }

  /** It overwrites the registered instance, or takes the status back from INITED. */
  lemma PreyFallsBack(s: State, t: nat, u: nat, s': State)
    requires Sound(s) && Orderly(s) && Runnable(s, t) && Registers(Top(s.stacks[t]).pc) && u < |s.stacks| && u != t
    requires s' == RunFound(s, t, Top(s.stacks[t])) && Stands(s, u, Prey(Top(s.stacks[t]).pc))
    requires Top(s.stacks[t]).pc.StoreInfo? ==> Top(s.stacks[t]).purpose.info != s.nextInfo
    ensures !NextAdvance(s', Prey(Top(s.stacks[t]).pc))
  {
    var f := Top(s.stacks[t]);
    RegisteringMoves(s, t, s');
    assert Stands(s', u, Prey(f.pc));
    PreyLoses(s', u, f.pc);
  }

  lemma PreyLoses(s: State, u: nat, pc: Pc)
    requires Registers(pc) && Stands(s, u, Prey(pc)) && Runnable(s, u) && pc.id < |s.descs|
    requires if pc.StoreInfo? then s.descs[pc.id].typeInfo.Some? && s.descs[pc.id].typeInfo.value != s.nextInfo
             else s.descs[pc.id].status.Inited?
    ensures !NextAdvance(s, Prey(pc))
  {
    var s' := Apply(s, Run(u, false));
    assert !Advances(s.descs[pc.id], s'.descs[pc.id]);
  }
}
