/** Callers that keep a run guarded: those that register an instance only from within its creation. */
module InterningCallers {
  import opened Interning
  import opened InterningSafety
  import opened InterningTheorems

  /** The frame is creating the instance `info` for key k. */
  predicate FillsInfo(ds: seq<Desc>, f: Frame, k: Key, info: nat) {
    f.pc.Filling? && f.key == k && f.pc.id < |ds| && ds[f.pc.id].key == k && ds[f.pc.id].typeInfo == Some(info)
  }

  /** AddTypeInfo is called for an instance only from within that instance's own creation. */
  predicate OwnStep(s: State, step: Step) {
    step.Call? && step.purpose.Register? ==>
      step.t < |s.stacks| && s.stacks[step.t] != [] &&
      FillsInfo(s.descs, Top(s.stacks[step.t]), step.key, step.purpose.info)
  }

  predicate OwnRun(s: State, steps: seq<Step>)
    requires IsRun(s, steps)
    decreases |steps|
  {
    steps == [] || (OwnStep(s, steps[0]) && OwnRun(Apply(s, steps[0]), steps[1..]))
  }

  /** Every AddTypeInfo in progress is called from the creation of its instance. */
  ghost predicate StackOwn(ds: seq<Desc>, st: seq<Frame>) {
    forall p :: 0 <= p < |st| && st[p].purpose.Register? ==>
      p > 0 && FillsInfo(ds, st[p - 1], st[p].key, st[p].purpose.info)
  }

  ghost predicate AllOwn(s: State) {
    forall t :: 0 <= t < |s.stacks| ==> StackOwn(s.descs, s.stacks[t])
  }

  lemma OwnStays(ds: seq<Desc>, ds': seq<Desc>, st: seq<Frame>)
    requires StackOwn(ds, st) && AllAdvance(ds, ds')
    ensures StackOwn(ds', st)
  {
    forall p | 0 <= p < |st| && st[p].purpose.Register?
      ensures p > 0 && FillsInfo(ds', st[p - 1], st[p].key, st[p].purpose.info)
    {
      assert FillsInfo(ds, st[p - 1], st[p].key, st[p].purpose.info);
      assert Advances(ds[st[p - 1].pc.id], ds'[st[p - 1].pc.id]);
    }
  }

  lemma OwnMoves(ds: seq<Desc>, st: seq<Frame>, st': seq<Frame>)
    requires StackOwn(ds, st) && st != [] && Moved(st, st')
    ensures StackOwn(ds, st')
  {
    var n := |st| - 1;
    forall p | 0 <= p < |st'| && st'[p].purpose.Register?
      ensures p > 0 && FillsInfo(ds, st'[p - 1], st'[p].key, st'[p].purpose.info)
    {
      assert p < n ==> st'[p] == st'[..n][p] == st[p];
      assert p > 0 && FillsInfo(ds, st[p - 1], st[p].key, st[p].purpose.info);
      assert st'[p - 1] == st'[..n][p - 1] == st[p - 1];
    }
  }

  lemma OwnPushed(ds: seq<Desc>, st: seq<Frame>, f: Frame)
    requires StackOwn(ds, st)
    requires f.purpose.Register? ==> st != [] && FillsInfo(ds, Top(st), f.key, f.purpose.info)
    ensures StackOwn(ds, st + [f])
  {
    var st' := st + [f];
    forall p | 0 <= p < |st'| && st'[p].purpose.Register?
      ensures p > 0 && FillsInfo(ds, st'[p - 1], st'[p].key, st'[p].purpose.info)
    {
      if p < |st| {
        assert FillsInfo(ds, st[p - 1], st[p].key, st[p].purpose.info);
      }
    }
  }

  /** The descriptor AddTypeInfo finds within a creation is the one being created. */
  lemma RegistersItself(s: State, t: nat)
    requires Sound(s) && AllOwn(s) && Runnable(s, t) && Registers(Top(s.stacks[t]).pc)
    ensures var f := Top(s.stacks[t]);
            var d := s.descs[f.pc.id];
            d.tid == t && d.typeInfo == Some(f.purpose.info)
  {
    var st := s.stacks[t];
    var n := |st| - 1;
    assert StackOk(s.buckets, s.descs, t, st);
    assert FrameOk(s.buckets, s.descs, t, st[n]);
    assert StackOwn(s.descs, st);
    assert n > 0 && FillsInfo(s.descs, st[n - 1], st[n].key, st[n].purpose.info);
    assert FrameOk(s.buckets, s.descs, t, st[n - 1]);
    assert st[n].pc.id == st[n - 1].pc.id;
  }

  lemma StorerInserted(s: State, u: nat, pc: Pc)
    requires Sound(s) && Stands(s, u, pc) && (pc.Publish? || pc.MarkIniting?)
    ensures pc.id < |s.descs| && s.descs[pc.id].tid == u
  {
    assert StackOk(s.buckets, s.descs, u, s.stacks[u]);
    assert FrameOk(s.buckets, s.descs, u, Top(s.stacks[u]));
  }

  lemma OwnIsGuarded(s: State, step: Step)
    requires Sound(s) && AllOwn(s) && Enabled(s, step)
    ensures GuardedStep(s, step)
  {
    if step.Run? && Registers(Top(s.stacks[step.t]).pc) {
      var pc := Top(s.stacks[step.t]).pc;
      RegistersItself(s, step.t);
      forall u | 0 <= u < |s.stacks| && u != step.t ensures !Stands(s, u, Prey(pc)) {
        if Stands(s, u, Prey(pc)) {
          StorerInserted(s, u, Prey(pc));
        }
      }
    }
  }

  lemma RunAdvances(s: State, t: nat, spurious: bool)
    requires Sound(s) && Orderly(s) && Runnable(s, t) && GuardedStep(s, Run(t, spurious))
    ensures AllAdvance(s.descs, Apply(s, Run(t, spurious)).descs)
  {
    if InSearch(Top(s.stacks[t]).pc) {
      SearchAdvances(s, t, spurious);
    } else {
      FoundAdvances(s, t);
    }
  }

  lemma RunMoves(s: State, t: nat, spurious: bool)
    requires Runnable(s, t)
    ensures var s' := Apply(s, Run(t, spurious));
            |s'.stacks| == |s.stacks| && s'.stacks == s.stacks[t := s'.stacks[t]] && Moved(s.stacks[t], s'.stacks[t])
  {
    if InSearch(Top(s.stacks[t]).pc) {
      SearchMoves(s, t, spurious);
    } else {
      FoundMoves(s, t);
    }
  }

  lemma RunKeepsAllOwn(s: State, t: nat, spurious: bool)
    requires Sound(s) && Orderly(s) && AllOwn(s) && Runnable(s, t)
    ensures AllOwn(Apply(s, Run(t, spurious)))
  {
    var s' := Apply(s, Run(t, spurious));
    OwnIsGuarded(s, Run(t, spurious));
    RunAdvances(s, t, spurious);
    RunMoves(s, t, spurious);
    forall u | 0 <= u < |s'.stacks| ensures StackOwn(s'.descs, s'.stacks[u]) {
      assert StackOwn(s.descs, s.stacks[u]);
      if u == t {
        OwnMoves(s.descs, s.stacks[t], s'.stacks[t]);
      }
      OwnStays(s.descs, s'.descs, s'.stacks[u]);
    }
  }

  lemma StepKeepsOwn(s: State, step: Step)
    requires Sound(s) && Orderly(s) && AllOwn(s) && Enabled(s, step) && OwnStep(s, step)
    ensures AllOwn(Apply(s, step))
  {
    match step
    case Call(t, key, purpose) =>
      assert StackOwn(s.descs, s.stacks[t]);
      OwnPushed(s.descs, s.stacks[t], Frame(key, purpose, LockRead));
    case Run(t, spurious) => RunKeepsAllOwn(s, t, spurious);
  }

  lemma {:induction false} OwnFrom(s: State, steps: seq<Step>)
    requires Sound(s) && Orderly(s) && AllOwn(s) && IsRun(s, steps) && OwnRun(s, steps)
    ensures Guarded(s, steps)
    decreases |steps|
  {
    if steps != [] {
      OwnIsGuarded(s, steps[0]);
      StepKeepsSound(s, steps[0]);
      StepKeepsOrder(s, steps[0]);
      StepKeepsOwn(s, steps[0]);
      OwnFrom(Apply(s, steps[0]), steps[1..]);
    }
  }

  /** Runs in which AddTypeInfo is called only from within the creation of its instance are guarded. */
  lemma OwnRunsAreGuarded(s0: State, steps: seq<Step>)
    requires Init(s0) && IsRun(s0, steps) && OwnRun(s0, steps)
    ensures Guarded(s0, steps)
  {
    InitSound(s0);
    OwnFrom(s0, steps);
  }
}
