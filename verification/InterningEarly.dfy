/** When a thread is given an instance that its creator is still filling in: AddTypeInfo sets the status
    to INITED, and the creator calls it before the instance is complete. */
module InterningEarly {
  import opened Interning
  import opened InterningSafety
  import opened InterningTheorems
  import opened InterningCallers

  // ---------------------------------------------------------------- runs by their last step

  lemma {:induction false} LastStep(s: State, steps: seq<Step>)
    requires IsRun(s, steps) && steps != []
    ensures var n := |steps| - 1;
            && IsRun(s, steps[..n]) && Enabled(After(s, steps[..n]), steps[n])
            && After(s, steps) == Apply(After(s, steps[..n]), steps[n])
            && (Guarded(s, steps) <==> Guarded(s, steps[..n]) && GuardedStep(After(s, steps[..n]), steps[n]))
    decreases |steps|
  {
    if |steps| > 1 {
      LastStep(Apply(s, steps[0]), steps[1..]);
      assert steps[..|steps| - 1][1..] == steps[1..][..|steps| - 2];
    } else {
      assert steps[..0] == [] && steps[1..] == [];
    }
  }

  predicate Takes(s: State, step: Step, pc: Pc)
    requires Enabled(s, step)
  {
    step.Run? && Top(s.stacks[step.t]).pc == pc
  }

  /** Of the steps that mark descriptor id as being filled in or register an instance for it, the last
      registered one. */
  ghost predicate RegisteredSince(s0: State, steps: seq<Step>, id: nat)
    requires IsRun(s0, steps)
    decreases |steps|
  {
    steps != [] && (
      LastStep(s0, steps);
      var n := |steps| - 1;
      var s := After(s0, steps[..n]);
      || Takes(s, steps[n], SetInited(id))
      || (!Takes(s, steps[n], MarkIniting(id)) && RegisteredSince(s0, steps[..n], id)))
  }

  // ---------------------------------------------------------------- one creation fills in a descriptor

  predicate Fills(s: State, t: nat, p: nat, id: nat) {
    t < |s.stacks| && p < |s.stacks[t]| && s.stacks[t][p].pc == Filling(id)
  }

  ghost predicate FilledOnce(s: State) {
    forall t: nat, p: nat, q: nat, id: nat :: Fills(s, t, p, id) && Fills(s, t, q, id) ==> p == q
  }

  lemma MovedFills(s: State, s': State, v: nat, t: nat, p: nat, id: nat)
    requires v < |s.stacks| == |s'.stacks| && s.stacks[v] != [] && s'.stacks == s.stacks[v := s'.stacks[v]]
    requires Moved(s.stacks[v], s'.stacks[v]) && Fills(s', t, p, id)
    ensures Fills(s, t, p, id) || (t == v && p == |s.stacks[v]| - 1 && |s'.stacks[v]| == p + 1)
  {
    var n := |s.stacks[v]| - 1;
    if t == v && p < n {
      assert s'.stacks[v][p] == s'.stacks[v][..n][p] == s.stacks[v][p];
    }
  }

  lemma OnlyMarkingFills(s: State, t: nat, spurious: bool, id: nat)
    requires Runnable(s, t)
    requires var st := Apply(s, Run(t, spurious)).stacks[t]; |st| == |s.stacks[t]| && Top(st).pc == Filling(id)
    ensures Top(s.stacks[t]).pc == MarkIniting(id)
  {
  }

  /** A frame that fills in a descriptor did so before the step, or the step marked it. */
  lemma FillsBefore(s: State, step: Step, t: nat, p: nat, id: nat)
    requires Enabled(s, step) && Fills(Apply(s, step), t, p, id)
    ensures Fills(s, t, p, id) || (Takes(s, step, MarkIniting(id)) && t == step.t && p == |s.stacks[t]| - 1)
  {
    if step.Run? {
      var s' := Apply(s, step);
      RunMoves(s, step.t, step.spurious);
      MovedFills(s, s', step.t, t, p, id);
      if t == step.t && p == |s.stacks[t]| - 1 {
        OnlyMarkingFills(s, t, step.spurious, id);
      }
    }
  }

  lemma FillingIsKnown(s: State, t: nat, p: nat, id: nat)
    requires Sound(s) && Orderly(s) && Fills(s, t, p, id)
    ensures id < |s.descs| && s.descs[id].tid == t && !s.descs[id].status.NotCreated?
  {
    assert StackOk(s.buckets, s.descs, t, s.stacks[t]);
    assert FrameOk(s.buckets, s.descs, t, s.stacks[t][p]);
    assert StackInOrder(s.descs, t, s.stacks[t]);
    assert PcOk(s.descs, t, s.stacks[t][p].pc);
  }

  lemma MarkedOnce(s: State, step: Step, t: nat, p: nat, id: nat)
    requires Sound(s) && Orderly(s) && Enabled(s, step) && Takes(s, step, MarkIniting(id))
    ensures !Fills(s, t, p, id)
  {
    assert StackInOrder(s.descs, step.t, s.stacks[step.t]);
    assert PcOk(s.descs, step.t, Top(s.stacks[step.t]).pc);
    if Fills(s, t, p, id) {
      FillingIsKnown(s, t, p, id);
    }
  }

  lemma StepKeepsFilledOnce(s: State, step: Step)
    requires Sound(s) && Orderly(s) && Enabled(s, step) && FilledOnce(s)
    ensures FilledOnce(Apply(s, step))
  {
    var s' := Apply(s, step);
    forall t: nat, p: nat, q: nat, id: nat | Fills(s', t, p, id) && Fills(s', t, q, id) ensures p == q {
      FillsBefore(s, step, t, p, id);
      FillsBefore(s, step, t, q, id);
      if Takes(s, step, MarkIniting(id)) {
        MarkedOnce(s, step, t, p, id);
        MarkedOnce(s, step, t, q, id);
      }
    }
  }

  // ---------------------------------------------------------------- what INITED means while filling in

  lemma FillingEnds(s: State, step: Step, t: nat, p: nat, id: nat)
    requires Sound(s) && Orderly(s) && FilledOnce(s) && Enabled(s, step) && Fills(s, t, p, id)
    requires Takes(s, step, Filling(id))
    ensures !Fills(Apply(s, step), t, p, id)
  {
    var q := |s.stacks[step.t]| - 1;
    assert Fills(s, step.t, q, id);
    FillingIsKnown(s, step.t, q, id);
    FillingIsKnown(s, t, p, id);
    var s' := RunFound(s, step.t, Top(s.stacks[step.t]));
    assert s'.stacks[t][p].pc == CheckIniting(id);
  }

  lemma StatusSetters(s: State, step: Step, id: nat)
    requires Enabled(s, step) && id < |s.descs|
    requires !Takes(s, step, SetInited(id)) && !Takes(s, step, MarkIniting(id)) && !Takes(s, step, Filling(id))
    ensures |s.descs| <= |Apply(s, step).descs| && Apply(s, step).descs[id].status == s.descs[id].status
  {
  }

  /** Other steps leave the status of a descriptor alone while it is filled in. */
  lemma StatusStays(s: State, step: Step, t: nat, p: nat, id: nat)
    requires Sound(s) && Orderly(s) && FilledOnce(s) && Enabled(s, step) && Fills(s, t, p, id)
    requires Fills(Apply(s, step), t, p, id) && !Takes(s, step, SetInited(id)) && !Takes(s, step, MarkIniting(id))
    ensures id < |s.descs| <= |Apply(s, step).descs| && Apply(s, step).descs[id].status == s.descs[id].status
  {
    FillingIsKnown(s, t, p, id);
    if Takes(s, step, Filling(id)) {
      FillingEnds(s, step, t, p, id);
    } else {
      StatusSetters(s, step, id);
    }
  }

  /** While an instance is being filled in, its status is INITED if and only if AddTypeInfo registered an
      instance for its key since the creator marked it. */
  lemma {:induction false} InitedIffRegistered(s0: State, steps: seq<Step>)
    requires Init(s0) && IsRun(s0, steps) && Guarded(s0, steps)
    ensures var s := After(s0, steps);
            && Sound(s) && CreatedOnce(s) && Orderly(s) && FilledOnce(s)
            && (forall t: nat, p: nat, id: nat :: Fills(s, t, p, id) ==>
                  id < |s.descs| && (s.descs[id].status.Inited? <==> RegisteredSince(s0, steps, id)))
    decreases |steps|
  {
    if steps == [] {
      InitSound(s0);
    } else {
      LastStep(s0, steps);
      var n := |steps| - 1;
      InitedIffRegistered(s0, steps[..n]);
      var s, step := After(s0, steps[..n]), steps[n];
      StepKeepsSound(s, step);
      StepKeepsCreated(s, step);
      StepKeepsOrder(s, step);
      StepKeepsFilledOnce(s, step);
      forall t: nat, p: nat, id: nat | Fills(Apply(s, step), t, p, id)
        ensures id < |Apply(s, step).descs| &&
                (Apply(s, step).descs[id].status.Inited? <==> RegisteredSince(s0, steps, id))
      {
        FillsBefore(s, step, t, p, id);
        if Takes(s, step, MarkIniting(id)) || Takes(s, step, SetInited(id)) {
          StatusSet(s, step, id);
        } else {
          StatusStays(s, step, t, p, id);
        }
      }
    }
  }

  lemma StatusSet(s: State, step: Step, id: nat)
    requires Enabled(s, step) && (Takes(s, step, MarkIniting(id)) || Takes(s, step, SetInited(id)))
    ensures id < |Apply(s, step).descs|
    ensures Apply(s, step).descs[id].status == if Takes(s, step, SetInited(id)) then Inited else Initing
  {
  }

  /** In every guarded run: a thread is given an instance that another one is still filling in only if
      AddTypeInfo registered one for its key since the creator marked it. */
  lemma GivenEarlyOnlyIfRegistered(s0: State, steps: seq<Step>, u: nat, t: nat, p: nat, id: nat)
    requires Init(s0) && IsRun(s0, steps) && Guarded(s0, steps)
    requires var s := After(s0, steps);
             Fills(s, t, p, id) && u != t && Enabled(s, Run(u, false)) && Takes(s, Run(u, false), Return(id))
    ensures RegisteredSince(s0, steps, id)
  {
    InitedIffRegistered(s0, steps);
    var s := After(s0, steps);
    FillingIsKnown(s, t, p, id);
    assert StackInOrder(s.descs, u, s.stacks[u]);
    assert PcOk(s.descs, u, Top(s.stacks[u]).pc);
  }
}
