/** A cut-in on a thread that is about to store its instance splits the key: from any state in which AddTypeInfo
    is about to store another one, both are returned in some run. */
module InterningSplit {
  import opened Interning
  import opened InterningSafety
  import opened InterningTheorems
  import opened InterningGiven

  /** Some run leads from s to s', guarded or not. */
  ghost predicate Reaches(s: State, s': State) {
    exists steps :: IsRun(s, steps) && After(s, steps) == s'
  }

  lemma {:induction false} RunJoins(s: State, a: seq<Step>, b: seq<Step>)
    requires IsRun(s, a) && IsRun(After(s, a), b)
    ensures IsRun(s, a + b) && After(s, a + b) == After(After(s, a), b)
    decreases |a|
  {
    if a == [] {
      assert a + b == b;
    } else {
      assert (a + b)[1..] == a[1..] + b;
      RunJoins(Apply(s, a[0]), a[1..], b);
    }
  }

  lemma ReachesOn(s: State, mid: State, s': State)
    requires Reaches(s, mid) && Reaches(mid, s')
    ensures Reaches(s, s')
  {
    var a :| IsRun(s, a) && After(s, a) == mid;
    var b :| IsRun(mid, b) && After(mid, b) == s';
    RunJoins(s, a, b);
  }

  lemma OneStep(s: State, step: Step)
    requires Enabled(s, step)
    ensures Reaches(s, Apply(s, step))
  {
    var none: seq<Step>, next := [], Apply(s, step);
    assert IsRun(next, none) && After(next, none) == next;
    var run := [step] + none;
    assert run[1..] == none && IsRun(s, run) && After(s, run) == After(next, none);
  }

  /** s with thread u's top frame at pc. */
  lemma StepGoes(s: State, u: nat, pc: Pc, s': State)
    requires Stands(s, u, pc) && !InSearch(pc) && Runnable(s, u) && s' == RunFound(s, u, Top(s.stacks[u]))
    ensures Reaches(s, s')
  {
    OneStep(s, Run(u, false));
  }

  // ---------------------------------------------------------------- the registering thread is given its own

  lemma Overwrites(s: State, t: nat, s': State)
    requires Runnable(s, t) && Top(s.stacks[t]).pc.StoreInfo? && s' == RunFound(s, t, Top(s.stacks[t]))
    ensures var f := Top(s.stacks[t]);
            && Stands(s', t, SetInited(f.pc.id)) && Runnable(s', t) && s'.log == s.log && s'.nextInfo == s.nextInfo
            && s'.descs == s.descs[f.pc.id := s.descs[f.pc.id].(typeInfo := Some(f.purpose.info))]
            && |s'.stacks| == |s.stacks| && forall u :: 0 <= u < |s.stacks| && u != t ==> s'.stacks[u] == s.stacks[u]
  {
  }

  lemma Sets(s: State, t: nat, id: nat, s': State)
    requires Stands(s, t, SetInited(id)) && Runnable(s, t) && s' == RunFound(s, t, Top(s.stacks[t])) &&
             Positioned(s.stacks[t])
    ensures s'.log == s.log && s'.nextInfo == s.nextInfo && s'.descs == s.descs[id := s.descs[id].(status := Inited)]
    ensures |s'.stacks| == |s.stacks| && forall u :: 0 <= u < |s.stacks| && u != t ==> s'.stacks[u] == s.stacks[u]
    ensures s'.stacks[t] == [] || Top(s'.stacks[t]).pc.Filling?
  {
  }

  /** AddTypeInfo stores its instance and sets INITED. */
  lemma Registered(s: State, t: nat) returns (s': State)
    requires Sound(s) && Runnable(s, t) && Top(s.stacks[t]).pc.StoreInfo?
    ensures Reaches(s, s') && Sound(s') && s'.nextInfo == s.nextInfo && s'.log == s.log
    ensures |s'.stacks| == |s.stacks| && forall u :: 0 <= u < |s.stacks| && u != t ==> s'.stacks[u] == s.stacks[u]
    ensures var f := Top(s.stacks[t]);
            s'.descs == s.descs[f.pc.id := s.descs[f.pc.id].(typeInfo := Some(f.purpose.info), status := Inited)]
    ensures s'.stacks[t] == [] || Top(s'.stacks[t]).pc.Filling?
  {
    var f := Top(s.stacks[t]);
    var mid := StepsSoundly(s, t);
    Overwrites(s, t, mid);
    s' := StepsSoundly(mid, t);
    Sets(mid, t, f.pc.id, s');
    ReachesOn(s, mid, s');
  }

  lemma StepsSoundly(s: State, t: nat) returns (s': State)
    requires Sound(s) && Runnable(s, t) && !InSearch(Top(s.stacks[t]).pc)
    ensures s' == RunFound(s, t, Top(s.stacks[t])) && Reaches(s, s') && Sound(s')
    ensures Positioned(s.stacks[t])
  {
    s' := Apply(s, Run(t, false));
    OneStep(s, Run(t, false));
    StepKeepsSound(s, Run(t, false));
    assert StackOk(s.buckets, s.descs, t, s.stacks[t]);
  }

  // ---------------------------------------------------------------- the inserting thread is given its own

  /** The inserting thread stores its instance and marks it. */
  lemma Stored(s: State, u: nat, id: nat) returns (s': State)
    requires Stands(s, u, Publish(id)) && Runnable(s, u)
    ensures Reaches(s, s') && Stands(s', u, Filling(id)) && Runnable(s', u) && s'.log == s.log + [Created(id, u)]
    ensures s'.descs[id].typeInfo == Some(s.nextInfo)
  {
    var s1 := RunFound(s, u, Top(s.stacks[u]));
    StepGoes(s, u, Publish(id), s1);
    assert Stands(s1, u, MarkIniting(id)) && s1.descs[id].typeInfo == Some(s.nextInfo);
    s' := RunFound(s1, u, Top(s1.stacks[u]));
    StepGoes(s1, u, MarkIniting(id), s');
    ReachesOn(s, s1, s');
  }

  /** It completes it and leaves the first test behind. */
  lemma Completed(s: State, u: nat, id: nat) returns (s': State)
    requires Stands(s, u, Filling(id)) && Runnable(s, u)
    ensures Reaches(s, s') && Stands(s', u, CheckInited(id)) && Runnable(s', u) && s'.log == s.log
    ensures s'.descs[id].typeInfo == s.descs[id].typeInfo && s'.descs[id].status.Inited?
  {
    var s1 := RunFound(s, u, Top(s.stacks[u]));
    StepGoes(s, u, Filling(id), s1);
    assert Stands(s1, u, CheckIniting(id)) && s1.descs[id].status.Inited?;
    s' := RunFound(s1, u, Top(s1.stacks[u]));
    StepGoes(s1, u, CheckIniting(id), s');
    ReachesOn(s, s1, s');
  }

  /** It is given it. */
  lemma Returns(s: State, u: nat, id: nat) returns (s': State)
    requires Stands(s, u, CheckInited(id)) && Runnable(s, u) && s.descs[id].status.Inited?
    ensures Reaches(s, s') && s'.log == s.log + [Returned(id, u, s.descs[id].typeInfo, Inited)]
  {
    var s1 := RunFound(s, u, Top(s.stacks[u]));
    StepGoes(s, u, CheckInited(id), s1);
    assert Stands(s1, u, Return(id)) && s1.descs == s.descs;
    s' := RunFound(s1, u, Top(s1.stacks[u]));
    StepGoes(s1, u, Return(id), s');
    ReachesOn(s, s1, s');
  }

  lemma InserterIsGiven(s: State, u: nat, id: nat) returns (s': State)
    requires Stands(s, u, Publish(id)) && Runnable(s, u)
    ensures Reaches(s, s')
    ensures s'.log == s.log + [Created(id, u)] + [Returned(id, u, Some(s.nextInfo), Inited)]
  {
    var s1 := Stored(s, u, id);
    var s2 := Completed(s1, u, id);
    s' := Returns(s2, u, id);
    ReachesOn(s, s1, s2);
    ReachesOn(s, s2, s');
  }

  // ---------------------------------------------------------------- the key is split

  /** In any state in which AddTypeInfo is about to store an instance while thread u is about to store its own:
      some run gives the registering thread the one and u the other, for one key. */
  lemma CutInSplitsKey(s: State, t: nat, u: nat) returns (s': State)
    requires Sound(s) && Runnable(s, t) && Top(s.stacks[t]).pc.StoreInfo? && u != t
    requires Stands(s, u, Publish(Top(s.stacks[t]).pc.id)) && Top(s.stacks[t]).purpose.info != s.nextInfo
    ensures var f := Top(s.stacks[t]);
            && Reaches(s, s')
            && Returned(f.pc.id, t, Some(f.purpose.info), Inited) in s'.log
            && Returned(f.pc.id, u, Some(s.nextInfo), Inited) in s'.log
  {
    var f := Top(s.stacks[t]);
    var id := f.pc.id;
    assert s.descs[id].tid == u by {
      assert StackOk(s.buckets, s.descs, u, s.stacks[u]);
      assert FrameOk(s.buckets, s.descs, u, Top(s.stacks[u]));
    }
    var s1 := Registered(s, t);
    var steps, s2 := CanBeGiven(s1, t, id);
    LeadsReaches(s1, steps, s2);
    assert Stands(s2, u, Publish(id)) && Runnable(s2, u);
    s' := InserterIsGiven(s2, u, id);
    ReachesOn(s, s1, s2);
    ReachesOn(s, s2, s');
    BothLogged(s1.log, Returned(id, t, Some(f.purpose.info), Inited), s2.log, Created(id, u),
               Returned(id, u, Some(s.nextInfo), Inited), s'.log);
  }

  lemma LeadsReaches(s: State, steps: seq<Step>, s': State)
    requires Leads(s, steps, s')
    ensures Reaches(s, s')
  {
  }

  lemma BothLogged(a: seq<Event>, x: Event, b: seq<Event>, y: Event, z: Event, c: seq<Event>)
    requires b == a + [x] && c == b + [y] + [z]
    ensures x in c && z in c
  {
    assert c[|a|] == x && c[|b| + 1] == z;
  }
}
