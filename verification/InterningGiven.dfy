/** From any state in which an instance has the status INITED, whoever asks for its key can be given it,
    even if its creator and everybody else stand still in the middle of filling instances in. */
module InterningGiven {
  import opened Interning
  import opened InterningSafety
  import opened InterningTheorems
  import opened InterningEarly

  // ---------------------------------------------------------------- runs put together

  ghost predicate Leads(s: State, steps: seq<Step>, s': State) {
    IsRun(s, steps) && Guarded(s, steps) && After(s, steps) == s'
  }

  lemma First(s: State, step: Step, steps: seq<Step>, s': State)
    requires Enabled(s, step) && GuardedStep(s, step) && Leads(Apply(s, step), steps, s')
    ensures Leads(s, [step] + steps, s')
  {
    assert ([step] + steps)[1..] == steps;
  }

  lemma {:induction false} Joined(s: State, a: seq<Step>, mid: State, b: seq<Step>, s': State)
    requires Leads(s, a, mid) && Leads(mid, b, s')
    ensures Leads(s, a + b, s')
    decreases |a|
  {
    if a == [] {
      assert a + b == b;
    } else {
      assert (a + b)[1..] == a[1..] + b;
      Joined(Apply(s, a[0]), a[1..], mid, b, s');
    }
  }

  // ---------------------------------------------------------------- the writer leaves

  /** Only thread v's top frame moved, no descriptor changed and nothing was given. */
  ghost predicate Calm(s: State, s': State, v: nat) {
    && v < |s.stacks| == |s'.stacks| && s'.stacks == s.stacks[v := s'.stacks[v]]
    && |s'.stacks[v]| == |s.stacks[v]| > 0 && s'.stacks[v][..|s.stacks[v]| - 1] == s.stacks[v][..|s.stacks[v]| - 1]
    && s.descs <= s'.descs && s'.log == s.log && s'.nextInfo == s.nextInfo
  }

  lemma CalmOn(s: State, s': State, s'': State, v: nat)
    requires Calm(s, s', v) && Calm(s', s'', v)
    ensures Calm(s, s'', v)
  {
  }

  function Left(s: State, v: nat): nat
    requires |s.buckets| == BUCKETS && v < |s.stacks| && s.stacks[v] != []
  {
    var f := Top(s.stacks[v]);
    match f.pc
    case WriteScan(i) => 3 + (if i < |Vec(s.buckets, f.key)| then |Vec(s.buckets, f.key)| - i else 0)
    case Insert => 2
    case _ => 1
  }

  /** Thread v writes in bucket b. */
  ghost predicate Writes(s: State, v: nat, b: nat) {
    Sound(s) && v < |s.stacks| && b < BUCKETS && Holds(s.stacks[v], b, Writing)
  }

  lemma WriterMoves(s: State, v: nat, b: nat, s': State)
    requires Writes(s, v, b) && Runnable(s, v) && s' == RunSearch(s, v, Top(s.stacks[v]), false)
    ensures Calm(s, s', v)
    ensures s'.buckets[b].lock != WRITE_LOCKED || (Holds(s'.stacks[v], b, Writing) && Left(s', v) < Left(s, v))
  {
    SearchMoves(s, v, false);
  }

  lemma WriterRuns(s: State, v: nat, b: nat) returns (s': State)
    requires Writes(s, v, b)
    ensures Leads(s, [Run(v, false)], s') && Sound(s') && Calm(s, s', v)
    ensures s'.buckets[b].lock != WRITE_LOCKED || (Writes(s', v, b) && Left(s', v) < Left(s, v))
  {
    s' := Apply(s, Run(v, false));
    StepKeepsSound(s, Run(v, false));
    WriterMoves(s, v, b, s');
    First(s, Run(v, false), [], s');
    assert [Run(v, false)] + [] == [Run(v, false)];
  }

  lemma {:induction false} WriterLeaves(s: State, v: nat, b: nat) returns (steps: seq<Step>, s': State)
    requires Writes(s, v, b)
    ensures Leads(s, steps, s') && Sound(s') && s'.buckets[b].lock != WRITE_LOCKED && Calm(s, s', v)
    decreases Left(s, v)
  {
    var s1 := WriterRuns(s, v, b);
    if s1.buckets[b].lock != WRITE_LOCKED {
      steps, s' := [Run(v, false)], s1;
    } else {
      steps, s' := WriterLeaves(s1, v, b);
      Joined(s, [Run(v, false)], s1, steps, s');
      CalmOn(s, s1, s', v);
      steps := [Run(v, false)] + steps;
    }
  }

  lemma {:induction false} SomeHolder(stacks: seq<seq<Frame>>, b: nat, m: Mode) returns (v: nat)
    requires Holders(stacks, b, m) > 0
    ensures v < |stacks| && Holds(stacks[v], b, m)
  {
    if Holds(stacks[0], b, m) {
      v := 0;
    } else {
      v := SomeHolder(stacks[1..], b, m);
      v := v + 1;
    }
  }

  // ---------------------------------------------------------------- the asker

  /** s with a request of thread u for k in progress. */
  function Asking(s: State, u: nat, k: Key, pc: Pc): State
    requires u < |s.stacks|
  {
    s.(stacks := s.stacks[u := s.stacks[u] + [Frame(k, GetOrCreate, pc)]])
  }

  lemma AskingGoes(s: State, u: nat, k: Key, pc: Pc, pc': Pc)
    requires u < |s.stacks|
    ensures Goto(Asking(s, u, k, pc), u, pc') == Asking(s, u, k, pc')
    ensures Pop(Asking(s, u, k, pc), u) == s
  {
    var st := s.stacks[u];
    assert (st + [Frame(k, GetOrCreate, pc)])[|st| := Frame(k, GetOrCreate, pc')] == st + [Frame(k, GetOrCreate, pc')];
    assert (st + [Frame(k, GetOrCreate, pc)])[..|st|] == st;
    assert s.stacks[u := st] == s.stacks;
  }

  /** The state in which one more reader is in k's bucket. */
  function Read(s: State, k: Key): State
    requires |s.buckets| == BUCKETS
  {
    SetLock(s, BucketOf(k), s.buckets[BucketOf(k)].lock + 1)
  }

  /** Being asked for k, the state s has an INITED descriptor id for it, of another thread. */
  ghost predicate Ready(s: State, u: nat, k: Key, id: nat) {
    && u < |s.stacks| && Table(s.buckets, s.descs) && Known(s.descs, id, k)
    && s.descs[id].status.Inited? && s.descs[id].typeInfo.Some? && s.descs[id].tid != u
  }

  lemma Enters(s: State, u: nat, k: Key, id: nat) returns (steps: seq<Step>)
    requires Ready(s, u, k, id) && Enabled(s, Call(u, k, GetOrCreate)) && s.buckets[BucketOf(k)].lock != WRITE_LOCKED
    ensures Leads(s, steps, Asking(Read(s, k), u, k, ReadScan(0)))
  {
    var lock := s.buckets[BucketOf(k)].lock;
    var s1, s2, s3 := Asking(s, u, k, LockRead), Asking(s, u, k, ReadCas(lock)), Asking(Read(s, k), u, k, ReadScan(0));
    assert Apply(s, Call(u, k, GetOrCreate)) == s1;
    AskingGoes(s, u, k, LockRead, ReadCas(lock));
    assert Apply(s1, Run(u, false)) == s2;
    AskingGoes(Read(s, k), u, k, ReadCas(lock), ReadScan(0));
    assert Apply(s2, Run(u, false)) == s3;
    First(s2, Run(u, false), [], s3);
    First(s1, Run(u, false), [Run(u, false)], s3);
    First(s, Call(u, k, GetOrCreate), [Run(u, false)] + [Run(u, false)], s3);
    steps := [Call(u, k, GetOrCreate)] + ([Run(u, false)] + [Run(u, false)]);
  }

  lemma {:induction false} Scans(s: State, u: nat, k: Key, id: nat, i: nat) returns (steps: seq<Step>)
    requires Ready(s, u, k, id) && exists j :: i <= j < |Vec(s.buckets, k)| && Vec(s.buckets, k)[j] == id
    ensures Leads(Asking(s, u, k, ReadScan(i)), steps, Asking(s, u, k, UnlockRead(Some(id))))
    decreases |Vec(s.buckets, k)| - i
  {
    var vec, s1, s' := Vec(s.buckets, k), Asking(s, u, k, ReadScan(i)), Asking(s, u, k, UnlockRead(Some(id)));
    assert vec[i] < |s.descs|;
    if s.descs[vec[i]].key == k {
      assert vec[i] == id;
      AskingGoes(s, u, k, ReadScan(i), UnlockRead(Some(id)));
      assert Apply(s1, Run(u, false)) == s';
      steps := [];
    } else {
      AskingGoes(s, u, k, ReadScan(i), ReadScan(i + 1));
      assert Apply(s1, Run(u, false)) == Asking(s, u, k, ReadScan(i + 1));
      steps := Scans(s, u, k, id, i + 1);
    }
    First(s1, Run(u, false), steps, s');
    steps := [Run(u, false)] + steps;
  }

  lemma Leaves(s: State, u: nat, k: Key, id: nat) returns (steps: seq<Step>)
    requires Ready(s, u, k, id)
    ensures Leads(Asking(Read(s, k), u, k, UnlockRead(Some(id))), steps, Asking(s, u, k, CheckCreated(id)))
  {
    var r, b := Read(s, k), BucketOf(k);
    var s1, s' := Asking(r, u, k, UnlockRead(Some(id))), Asking(s, u, k, CheckCreated(id));
    assert SetLock(r, b, r.buckets[b].lock - 1) == s by {
      assert r.buckets[b := r.buckets[b].(lock := r.buckets[b].lock - 1)] == s.buckets;
    }
    AskingGoes(s, u, k, UnlockRead(Some(id)), CheckCreated(id));
    assert Apply(s1, Run(u, false)) == s';
    First(s1, Run(u, false), [], s');
    steps := [Run(u, false)] + [];
  }

  /** The state in which thread u has been given descriptor id's instance. */
  function Given(s: State, u: nat, id: nat): State
    requires id < |s.descs|
  {
    s.(log := s.log + [Returned(id, u, s.descs[id].typeInfo, s.descs[id].status)])
  }

  /** A thread that waits in GetOrCreateTypeInfo's loop is given an INITED instance. */
  lemma Waits(s: State, u: nat, k: Key, id: nat) returns (steps: seq<Step>)
    requires Ready(s, u, k, id)
    ensures Leads(Asking(s, u, k, CheckCreated(id)), steps, Given(s, u, id))
  {
    var s1, s2 := Asking(s, u, k, CheckCreated(id)), Asking(s, u, k, CheckIniting(id));
    var s3, s4 := Asking(s, u, k, CheckInited(id)), Asking(s, u, k, Return(id));
    var s', go := Given(s, u, id), Run(u, false);
    AskingGoes(s, u, k, CheckCreated(id), CheckIniting(id));
    AskingGoes(s, u, k, CheckIniting(id), CheckInited(id));
    AskingGoes(s, u, k, CheckInited(id), Return(id));
    AskingGoes(s', u, k, Return(id), Return(id));
    assert Apply(s1, go) == s2 && Apply(s2, go) == s3 && Apply(s3, go) == s4 && Apply(s4, go) == s';
    First(s4, go, [], s');
    First(s3, go, [go] + [], s');
    First(s2, go, [go] + ([go] + []), s');
    First(s1, go, [go] + ([go] + ([go] + [])), s');
    steps := [go] + ([go] + ([go] + ([go] + [])));
  }

  lemma ReadyToRead(s: State, u: nat, k: Key, id: nat)
    requires Ready(s, u, k, id)
    ensures Ready(Read(s, k), u, k, id)
    ensures exists j :: 0 <= j < |Vec(Read(s, k).buckets, k)| && Vec(Read(s, k).buckets, k)[j] == id
  {
    var r := Read(s, k);
    VecOfLocks(s.buckets, BucketOf(k), s.buckets[BucketOf(k)].lock + 1);
    assert forall k' :: Vec(r.buckets, k') == Vec(s.buckets, k');
    assert id in Vec(s.buckets, k);
  }

  lemma AskedIsGiven(s: State, u: nat, k: Key, id: nat) returns (steps: seq<Step>)
    requires Ready(s, u, k, id) && Enabled(s, Call(u, k, GetOrCreate)) && s.buckets[BucketOf(k)].lock != WRITE_LOCKED
    ensures Leads(s, steps, Given(s, u, id))
  {
    var r := Read(s, k);
    var a := Enters(s, u, k, id);
    ReadyToRead(s, u, k, id);
    var b := Scans(r, u, k, id, 0);
    var c := Leaves(s, u, k, id);
    var d := Waits(s, u, k, id);
    Joined(s, a, Asking(r, u, k, ReadScan(0)), b, Asking(r, u, k, UnlockRead(Some(id))));
    Joined(s, a + b, Asking(r, u, k, UnlockRead(Some(id))), c, Asking(s, u, k, CheckCreated(id)));
    Joined(s, a + b + c, Asking(s, u, k, CheckCreated(id)), d, Given(s, u, id));
    steps := a + b + c + d;
  }

  // ---------------------------------------------------------------- from any state

  /** Creations in progress are in progress still. */
  ghost predicate KeepsFilling(s: State, s': State) {
    forall t: nat, p: nat, id: nat :: Fills(s, t, p, id) ==> Fills(s', t, p, id)
  }

  lemma CalmKeepsFilling(s: State, s': State, v: nat)
    requires Calm(s, s', v) && !Top(s.stacks[v]).pc.Filling?
    ensures KeepsFilling(s, s')
  {
    forall t: nat, p: nat, id: nat | Fills(s, t, p, id) ensures Fills(s', t, p, id) {
      if t == v {
        var n := |s.stacks[v]| - 1;
        assert s'.stacks[v][p] == s'.stacks[v][..n][p] == s.stacks[v][..n][p];
      }
    }
  }

  /** If an instance has the status INITED, a thread other than its inserter that may call is given it in
      some run in which every creation in progress stays in progress. */
  lemma CanBeGiven(s: State, u: nat, id: nat) returns (steps: seq<Step>, s': State)
    requires Sound(s) && u < |s.stacks| && id < |s.descs| && s.descs[id].tid != u
    requires s.descs[id].status.Inited? && s.descs[id].typeInfo.Some? &&
             Enabled(s, Call(u, s.descs[id].key, GetOrCreate))
    ensures Leads(s, steps, s') && KeepsFilling(s, s')
    ensures s'.log == s.log + [Returned(id, u, s.descs[id].typeInfo, Inited)]
    ensures s.descs <= s'.descs && s'.nextInfo == s.nextInfo && |s'.stacks| == |s.stacks| && |s'.buckets| == BUCKETS
    ensures forall w :: 0 <= w < |s.stacks| && !Holds(s.stacks[w], BucketOf(s.descs[id].key), Writing) ==>
            s'.stacks[w] == s.stacks[w]
  {
    var k := s.descs[id].key;
    var b := BucketOf(k);
    if s.buckets[b].lock != WRITE_LOCKED {
      steps := AskedIsGiven(s, u, k, id);
      s' := Given(s, u, id);
    } else {
      assert LockMeans(s.buckets[b].lock, s.stacks, b);
      var v := SomeHolder(s.stacks, b, Writing);
      steps, s' := GivenAfterWriter(s, u, id, v);
    }
  }

  lemma GivenAfterWriter(s: State, u: nat, id: nat, v: nat) returns (steps: seq<Step>, s': State)
    requires u < |s.stacks| && id < |s.descs| && s.descs[id].tid != u && Writes(s, v, BucketOf(s.descs[id].key))
    requires s.descs[id].status.Inited? && s.descs[id].typeInfo.Some? &&
             Enabled(s, Call(u, s.descs[id].key, GetOrCreate))
    ensures Leads(s, steps, s') && KeepsFilling(s, s')
    ensures s'.log == s.log + [Returned(id, u, s.descs[id].typeInfo, Inited)]
    ensures s.descs <= s'.descs && s'.nextInfo == s.nextInfo && |s'.stacks| == |s.stacks| && |s'.buckets| == BUCKETS
    ensures forall w :: 0 <= w < |s.stacks| && w != v ==> s'.stacks[w] == s.stacks[w]
  {
    var k := s.descs[id].key;
    var a, mid := WriterLeaves(s, v, BucketOf(k));
    CalmKeepsFilling(s, mid, v);
    assert v != u && mid.stacks[u] == s.stacks[u] && mid.descs[id] == s.descs[id];
    var c := AskedIsGiven(mid, u, k, id);
    s' := Given(mid, u, id);
    Joined(s, a, mid, c, s');
    steps := a + c;
  }

  /** In every guarded run: once AddTypeInfo has registered an instance for a key whose creator is still
      filling it in, every other thread that may call can be given it while that goes on. */
  lemma GivenEarlyIfRegistered(s0: State, run: seq<Step>, u: nat, t: nat, p: nat, id: nat)
    returns (steps: seq<Step>, s': State)
    requires Init(s0) && IsRun(s0, run) && Guarded(s0, run)
    requires var s := After(s0, run);
             && Fills(s, t, p, id) && RegisteredSince(s0, run, id) && u != t && u < |s.stacks|
             && (s.stacks[u] == [] || Top(s.stacks[u]).pc.Filling?)
    ensures var s := After(s0, run);
            && Leads(s, steps, s') && Fills(s', t, p, id) && id < |s.descs|
            && s'.log == s.log + [Returned(id, u, s.descs[id].typeInfo, Inited)]
  {
    InitedIffRegistered(s0, run);
    var s := After(s0, run);
    FillingIsKnown(s, t, p, id);
    assert StatusOk(s.descs[id]);
    steps, s' := CanBeGiven(s, u, id);
  }
}
