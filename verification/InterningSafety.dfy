/** What every run of the interning table keeps. */
module InterningSafety {
  import opened Interning

  // ---------------------------------------------------------------- who is inside which bucket

  datatype Mode = Reading | Writing

  function Top(st: seq<Frame>): Frame
    requires st != []
  {
    st[|st| - 1]
  }

  predicate InMode(pc: Pc, m: Mode) {
    match m
    case Reading => pc.ReadScan? || pc.UnlockRead?
    case Writing => pc.WriteScan? || pc.Insert? || pc.UnlockWrite?
  }

  /** The thread with this stack holds bucket b's lock in mode m. */
  predicate Holds(st: seq<Frame>, b: nat, m: Mode) {
    st != [] && BucketOf(Top(st).key) == b && InMode(Top(st).pc, m)
  }

  function Holders(stacks: seq<seq<Frame>>, b: nat, m: Mode): nat {
    if stacks == [] then 0 else (if Holds(stacks[0], b, m) then 1 else 0) + Holders(stacks[1..], b, m)
  }

  lemma {:induction false} HoldersUpdate(stacks: seq<seq<Frame>>, t: nat, st: seq<Frame>, b: nat, m: Mode)
    requires t < |stacks|
    ensures Holders(stacks[t := st], b, m) ==
            Holders(stacks, b, m) - (if Holds(stacks[t], b, m) then 1 else 0) + (if Holds(st, b, m) then 1 else 0)
  {
    if t == 0 {
      assert stacks[0 := st][1..] == stacks[1..];
    } else {
      assert stacks[t := st][1..] == stacks[1..][t - 1 := st];
      HoldersUpdate(stacks[1..], t - 1, st, b, m);
    }
  }

  lemma {:induction false} HolderCounts(stacks: seq<seq<Frame>>, t: nat, b: nat, m: Mode)
    requires t < |stacks| && Holds(stacks[t], b, m)
    ensures Holders(stacks, b, m) > 0
  {
    if t > 0 {
      HolderCounts(stacks[1..], t - 1, b, m);
    }
  }

  lemma {:induction false} TwoHoldersCount(stacks: seq<seq<Frame>>, t: nat, u: nat, b: nat, m: Mode)
    requires t < u < |stacks| && Holds(stacks[t], b, m) && Holds(stacks[u], b, m)
    ensures Holders(stacks, b, m) > 1
  {
    if t > 0 {
      TwoHoldersCount(stacks[1..], t - 1, u - 1, b, m);
    } else {
      HolderCounts(stacks[1..], u - 1, b, m);
    }
  }

  lemma {:induction false} NoHolders(stacks: seq<seq<Frame>>, b: nat, m: Mode)
    requires forall t :: 0 <= t < |stacks| ==> stacks[t] == []
    ensures Holders(stacks, b, m) == 0
  {
    if stacks != [] {
      NoHolders(stacks[1..], b, m);
    }
  }

  /** The lock word says who is inside. */
  ghost predicate LockMeans(lock: int, stacks: seq<seq<Frame>>, b: nat) {
    var readers := Holders(stacks, b, Reading);
    var writers := Holders(stacks, b, Writing);
    (lock == WRITE_LOCKED && writers == 1 && readers == 0) || (lock == readers && writers == 0)
  }

  ghost predicate Locked(s: State) {
    |s.buckets| == BUCKETS && forall b :: 0 <= b < BUCKETS ==> LockMeans(s.buckets[b].lock, s.stacks, b)
  }

  // ---------------------------------------------------------------- locks

  /** A step that replaces thread t's stack, and the lock of the bucket it works on, by ones that agree. */
  lemma LockStep(s: State, s': State, t: nat)
    requires Locked(s) && |s'.buckets| == BUCKETS && t < |s.stacks| && s.stacks[t] != []
    requires |s'.stacks| == |s.stacks| && s'.stacks == s.stacks[t := s'.stacks[t]]
    requires var b := BucketOf(Top(s.stacks[t]).key);
             && (forall c :: 0 <= c < BUCKETS && c != b ==> s'.buckets[c].lock == s.buckets[c].lock)
             && (s'.stacks[t] != [] && BucketOf(Top(s'.stacks[t]).key) != b ==>
                 forall m :: !InMode(Top(s'.stacks[t]).pc, m))
             && LockMeans(s'.buckets[b].lock, s'.stacks, b)
    ensures Locked(s')
  {
    var b := BucketOf(Top(s.stacks[t]).key);
    forall c | 0 <= c < BUCKETS ensures LockMeans(s'.buckets[c].lock, s'.stacks, c) {
      if c != b {
        HoldersUpdate(s.stacks, t, s'.stacks[t], c, Reading);
        HoldersUpdate(s.stacks, t, s'.stacks[t], c, Writing);
        assert LockMeans(s.buckets[c].lock, s.stacks, c);
      }
    }
  }

  /** Only the top frame of a stack can be anywhere but in the middle of creating an instance. */
  ghost predicate Positioned(st: seq<Frame>) {
    forall p :: 0 <= p < |st| - 1 ==> st[p].pc.Filling?
  }

  /** A thread's step changes its own stack: the top frame moves on, or is popped. */
  ghost predicate Moved(st: seq<Frame>, st': seq<Frame>)
    requires st != []
  {
    var n := |st| - 1;
    st' == st[..n] ||
    (|st'| == n + 1 && st'[..n] == st[..n] && st'[n].key == st[n].key && st'[n].purpose == st[n].purpose)
  }

  lemma SearchMoves(s: State, t: nat, spurious: bool)
    requires Runnable(s, t) && InSearch(Top(s.stacks[t]).pc)
    ensures var s' := RunSearch(s, t, Top(s.stacks[t]), spurious);
            |s'.stacks| == |s.stacks| && s'.stacks == s.stacks[t := s'.stacks[t]] && Moved(s.stacks[t], s'.stacks[t])
  {
  }

  lemma FoundMoves(s: State, t: nat)
    requires Runnable(s, t) && !InSearch(Top(s.stacks[t]).pc)
    ensures var s' := RunFound(s, t, Top(s.stacks[t]));
            |s'.stacks| == |s.stacks| && s'.stacks == s.stacks[t := s'.stacks[t]] && Moved(s.stacks[t], s'.stacks[t])
  {
  }

  lemma SearchKeepsLocked(s: State, t: nat, spurious: bool)
    requires Locked(s) && Runnable(s, t) && InSearch(Top(s.stacks[t]).pc)
    ensures Locked(RunSearch(s, t, Top(s.stacks[t]), spurious))
  {
    var f := Top(s.stacks[t]);
    var s' := RunSearch(s, t, f, spurious);
    var b := BucketOf(f.key);
    SearchMoves(s, t, spurious);
    assert LockMeans(s.buckets[b].lock, s.stacks, b);
    HoldersUpdate(s.stacks, t, s'.stacks[t], b, Reading);
    HoldersUpdate(s.stacks, t, s'.stacks[t], b, Writing);
    LockStep(s, s', t);
  }

  lemma FoundKeepsLocked(s: State, t: nat)
    requires Locked(s) && Runnable(s, t) && !InSearch(Top(s.stacks[t]).pc) && Positioned(s.stacks[t])
    ensures Locked(RunFound(s, t, Top(s.stacks[t])))
  {
    var f := Top(s.stacks[t]);
    var s' := RunFound(s, t, f);
    var b := BucketOf(f.key);
    FoundMoves(s, t);
    assert LockMeans(s.buckets[b].lock, s.stacks, b);
    HoldersUpdate(s.stacks, t, s'.stacks[t], b, Reading);
    HoldersUpdate(s.stacks, t, s'.stacks[t], b, Writing);
    LockStep(s, s', t);
  }

  lemma CallKeepsLocked(s: State, t: nat, key: Key, purpose: Purpose)
    requires Locked(s) && Enabled(s, Call(t, key, purpose))
    ensures Locked(Apply(s, Call(t, key, purpose)))
  {
    var s' := Apply(s, Call(t, key, purpose));
    forall b | 0 <= b < BUCKETS ensures LockMeans(s'.buckets[b].lock, s'.stacks, b) {
      assert LockMeans(s.buckets[b].lock, s.stacks, b);
      HoldersUpdate(s.stacks, t, s'.stacks[t], b, Reading);
      HoldersUpdate(s.stacks, t, s'.stacks[t], b, Writing);
    }
  }

  lemma MovedKeepsPositioned(st: seq<Frame>, st': seq<Frame>)
    requires st != [] && Moved(st, st') && Positioned(st)
    ensures Positioned(st')
  {
    forall p | 0 <= p < |st'| - 1 ensures st'[p].pc.Filling? {
      assert st'[..|st| - 1] == st[..|st| - 1];
      assert st'[p] == st'[..|st| - 1][p] == st[p];
    }
  }

  // ---------------------------------------------------------------- the table

  ghost predicate Canonical(ds: seq<Desc>) {
    forall i, j :: 0 <= i < j < |ds| ==> ds[i].key != ds[j].key
  }

  /** Every descriptor is in the list its key leads to, and no key has two. */
  ghost predicate Table(bs: seq<Bucket>, ds: seq<Desc>) {
    && |bs| == BUCKETS && Canonical(ds)
    && (forall k: Key, j :: 0 <= j < |Vec(bs, k)| ==> Vec(bs, k)[j] < |ds|)
    && (forall id :: 0 <= id < |ds| ==> id in Vec(bs, ds[id].key))
  }

  predicate Known(ds: seq<Desc>, id: nat, k: Key) {
    id < |ds| && ds[id].key == k
  }

  /** None of the first n descriptors in the key's list is for the key. */
  ghost predicate Absent(bs: seq<Bucket>, ds: seq<Desc>, k: Key, n: nat)
    requires |bs| == BUCKETS
  {
    n <= |Vec(bs, k)| && forall j :: 0 <= j < n ==> Vec(bs, k)[j] < |ds| && ds[Vec(bs, k)[j]].key != k
  }

  ghost predicate FrameOk(bs: seq<Bucket>, ds: seq<Desc>, t: nat, f: Frame)
    requires |bs| == BUCKETS
  {
    match f.pc
    case LockRead => true
    case ReadCas(_) => true
    case ReadScan(_) => true
    case UnlockRead(found) => found.Some? ==> Known(ds, found.value, f.key)
    case LockWrite => true
    case WriteScan(i) => Absent(bs, ds, f.key, i)
    case Insert => Absent(bs, ds, f.key, |Vec(bs, f.key)|)
    case Publish(id) => Known(ds, id, f.key) && ds[id].tid == t
    case MarkIniting(id) => Known(ds, id, f.key) && ds[id].tid == t
    case Filling(id) => Known(ds, id, f.key) && ds[id].tid == t
    case TestInfo(id) => Known(ds, id, f.key) && f.purpose.Register?
    case StoreInfo(id) => Known(ds, id, f.key) && f.purpose.Register?
    case SetInited(id) => Known(ds, id, f.key) && f.purpose.Register?
    case _ => Known(ds, f.pc.id, f.key)
  }

  ghost predicate StackOk(bs: seq<Bucket>, ds: seq<Desc>, t: nat, st: seq<Frame>)
    requires |bs| == BUCKETS
  {
    Positioned(st) && forall p :: 0 <= p < |st| ==> FrameOk(bs, ds, t, st[p])
  }

  ghost predicate Framed(s: State) {
    |s.buckets| == BUCKETS && forall t :: 0 <= t < |s.stacks| ==> StackOk(s.buckets, s.descs, t, s.stacks[t])
  }

  ghost predicate Sound(s: State) {
    Locked(s) && Table(s.buckets, s.descs) && Framed(s)
  }

  // ---------------------------------------------------------------- frames

  /** Descriptors are never removed, and keep their key and their inserting thread. */
  ghost predicate Grows(ds: seq<Desc>, ds': seq<Desc>) {
    |ds| <= |ds'| && forall id :: 0 <= id < |ds| ==> ds'[id].key == ds[id].key && ds'[id].tid == ds[id].tid
  }

  lemma FrameStays(bs: seq<Bucket>, ds: seq<Desc>, bs': seq<Bucket>, ds': seq<Desc>, t: nat, f: Frame)
    requires |bs| == |bs'| == BUCKETS && Grows(ds, ds') && FrameOk(bs, ds, t, f)
    requires InMode(f.pc, Writing) ==> Vec(bs', f.key) == Vec(bs, f.key)
    ensures FrameOk(bs', ds', t, f)
  {
  }

  lemma StackStays(bs: seq<Bucket>, ds: seq<Desc>, bs': seq<Bucket>, ds': seq<Desc>, t: nat, st: seq<Frame>)
    requires |bs| == |bs'| == BUCKETS && Grows(ds, ds') && StackOk(bs, ds, t, st)
    requires st != [] && InMode(Top(st).pc, Writing) ==> Vec(bs', Top(st).key) == Vec(bs, Top(st).key)
    ensures StackOk(bs', ds', t, st)
  {
    forall p | 0 <= p < |st| ensures FrameOk(bs', ds', t, st[p]) {
      FrameStays(bs, ds, bs', ds', t, st[p]);
    }
  }

  lemma StackMoves(bs: seq<Bucket>, ds: seq<Desc>, bs': seq<Bucket>, ds': seq<Desc>, t: nat,
                   st: seq<Frame>, st': seq<Frame>)
    requires |bs| == |bs'| == BUCKETS && Grows(ds, ds') && StackOk(bs, ds, t, st)
    requires st != [] && Moved(st, st') && (|st'| == |st| ==> FrameOk(bs', ds', t, Top(st')))
    ensures StackOk(bs', ds', t, st')
  {
    MovedKeepsPositioned(st, st');
    forall p | 0 <= p < |st'| ensures FrameOk(bs', ds', t, st'[p]) {
      if p < |st| - 1 {
        assert st'[p] == st'[..|st| - 1][p] == st[p];
        FrameStays(bs, ds, bs', ds', t, st[p]);
      }
    }
  }

  /** What thread t's step must show to keep every frame right. */
  lemma FramesMove(s: State, s': State, t: nat)
    requires Framed(s) && |s'.buckets| == BUCKETS && Grows(s.descs, s'.descs)
    requires t < |s.stacks| && s.stacks[t] != []
    requires |s'.stacks| == |s.stacks| && s'.stacks == s.stacks[t := s'.stacks[t]] && Moved(s.stacks[t], s'.stacks[t])
    requires |s'.stacks[t]| == |s.stacks[t]| ==> FrameOk(s'.buckets, s'.descs, t, Top(s'.stacks[t]))
    requires forall u {:trigger s.stacks[u]} ::
             0 <= u < |s.stacks| && u != t && s.stacks[u] != [] && InMode(Top(s.stacks[u]).pc, Writing) ==>
      Vec(s'.buckets, Top(s.stacks[u]).key) == Vec(s.buckets, Top(s.stacks[u]).key)
    ensures Framed(s')
  {
    forall u | 0 <= u < |s'.stacks| ensures StackOk(s'.buckets, s'.descs, u, s'.stacks[u]) {
      if u == t {
        StackMoves(s.buckets, s.descs, s'.buckets, s'.descs, t, s.stacks[t], s'.stacks[t]);
      } else {
        StackStays(s.buckets, s.descs, s'.buckets, s'.descs, u, s.stacks[u]);
      }
    }
  }

  /** A change of locks alone leaves every list as it was. */
  lemma VecOfLocks(bs: seq<Bucket>, b: nat, lock: int)
    requires |bs| == BUCKETS && b < BUCKETS
    ensures forall k: Key :: Vec(bs[b := bs[b].(lock := lock)], k) == Vec(bs, k)
  {
  }

  lemma SearchKeepsTable(s: State, t: nat, spurious: bool)
    requires Sound(s) && Runnable(s, t) && InSearch(Top(s.stacks[t]).pc) && !Top(s.stacks[t]).pc.Insert?
    ensures var s' := RunSearch(s, t, Top(s.stacks[t]), spurious);
            && s'.descs == s.descs && |s'.buckets| == BUCKETS
            && (forall k: Key :: Vec(s'.buckets, k) == Vec(s.buckets, k))
            && Table(s'.buckets, s'.descs)
  {
    var b := BucketOf(Top(s.stacks[t]).key);
    var s' := RunSearch(s, t, Top(s.stacks[t]), spurious);
    VecOfLocks(s.buckets, b, s'.buckets[b].lock);
    assert s'.buckets == s.buckets[b := s.buckets[b].(lock := s'.buckets[b].lock)];
  }

  function NextWriteScan(s: State, f: Frame): Pc
    requires |s.buckets| == BUCKETS && f.pc.WriteScan?
    requires f.pc.i < |Vec(s.buckets, f.key)| ==> Vec(s.buckets, f.key)[f.pc.i] < |s.descs|
  {
    var vec := Vec(s.buckets, f.key);
    if f.pc.i >= |vec| then Insert
    else if s.descs[vec[f.pc.i]].key == f.key then UnlockWrite(vec[f.pc.i])
    else WriteScan(f.pc.i + 1)
  }

  /** The searcher's next frame is right, when the lists are as before. */
  lemma SearchTopOk(s: State, t: nat, spurious: bool, bs: seq<Bucket>)
    requires Runnable(s, t) && InSearch(Top(s.stacks[t]).pc) && !Top(s.stacks[t]).pc.Insert?
    requires FrameOk(s.buckets, s.descs, t, Top(s.stacks[t]))
    requires |bs| == BUCKETS && Vec(bs, Top(s.stacks[t]).key) == Vec(s.buckets, Top(s.stacks[t]).key)
    ensures FrameOk(bs, s.descs, t, Top(RunSearch(s, t, Top(s.stacks[t]), spurious).stacks[t]))
  {
    var f := Top(s.stacks[t]);
    var next := Top(RunSearch(s, t, f, spurious).stacks[t]);
    assert next.key == f.key && next.purpose == f.purpose;
    if f.pc.WriteScan? {
      assert next.pc == NextWriteScan(s, f);
    }
  }

  lemma SearchKeepsFrames(s: State, t: nat, spurious: bool)
    requires Sound(s) && Runnable(s, t) && InSearch(Top(s.stacks[t]).pc) && !Top(s.stacks[t]).pc.Insert?
    ensures Framed(RunSearch(s, t, Top(s.stacks[t]), spurious))
  {
    var f := Top(s.stacks[t]);
    var s' := RunSearch(s, t, f, spurious);
    SearchMoves(s, t, spurious);
    SearchKeepsTable(s, t, spurious);
    assert FrameOk(s.buckets, s.descs, t, f) by {
      assert StackOk(s.buckets, s.descs, t, s.stacks[t]);
    }
    SearchTopOk(s, t, spurious, s'.buckets);
    assert Grows(s.descs, s'.descs);
    FramesMove(s, s', t);
  }

  // ---------------------------------------------------------------- insertion

  function Inserted(bs: seq<Bucket>, k: Key, id: nat): seq<Bucket>
    requires |bs| == BUCKETS
  {
    var b := BucketOf(k);
    bs[b := bs[b].(maps := bs[b].maps[Hash(k) := Vec(bs, k) + [id]])]
  }

  lemma VecOfInserted(bs: seq<Bucket>, k: Key, id: nat)
    requires |bs| == BUCKETS
    ensures forall k': Key :: Vec(Inserted(bs, k, id), k') ==
              if Hash(k') == Hash(k) then Vec(bs, k) + [id] else Vec(bs, k')
  {
  }

  lemma InsertKeepsTable(bs: seq<Bucket>, ds: seq<Desc>, d: Desc)
    requires Table(bs, ds) && Absent(bs, ds, d.key, |Vec(bs, d.key)|)
    ensures Table(Inserted(bs, d.key, |ds|), ds + [d])
  {
    var bs', ds' := Inserted(bs, d.key, |ds|), ds + [d];
    VecOfInserted(bs, d.key, |ds|);
    forall id | 0 <= id < |ds'| ensures id in Vec(bs', ds'[id].key) {
      if id < |ds| {
        assert id in Vec(bs, ds[id].key);
        assert Hash(ds[id].key) == Hash(d.key) ==> Vec(bs, ds[id].key) == Vec(bs, d.key);
      }
    }
    forall i | 0 <= i < |ds| ensures ds[i].key != d.key {
      assert i in Vec(bs, ds[i].key);
    }
  }

  /** Two threads do not write in one bucket. */
  lemma OneWriter(s: State, t: nat, u: nat, b: nat)
    requires Locked(s) && t < |s.stacks| && u < |s.stacks| && t != u && b < BUCKETS
    requires Holds(s.stacks[t], b, Writing)
    ensures !Holds(s.stacks[u], b, Writing) && !Holds(s.stacks[u], b, Reading) && s.buckets[b].lock == WRITE_LOCKED
  {
    assert LockMeans(s.buckets[b].lock, s.stacks, b);
    HolderCounts(s.stacks, t, b, Writing);
    if Holds(s.stacks[u], b, Reading) {
      HolderCounts(s.stacks, u, b, Reading);
    }
    if Holds(s.stacks[u], b, Writing) {
      TwoHoldersCount(s.stacks, if t < u then t else u, if t < u then u else t, b, Writing);
    }
  }

  lemma InsertKeeps(s: State, t: nat)
    requires Sound(s) && Runnable(s, t) && Top(s.stacks[t]).pc.Insert?
    ensures var s' := RunSearch(s, t, Top(s.stacks[t]), false); Table(s'.buckets, s'.descs) && Framed(s')
  {
    var f := Top(s.stacks[t]);
    var s' := RunSearch(s, t, f, false);
    var d := Desc(f.key, t, None, NotCreated);
    assert FrameOk(s.buckets, s.descs, t, f) by {
      assert StackOk(s.buckets, s.descs, t, s.stacks[t]);
    }
    InsertKeepsTable(s.buckets, s.descs, d);
    assert s'.buckets == Inserted(s.buckets, f.key, |s.descs|) && s'.descs == s.descs + [d];
    VecOfInserted(s.buckets, f.key, |s.descs|);
    SearchMoves(s, t, false);
    forall u {:trigger s.stacks[u]} | 0 <= u < |s.stacks| && u != t && s.stacks[u] != [] &&
      InMode(Top(s.stacks[u]).pc, Writing)
      ensures Vec(s'.buckets, Top(s.stacks[u]).key) == Vec(s.buckets, Top(s.stacks[u]).key)
    {
      OneWriter(s, t, u, BucketOf(f.key));
    }
    FramesMove(s, s', t);
  }

  // ---------------------------------------------------------------- the other steps

  lemma FoundKeeps(s: State, t: nat)
    requires Sound(s) && Runnable(s, t) && !InSearch(Top(s.stacks[t]).pc)
    ensures var s' := RunFound(s, t, Top(s.stacks[t]));
            s'.buckets == s.buckets && Grows(s.descs, s'.descs) && Table(s'.buckets, s'.descs) && Framed(s')
  {
    var f := Top(s.stacks[t]);
    var s' := RunFound(s, t, f);
    FoundMoves(s, t);
    assert FrameOk(s.buckets, s.descs, t, f) by {
      assert StackOk(s.buckets, s.descs, t, s.stacks[t]);
    }
    assert Grows(s.descs, s'.descs);
    FramesMove(s, s', t);
  }

  lemma CallKeepsFrames(s: State, t: nat, key: Key, purpose: Purpose)
    requires Framed(s) && Enabled(s, Call(t, key, purpose))
    ensures Framed(Apply(s, Call(t, key, purpose)))
  {
    var s' := Apply(s, Call(t, key, purpose));
    forall u | 0 <= u < |s'.stacks| ensures StackOk(s'.buckets, s'.descs, u, s'.stacks[u]) {
      assert StackOk(s.buckets, s.descs, u, s.stacks[u]);
    }
  }

  lemma StepKeepsSound(s: State, step: Step)
    requires Sound(s) && Enabled(s, step)
    ensures Sound(Apply(s, step))
  {
    match step
    case Call(t, key, purpose) =>
      CallKeepsLocked(s, t, key, purpose);
      CallKeepsFrames(s, t, key, purpose);
    case Run(t, spurious) =>
      var pc := Top(s.stacks[t]).pc;
      if !InSearch(pc) {
        assert StackOk(s.buckets, s.descs, t, s.stacks[t]);
        FoundKeepsLocked(s, t);
        FoundKeeps(s, t);
      } else {
        SearchKeepsLocked(s, t, spurious);
        if pc.Insert? {
          InsertKeeps(s, t);
        } else {
          SearchKeepsTable(s, t, spurious);
          SearchKeepsFrames(s, t, spurious);
        }
      }
  }
}
