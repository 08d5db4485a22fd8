/** Interning of generic type instances: any number of threads ask for the instance of a template with
    given arguments, through a hash table whose buckets are guarded by spinning reader-writer locks.

    Each step is one atomic action of one thread; AddTypeInfo's test, store and status store are three, its
    instance getting a uuid with the one before the status store.  A compare-and-swap may fail spuriously, as
    a weak one may.  Memory is sequentially consistent here.
 */
module Interning {

  datatype Option<T> = None | Some(value: T)

  /** A template's uuid and its arguments' uuids. */
  datatype Key = Key(template: nat, args: seq<nat>)

  const BUCKETS := 1024
  const WRITE_LOCKED := -1

  function Hash(k: Key): nat {
    HashArgs((31 + k.template) % 0x1_0000_0000, k.args)
  }

  function HashArgs(h: nat, args: seq<nat>): nat
    decreases |args|
  {
    if args == [] then h else HashArgs((31 * h + args[0]) % 0x1_0000_0000, args[1..])
  }

  function BucketOf(k: Key): (b: nat)
    ensures b < BUCKETS
  {
    Hash(k) % BUCKETS
  }

  datatype Status = NotCreated | Initing | Inited

  /** GenericTiDesc; `tid` is the thread that inserted it. */
  datatype Desc = Desc(key: Key, tid: nat, typeInfo: Option<nat>, status: Status)

  datatype Bucket = Bucket(lock: int, maps: map<nat, seq<nat>>)

  /** Why a thread looks a key up: GetOrCreateTypeInfo, or AddTypeInfo for the given instance. */
  datatype Purpose = GetOrCreate | Register(info: nat)

  datatype Pc =
    | LockRead
    | ReadCas(count: int)
    | ReadScan(i: nat)
    | UnlockRead(found: Option<nat>)
    | LockWrite
    | WriteScan(i: nat)
    | Insert
    | UnlockWrite(id: nat)
    | CheckCreated(id: nat)
    | CheckIniting(id: nat)
    | CheckInited(id: nat)
    | Publish(id: nat)       // CreatedTypeInfo, up to storing the new instance
    | MarkIniting(id: nat)
    | Filling(id: nat)       // the rest of CreatedTypeInfo, which may look up further keys
    | Return(id: nat)
    | TestInfo(id: nat)      // AddTypeInfo, once the descriptor is found
    | StoreInfo(id: nat)     // it found no registered instance, and stores its own
    | SetInited(id: nat)

  datatype Frame = Frame(key: Key, purpose: Purpose, pc: Pc)

  /** What the outside can observe: that a thread created an instance, or returned one to its caller. */
  datatype Event =
    | Created(id: nat, thread: nat)
    | Returned(id: nat, thread: nat, info: Option<nat>, status: Status)

  datatype State = State(
    buckets: seq<Bucket>,
    descs: seq<Desc>,
    stacks: seq<seq<Frame>>,
    registered: set<nat>,    // instances that have a uuid
    nextInfo: nat,
    log: seq<Event>)

  datatype Step =
    | Call(t: nat, key: Key, purpose: Purpose)
    | Run(t: nat, spurious: bool)

  // ---------------------------------------------------------------- pieces of the state

  function Vec(bs: seq<Bucket>, k: Key): seq<nat>
    requires |bs| == BUCKETS
  {
    var m := bs[BucketOf(k)].maps;
    if Hash(k) in m then m[Hash(k)] else []
  }

  function Goto(s: State, t: nat, pc: Pc): State
    requires t < |s.stacks| && s.stacks[t] != []
  {
    var st := s.stacks[t];
    s.(stacks := s.stacks[t := st[|st| - 1 := st[|st| - 1].(pc := pc)]])
  }

  function Pop(s: State, t: nat): State
    requires t < |s.stacks| && s.stacks[t] != []
  {
    s.(stacks := s.stacks[t := s.stacks[t][..|s.stacks[t]| - 1]])
  }

  function SetLock(s: State, b: nat, lock: int): State
    requires b < |s.buckets|
  {
    s.(buckets := s.buckets[b := s.buckets[b].(lock := lock)])
  }

  function SetDesc(s: State, id: nat, d: Desc): State
    requires id < |s.descs|
  {
    s.(descs := s.descs[id := d])
  }

  function Found(p: Purpose, id: nat): Pc {
    if p.GetOrCreate? then CheckCreated(id) else TestInfo(id)
  }

  // ---------------------------------------------------------------- the steps

  /** The ids a frame and the table mention exist. */
  predicate Runnable(s: State, t: nat) {
    |s.buckets| == BUCKETS && t < |s.stacks| && s.stacks[t] != [] &&
    var f := s.stacks[t][|s.stacks[t]| - 1];
    match f.pc
    case ReadScan(i) => i < |Vec(s.buckets, f.key)| ==> Vec(s.buckets, f.key)[i] < |s.descs|
    case WriteScan(i) => i < |Vec(s.buckets, f.key)| ==> Vec(s.buckets, f.key)[i] < |s.descs|
    case UnlockRead(_) => true
    case UnlockWrite(_) => true
    case LockRead => true
    case ReadCas(_) => true
    case LockWrite => true
    case Insert => true
    case TestInfo(id) => id < |s.descs| && f.purpose.Register?
    case StoreInfo(id) => id < |s.descs| && f.purpose.Register?
    case _ => f.pc.id < |s.descs|
  }

  /** RwLock and the two searches of GenericTiDescHashMap. */
  function RunSearch(s: State, t: nat, f: Frame, spurious: bool): State
    requires Runnable(s, t) && f == s.stacks[t][|s.stacks[t]| - 1]
    requires f.pc.LockRead? || f.pc.ReadCas? || f.pc.ReadScan? || f.pc.UnlockRead?
             || f.pc.LockWrite? || f.pc.WriteScan? || f.pc.Insert? || f.pc.UnlockWrite?
  {
    var b := BucketOf(f.key);
    var lock := s.buckets[b].lock;
    var vec := Vec(s.buckets, f.key);
    match f.pc
    case LockRead => Goto(s, t, ReadCas(lock))
    case ReadCas(count) =>
      if count == WRITE_LOCKED || lock != count || spurious then Goto(s, t, ReadCas(lock))
      else Goto(SetLock(s, b, count + 1), t, ReadScan(0))
    case ReadScan(i) =>
      if i >= |vec| then Goto(s, t, UnlockRead(None))
      else if s.descs[vec[i]].key == f.key then Goto(s, t, UnlockRead(Some(vec[i])))
      else Goto(s, t, ReadScan(i + 1))
    case UnlockRead(found) =>
      Goto(SetLock(s, b, lock - 1), t, if found.None? then LockWrite else Found(f.purpose, found.value))
    case LockWrite =>
      if lock != 0 || spurious then s else Goto(SetLock(s, b, WRITE_LOCKED), t, WriteScan(0))
    case WriteScan(i) =>
      if i >= |vec| then Goto(s, t, Insert)
      else if s.descs[vec[i]].key == f.key then Goto(s, t, UnlockWrite(vec[i]))
      else Goto(s, t, WriteScan(i + 1))
    case Insert =>
      var id := |s.descs|;
      var bucket := s.buckets[b].(maps := s.buckets[b].maps[Hash(f.key) := vec + [id]]);
      Goto(s.(descs := s.descs + [Desc(f.key, t, None, NotCreated)], buckets := s.buckets[b := bucket]), t,
           UnlockWrite(id))
    case UnlockWrite(id) => Goto(SetLock(s, b, 0), t, Found(f.purpose, id))
  }

  /** GetOrCreateTypeInfo's loop, CreatedTypeInfo and AddTypeInfo, once the descriptor is found. */
  function RunFound(s: State, t: nat, f: Frame): State
    requires Runnable(s, t) && f == s.stacks[t][|s.stacks[t]| - 1]
    requires f.pc.CheckCreated? || f.pc.CheckIniting? || f.pc.CheckInited? || f.pc.Publish?
             || f.pc.MarkIniting? || f.pc.Filling? || f.pc.Return?
             || f.pc.TestInfo? || f.pc.StoreInfo? || f.pc.SetInited?
  {
    var id := f.pc.id;
    var d := s.descs[id];
    match f.pc
    case CheckCreated(_) => Goto(s, t, if d.typeInfo.None? && d.tid == t then Publish(id) else CheckIniting(id))
    case CheckIniting(_) => Goto(s, t, if d.status.Initing? && d.tid == t then Return(id) else CheckInited(id))
    case CheckInited(_) => Goto(s, t, if d.status.Inited? then Return(id) else CheckCreated(id))
    case Publish(_) =>
      Goto(SetDesc(s, id, d.(typeInfo := Some(s.nextInfo)))
           .(nextInfo := s.nextInfo + 1, log := s.log + [Created(id, t)]), t, MarkIniting(id))
    case MarkIniting(_) => Goto(SetDesc(s, id, d.(status := Initing)), t, Filling(id))
    case Filling(_) => Goto(SetDesc(s, id, d.(status := Inited)), t, CheckIniting(id))
    case Return(_) => Pop(s.(log := s.log + [Returned(id, t, d.typeInfo, d.status)]), t)
    case TestInfo(_) =>
      if d.typeInfo.Some? && d.typeInfo.value in s.registered
      then Goto(s.(registered := s.registered + {f.purpose.info}), t, SetInited(id))
      else Goto(s, t, StoreInfo(id))
    case StoreInfo(_) =>
      Goto(SetDesc(s, id, d.(typeInfo := Some(f.purpose.info))).(registered := s.registered + {f.purpose.info}), t,
           SetInited(id))
    case SetInited(_) => Pop(SetDesc(s, id, d.(status := Inited)), t)
  }

  predicate InSearch(pc: Pc) {
    pc.LockRead? || pc.ReadCas? || pc.ReadScan? || pc.UnlockRead?
    || pc.LockWrite? || pc.WriteScan? || pc.Insert? || pc.UnlockWrite?
  }

  predicate Enabled(s: State, step: Step) {
    match step
    case Call(t, _, _) =>
      t < |s.stacks| && (s.stacks[t] == [] || s.stacks[t][|s.stacks[t]| - 1].pc.Filling?)
    case Run(t, _) => Runnable(s, t)
  }

  function Apply(s: State, step: Step): State
    requires Enabled(s, step)
  {
    match step
    case Call(t, key, purpose) => s.(stacks := s.stacks[t := s.stacks[t] + [Frame(key, purpose, LockRead)]])
    case Run(t, spurious) =>
      var f := s.stacks[t][|s.stacks[t]| - 1];
      if InSearch(f.pc) then RunSearch(s, t, f, spurious) else RunFound(s, t, f)
  }

  predicate Init(s: State) {
    && |s.buckets| == BUCKETS && (forall b :: 0 <= b < BUCKETS ==> s.buckets[b] == Bucket(0, map[]))
    && s.descs == [] && s.log == []
    && (forall t :: 0 <= t < |s.stacks| ==> s.stacks[t] == [])
  }

  predicate IsRun(s: State, steps: seq<Step>)
    decreases |steps|
  {
    steps == [] || (Enabled(s, steps[0]) && IsRun(Apply(s, steps[0]), steps[1..]))
  }

  function After(s: State, steps: seq<Step>): State
    requires IsRun(s, steps)
    decreases |steps|
  {
    if steps == [] then s else After(Apply(s, steps[0]), steps[1..])
  }
}
