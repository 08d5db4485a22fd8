/** The CPU profiler's call tree: samples' stacks are hash-consed into one tree, whose nodes count hits. */
module CallTree {

  const MAX_NODE_COUNT := 20000
  const ROOT_NODE_ID := 1
  const PROGRAM_NODE_ID := 2
  const IDLE_NODE_ID := 3

  datatype FrameType = UNKNOWN | MANAGED | OTHER(kind: nat)

  /** CodeInfo, as far as the node set's ordering tells two of them apart. */
  datatype CodeInfo = CodeInfo(frameType: FrameType, func: nat, name: string, line: nat)

  datatype Node = Node(id: nat, parentId: nat, entry: CodeInfo, hits: nat, children: seq<nat>)

  /** The node set: a node is found by its parent and its code. */
  type NodeSet = map<(nat, CodeInfo), nat>

  // ---------------------------------------------------------------- the tree

  /** Node i has id i + 1 and hangs below an older node; the set finds every node and nothing else. */
  ghost predicate Tree(nodes: seq<Node>, nodeSet: NodeSet) {
    && |nodes| > 0 && |nodeSet| == |nodes|
    && (forall i :: 0 <= i < |nodes| ==> Placed(nodes, nodeSet, i))
    && (forall k :: k in nodeSet ==> Listed(nodes, k, nodeSet[k]))
  }

  ghost predicate Placed(nodes: seq<Node>, nodeSet: NodeSet, i: nat)
    requires i < |nodes|
  {
    var n := nodes[i];
    n.id == i + 1 && n.parentId <= i && (i > 0 ==> n.parentId > 0) &&
    (n.parentId, n.entry) in nodeSet && nodeSet[(n.parentId, n.entry)] == i + 1
  }

  ghost predicate Listed(nodes: seq<Node>, k: (nat, CodeInfo), id: nat) {
    0 < id <= |nodes| && nodes[id - 1].parentId == k.0 && nodes[id - 1].entry == k.1
  }

  /** The stack a node stands for, outermost frame first: what following parents from it spells. */
  ghost function Path(nodes: seq<Node>, id: nat): seq<CodeInfo>
    requires Ordered(nodes) && 0 < id <= |nodes|
    decreases id
  {
    if id == ROOT_NODE_ID then [] else Path(nodes, nodes[id - 1].parentId) + [nodes[id - 1].entry]
  }

  /** Parents lie below their children. */
  ghost predicate Ordered(nodes: seq<Node>) {
    forall i {:trigger nodes[i].parentId} :: 0 < i < |nodes| ==> 0 < nodes[i].parentId <= i
  }

  lemma TreeIsOrdered(nodes: seq<Node>, nodeSet: NodeSet)
    requires Tree(nodes, nodeSet)
    ensures Ordered(nodes)
  {
    forall i | 0 < i < |nodes| ensures 0 < nodes[i].parentId <= i {
      assert Placed(nodes, nodeSet, i);
    }
  }

  /** Different nodes stand for different stacks. */
  lemma {:induction false} PathsDiffer(nodes: seq<Node>, nodeSet: NodeSet, a: nat, b: nat)
    requires Tree(nodes, nodeSet) && Ordered(nodes) && 0 < a <= |nodes| && 0 < b <= |nodes|
    requires Path(nodes, a) == Path(nodes, b)
    ensures a == b
    decreases a
  {
    if a != ROOT_NODE_ID && b != ROOT_NODE_ID {
      var p, q := Path(nodes, nodes[a - 1].parentId), Path(nodes, nodes[b - 1].parentId);
      var x, y := nodes[a - 1].entry, nodes[b - 1].entry;
      LastSplits(p, x, q, y);
      PathsDiffer(nodes, nodeSet, nodes[a - 1].parentId, nodes[b - 1].parentId);
      assert Placed(nodes, nodeSet, a - 1) && Placed(nodes, nodeSet, b - 1);
    }
  }

  lemma LastSplits(p: seq<CodeInfo>, x: CodeInfo, q: seq<CodeInfo>, y: CodeInfo)
    requires p + [x] == q + [y]
    ensures p == q && x == y
  {
    assert |p| == |q|;
    assert p == (p + [x])[..|p|] && q == (q + [y])[..|q|];
    assert (p + [x])[|p|] == x && (q + [y])[|q|] == y;
  }

  /** The later tree has all nodes of the earlier one in their places. */
  ghost predicate Extends(nodes: seq<Node>, nodes': seq<Node>) {
    && |nodes| <= |nodes'|
    && forall i {:trigger SamePlace(nodes[i], nodes'[i])} :: 0 <= i < |nodes| ==> SamePlace(nodes[i], nodes'[i])
  }

  predicate SamePlace(n: Node, m: Node) { n.id == m.id && n.parentId == m.parentId && n.entry == m.entry }

  /** A node goes on standing for the same stack. */
  lemma {:induction false} PathKept(nodes: seq<Node>, nodes': seq<Node>, id: nat)
    requires Ordered(nodes) && Ordered(nodes') && Extends(nodes, nodes') && 0 < id <= |nodes|
    ensures Path(nodes', id) == Path(nodes, id)
    decreases id
  {
    assert SamePlace(nodes[id - 1], nodes'[id - 1]);
    if id != ROOT_NODE_ID {
      PathKept(nodes, nodes', nodes[id - 1].parentId);
    }
  }

  // ---------------------------------------------------------------- growing the tree

  /** A node's children are the nodes that have it as parent. */
  ghost predicate Family(nodes: seq<Node>) {
    forall p, c: nat {:trigger c in nodes[p].children} :: 0 <= p < |nodes| ==>
      (c in nodes[p].children <==> 0 < c <= |nodes| && nodes[c - 1].parentId == p + 1)
  }

  function AddChild(nodes: seq<Node>, p: nat, id: nat): seq<Node>
    requires p < |nodes|
  {
    nodes[p := nodes[p].(children := nodes[p].children + [id])]
  }

  /** A node that the set does not find is added below its parent. */
  lemma TreeGrows(nodes: seq<Node>, nodeSet: NodeSet, n: Node)
    requires Tree(nodes, nodeSet) && 0 < n.parentId <= |nodes| && (n.parentId, n.entry) !in nodeSet &&
             n.id == |nodes| + 1
    ensures var nodes' := AddChild(nodes + [n], n.parentId - 1, n.id);
            Tree(nodes', nodeSet[(n.parentId, n.entry) := n.id]) && Extends(nodes, nodes')
  {
    var k := (n.parentId, n.entry);
    var nodes' := AddChild(nodes + [n], n.parentId - 1, n.id);
    var set' := nodeSet[k := n.id];
    CountKeys(nodeSet, k, n.id);
    forall i | 0 <= i < |nodes'| ensures Placed(nodes', set', i) {
      if i < |nodes| {
        assert Placed(nodes, nodeSet, i);
      }
    }
    forall j | j in set' ensures Listed(nodes', j, set'[j]) {
      if j != k {
        assert Listed(nodes, j, nodeSet[j]);
      }
    }
  }

  lemma CountKeys(m: NodeSet, k: (nat, CodeInfo), v: nat)
    requires k !in m
    ensures |m[k := v]| == |m| + 1
  {
    assert m[k := v].Keys == m.Keys + {k};
    assert |m.Keys| == |m| && |m[k := v].Keys| == |m[k := v]|;
  }

  lemma FamilyGrows(nodes: seq<Node>, n: Node)
    requires Family(nodes) && n.id == |nodes| + 1 && 0 < n.parentId <= |nodes| && n.children == []
    requires forall i :: 0 <= i < |nodes| ==> nodes[i].parentId <= |nodes|
    ensures Family(AddChild(nodes + [n], n.parentId - 1, n.id))
  {
    var nodes' := AddChild(nodes + [n], n.parentId - 1, n.id);
    forall p, c: nat {:trigger c in nodes'[p].children} | 0 <= p < |nodes'|
      ensures c in nodes'[p].children <==> 0 < c <= |nodes'| && nodes'[c - 1].parentId == p + 1
    {
      if p < |nodes| {
        assert c in nodes[p].children <==> 0 < c <= |nodes| && nodes[c - 1].parentId == p + 1;
      }
    }
  }

  lemma ExtendsStep(a: seq<Node>, b: seq<Node>, c: seq<Node>)
    requires Extends(a, b) && Extends(b, c)
    ensures Extends(a, c)
  {
    forall i | 0 <= i < |a| ensures SamePlace(a[i], c[i]) {
      assert SamePlace(a[i], b[i]) && SamePlace(b[i], c[i]);
    }
  }

  // ---------------------------------------------------------------- totals

  ghost function TotalHits(nodes: seq<Node>): nat {
    if nodes == [] then 0 else TotalHits(nodes[..|nodes| - 1]) + nodes[|nodes| - 1].hits
  }

  lemma {:induction false} HitOne(nodes: seq<Node>, i: nat, n: Node)
    requires i < |nodes|
    ensures TotalHits(nodes[i := n]) == TotalHits(nodes) - nodes[i].hits + n.hits
  {
    var last := |nodes| - 1;
    if i < last {
      assert nodes[i := n][..last] == nodes[..last][i := n];
      HitOne(nodes[..last], i, n);
    } else {
      assert nodes[i := n][..last] == nodes[..last];
    }
  }

  lemma HitNew(nodes: seq<Node>, n: Node)
    ensures TotalHits(nodes + [n]) == TotalHits(nodes) + n.hits
  {
    assert (nodes + [n])[..|nodes|] == nodes;
  }

  ghost function Sum(xs: seq<int>): int {
    if xs == [] then 0 else Sum(xs[..|xs| - 1]) + xs[|xs| - 1]
  }

  lemma SumNew(xs: seq<int>, x: int)
    ensures Sum(xs + [x]) == Sum(xs) + x
  {
    assert (xs + [x])[..|xs|] == xs;
  }

  /** The difference of two 64-bit time stamps as a 32-bit int. */
  function TimeDelta(now: nat, before: nat): int {
    var low := (now - before) % 0x1_0000_0000;
    if low < 0x8000_0000 then low else low - 0x1_0000_0000
  }

  /** How often 2^32 is left out of a difference. */
  function Wraps(now: nat, before: nat): int { (now - before + 0x8000_0000) / 0x1_0000_0000 }

  /** A delta is the difference but for a multiple of 2^32, and is the difference if and only if a 32-bit
      int holds it. */
  lemma DeltaIsExact(now: nat, before: nat)
    ensures TimeDelta(now, before) == now - before - 0x1_0000_0000 * Wraps(now, before)
    ensures TimeDelta(now, before) == now - before <==> -0x8000_0000 <= now - before < 0x8000_0000
  {
  }

  /** What a sample adds to the times: when it was taken, and in which state it found the thread. */
  datatype Reading = Reading(timeStamp: nat, state: FrameType)

  /** What the next delta is taken from.  A time stamp of 0 is as good as none. */
  function Before(start: nat, log: seq<Reading>): nat {
    if log == [] || log[|log| - 1].timeStamp == 0 then start else log[|log| - 1].timeStamp
  }

  function StateBefore(log: seq<Reading>): FrameType {
    if log == [] then UNKNOWN else log[|log| - 1].state
  }

  ghost function Deltas(start: nat, log: seq<Reading>): seq<int> {
    if log == [] then [] else
      var n := |log| - 1;
      Deltas(start, log[..n]) + [TimeDelta(log[n].timeStamp, Before(start, log[..n]))]
  }

  /** The deltas that end time spent in managed code, unless they are too long. */
  ghost function ManagedTime(start: nat, log: seq<Reading>, threshold: int): int {
    if log == [] then 0 else
      var n := |log| - 1;
      var delta := TimeDelta(log[n].timeStamp, Before(start, log[..n]));
      ManagedTime(start, log[..n], threshold) +
      if StateBefore(log[..n]) == MANAGED && delta <= threshold then delta else 0
  }

  /** The time that the deltas of a run miss: what did not fit in 32 bits, and one start time for each stamp
      of 0, after which time is counted from the start again. */
  ghost function Missed(start: nat, log: seq<Reading>): int {
    if log == [] then 0 else
      var n := |log| - 1;
      Missed(start, log[..n]) + 0x1_0000_0000 * Wraps(log[n].timeStamp, Before(start, log[..n])) +
      if log[n].timeStamp == 0 then start else 0
  }

  lemma {:induction false} DeltasAddUp(start: nat, log: seq<Reading>)
    ensures Sum(Deltas(start, log)) == Before(start, log) - start - Missed(start, log)
  {
    if log != [] {
      var n := |log| - 1;
      DeltasAddUp(start, log[..n]);
      DeltaIsExact(log[n].timeStamp, Before(start, log[..n]));
      SumNew(Deltas(start, log[..n]), TimeDelta(log[n].timeStamp, Before(start, log[..n])));
    }
  }

  /** Every time stamp is less than 2^31 from the one before, and none is 0. */
  ghost predicate Steady(start: nat, log: seq<Reading>) {
    log != [] ==>
      var n := |log| - 1;
      && Steady(start, log[..n]) && log[n].timeStamp > 0
      && -0x8000_0000 <= log[n].timeStamp - Before(start, log[..n]) < 0x8000_0000
  }

  lemma {:induction false} SteadyMissesNothing(start: nat, log: seq<Reading>)
    requires Steady(start, log)
    ensures Missed(start, log) == 0
  {
    if log != [] {
      SteadyMissesNothing(start, log[..|log| - 1]);
    }
  }

  /** Without stamps of 0, what is missed is a multiple of 2^32. */
  lemma {:induction false} MissesWholeWraps(start: nat, log: seq<Reading>)
    requires forall i :: 0 <= i < |log| ==> log[i].timeStamp > 0
    ensures Missed(start, log) % 0x1_0000_0000 == 0
  {
    if log != [] {
      MissesWholeWraps(start, log[..|log| - 1]);
    }
  }

  /** Deltas and times are those of the readings. */
  ghost predicate Times(start: nat, log: seq<Reading>, threshold: int, deltas: seq<int>, managed: int, unknown: int) {
    && deltas == Deltas(start, log) && managed == ManagedTime(start, log, threshold)
    && managed + unknown == Sum(deltas)
  }

  lemma TimesMore(start: nat, log: seq<Reading>, x: Reading, threshold: int, deltas: seq<int>, managed: int,
                  unknown: int, delta: int)
    requires Times(start, log, threshold, deltas, managed, unknown) &&
             delta == TimeDelta(x.timeStamp, Before(start, log))
    ensures var counts := StateBefore(log) == MANAGED && delta <= threshold;
            Times(start, log + [x], threshold, deltas + [delta], managed + (if counts then delta else 0),
                  unknown + if counts then 0 else delta)
  {
    assert (log + [x])[..|log|] == log;
    SumNew(deltas, delta);
  }

  function Outermost(stack: seq<CodeInfo>): seq<CodeInfo> {
    if stack == [] then [] else [stack[|stack| - 1]] + Outermost(stack[..|stack| - 1])
  }

  /** How many nodes a stack, outermost frame first, needs below a node: none while frames are found, and
      one for each frame from the first that is not. */
  function NewFrames(nodeSet: NodeSet, parentId: nat, stack: seq<CodeInfo>): nat
    decreases |stack|
  {
    if stack == [] then 0
    else if (parentId, stack[0]) in nodeSet then NewFrames(nodeSet, nodeSet[(parentId, stack[0])], stack[1..])
    else |stack|
  }

  /** Nothing is found below the newest node. */
  lemma AllNewBelow(nodes: seq<Node>, nodeSet: NodeSet, stack: seq<CodeInfo>)
    requires Tree(nodes, nodeSet)
    ensures NewFrames(nodeSet, |nodes|, stack) == |stack|
  {
    forall k | k in nodeSet ensures k.0 < |nodes| {
      assert Listed(nodes, k, nodeSet[k]);
      assert Placed(nodes, nodeSet, nodeSet[k] - 1);
    }
  }

  /** The set found the node for a frame, or a new node was entered in it. */
  ghost predicate Descended(nodes: seq<Node>, nodeSet: NodeSet, nodes': seq<Node>, nodeSet': NodeSet, parentId: nat,
                            entry: CodeInfo, id: nat)
  {
    if (parentId, entry) in nodeSet then nodes' == nodes && nodeSet' == nodeSet && id == nodeSet[(parentId, entry)]
    else |nodes'| == |nodes| + 1 == id && nodeSet' == nodeSet[(parentId, entry) := id]
  }

  /** The node array holds what the walk along a stack adds. */
  predicate Fits(count: nat, nodeSet: NodeSet, codeInfos: seq<CodeInfo>) {
    count + NewFrames(nodeSet, ROOT_NODE_ID, Outermost(codeInfos)) <= MAX_NODE_COUNT
  }

  ghost function Indices(from: nat, to: nat): seq<int> {
    if to <= from then [] else Indices(from, to - 1) + [to - 1]
  }

  lemma OneIndex(from: nat, n: nat, to: nat)
    requires from <= n <= to <= n + 1
    ensures Indices(from, n) + Indices(n, to) == Indices(from, to)
  {
  }

  ghost predicate InArray(indices: seq<int>) {
    forall i :: i in indices ==> i < MAX_NODE_COUNT
  }

  lemma {:induction false} IndicesInArray(from: nat, to: nat)
    requires from <= to && from <= MAX_NODE_COUNT
    ensures to <= MAX_NODE_COUNT <==> InArray(Indices(from, to))
  {
    if from < to {
      IndicesInArray(from, to - 1);
      assert to - 1 in Indices(from, to);
    }
  }

  // ---------------------------------------------------------------- the profile

  class ProfileInfo {
    var startTime: nat
    var nodes: seq<Node>          // the first nodeCount of the node array
    var nodeSet: NodeSet
    var samples: seq<nat>
    var timeDeltas: seq<int>
    var previousTimeStamp: nat
    var previousId: nat
    var previousState: FrameType
    var managedTime: int          // times are kept modulo 2^64 by the profiler
    var unknownTime: int
    const timeDeltaThreshold: int
    ghost var log: seq<Reading>   // the samples recorded

    /** The tree is a tree, every sample hit one node, and every delta went into one of the two times. */
    ghost predicate Valid()
      reads this
    {
      && Tree(nodes, nodeSet) && Ordered(nodes) && Family(nodes) && |nodes| >= IDLE_NODE_ID
      && TotalHits(nodes) == |samples| == |timeDeltas| == |log| && AllBelow(samples, |nodes|) && TimesAdd()
    }

    ghost predicate TimesAdd()
      reads this
    {
      && Times(startTime, log, timeDeltaThreshold, timeDeltas, managedTime, unknownTime)
      && Last() == Before(startTime, log) && previousState == StateBefore(log)
    }

    /** The last processed time stamp. */
    ghost function Last(): nat
      reads this
    {
      if previousTimeStamp == 0 then startTime else previousTimeStamp
    }

    /** NodeInit. */
    constructor (startTime: nat, threshold: int)
      ensures Valid() && samples == [] && log == [] && this.startTime == startTime && timeDeltaThreshold == threshold
      ensures |nodes| == IDLE_NODE_ID && forall k :: k in nodeSet ==> k.1.line == 0
    {
      var blank := CodeInfo(UNKNOWN, 0, "", 0);
      var root, program, idle := blank.(name := "(root)"), blank.(name := "(program)"), blank.(name := "(idle)");
      var all := [Node(1, 0, root, 0, [2, 3]), Node(2, 1, program, 0, []), Node(3, 1, idle, 0, [])];
      this.startTime, timeDeltaThreshold := startTime, threshold;
      nodes := all;
      nodeSet := map[(0, root) := 1, (1, program) := 2, (1, idle) := 3];
      samples, timeDeltas, previousTimeStamp, previousId, previousState := [], [], 0, 0, UNKNOWN;
      managedTime, unknownTime, log := 0, 0, [];
      new;
      FirstNodes(root, program, idle, nodes, nodeSet);
      FirstFamily(root, program, idle, nodes);
    }

    /** UpdateNodeSet, and AddNodes where it found nothing: the node for a frame below a node. */
    method Descend(parentId: nat, entry: CodeInfo) returns (id: nat)
      requires Tree(nodes, nodeSet) && Ordered(nodes) && Family(nodes) && 0 < parentId <= |nodes|
      modifies `nodes, `nodeSet, `previousId
      ensures Tree(nodes, nodeSet) && Ordered(nodes) && Family(nodes) && Extends(old(nodes), nodes)
      ensures TotalHits(nodes) == TotalHits(old(nodes))
      ensures Descended(old(nodes), old(nodeSet), nodes, nodeSet, parentId, entry, id)
      ensures ROOT_NODE_ID < id <= |nodes| && Path(nodes, id) == Path(nodes, parentId) + [entry] && previousId == id
    {
      if (parentId, entry) in nodeSet {
        id := nodeSet[(parentId, entry)];
        FoundNode(nodes, nodeSet, parentId, entry);
      } else {
        id := AddNodes(parentId, entry);
      }
      previousId := id;
    }

    method AddNodes(parentId: nat, entry: CodeInfo) returns (id: nat)
      requires Tree(nodes, nodeSet) && Ordered(nodes) && Family(nodes) && 0 < parentId <= |nodes|
      requires (parentId, entry) !in nodeSet
      modifies `nodes, `nodeSet
      ensures Tree(nodes, nodeSet) && Ordered(nodes) && Family(nodes) && Extends(old(nodes), nodes)
      ensures id == |nodes| == |old(nodes)| + 1 && TotalHits(nodes) == TotalHits(old(nodes))
      ensures nodeSet == old(nodeSet)[(parentId, entry) := id]
      ensures Path(nodes, id) == Path(nodes, parentId) + [entry]
    {
      id := |nodeSet| + 1;
      var n := Node(id, parentId, entry, 0, []);
      var grown := AddChild(nodes + [n], parentId - 1, id);
      NewNode(nodes, nodeSet, n, grown);
      nodeSet := nodeSet[(parentId, entry) := id];
      nodes := grown;
    }

    /** One frame of the walk. */
    method Follow(parentId: nat, codeInfos: seq<CodeInfo>, frameSize: nat) returns (id: nat)
      requires Tree(nodes, nodeSet) && Ordered(nodes) && Family(nodes) && 0 < parentId <= |nodes|
      requires 0 < frameSize <= |codeInfos|
      modifies `nodes, `nodeSet, `previousId
      ensures Tree(nodes, nodeSet) && Ordered(nodes) && Family(nodes) && Extends(old(nodes), nodes)
      ensures |nodes| + NewFrames(nodeSet, id, Outermost(codeInfos[..frameSize - 1])) ==
              |old(nodes)| + NewFrames(old(nodeSet), parentId, Outermost(codeInfos[..frameSize]))
      ensures |nodes| <= |old(nodes)| + 1 && TotalHits(nodes) == TotalHits(old(nodes))
      ensures KeysFrom(old(nodeSet), codeInfos, nodeSet) && 0 < id <= |nodes| && previousId == id
      ensures Path(nodes, id) == Path(old(nodes), parentId) + [codeInfos[frameSize - 1]]
    {
      id := Descend(parentId, codeInfos[frameSize - 1]);
      PathKept(old(nodes), nodes, parentId);
      NeedsOneFewer(old(nodes), old(nodeSet), nodes, nodeSet, parentId, id, codeInfos, frameSize);
    }

    /** The walk of AddSample: from the root along the stack, innermost frame last.  It stores nodes at the
        indices `written`, which are within the node array if and only if the new ones fit. */
    method Walk(codeInfos: seq<CodeInfo>) returns (id: nat, ghost written: seq<int>)
      requires Tree(nodes, nodeSet) && Ordered(nodes) && Family(nodes)
      modifies `nodes, `nodeSet, `previousId
      ensures Tree(nodes, nodeSet) && Ordered(nodes) && Family(nodes) && Extends(old(nodes), nodes)
      ensures |nodes| == |old(nodes)| + NewFrames(old(nodeSet), ROOT_NODE_ID, Outermost(codeInfos))
      ensures written == Indices(|old(nodes)|, |nodes|)
      ensures |old(nodes)| <= MAX_NODE_COUNT ==> (Fits(|old(nodes)|, old(nodeSet), codeInfos) <==> InArray(written))
      ensures TotalHits(nodes) == TotalHits(old(nodes))
      ensures KeysFrom(old(nodeSet), codeInfos, nodeSet)
      ensures 0 < id <= |nodes| && Path(nodes, id) == Outermost(codeInfos) && (codeInfos != [] ==> previousId == id)
    {
      id, written := ROOT_NODE_ID, [];
      var frameSize := |codeInfos|;
      ghost var spelled: seq<CodeInfo> := [];
      ghost var needed := NewFrames(nodeSet, ROOT_NODE_ID, Outermost(codeInfos));
      ghost var size := |nodes| + needed;
      assert codeInfos[..frameSize] == codeInfos;
      while frameSize >= 1
        invariant frameSize <= |codeInfos| && 0 < id <= |nodes| && (frameSize < |codeInfos| ==> previousId == id)
        invariant Tree(nodes, nodeSet) && Ordered(nodes) && Family(nodes) && Extends(old(nodes), nodes)
        invariant needed == NewFrames(nodeSet, id, Outermost(codeInfos[..frameSize])) && |nodes| + needed == size
        invariant written == Indices(|old(nodes)|, |nodes|)
        invariant TotalHits(nodes) == TotalHits(old(nodes)) && KeysFrom(old(nodeSet), codeInfos, nodeSet)
        invariant Path(nodes, id) == spelled && Spells(spelled, codeInfos, frameSize)
      {
        ghost var before, found := nodes, nodeSet;
        SpellOne(codeInfos, frameSize, spelled);
        id := Follow(id, codeInfos, frameSize);
        ExtendsStep(old(nodes), before, nodes);
        KeysOn(old(nodeSet), codeInfos, found, nodeSet);
        written := written + Indices(|before|, |nodes|);
        OneIndex(|old(nodes)|, |before|, |nodes|);
        frameSize := frameSize - 1;
        spelled, needed := spelled + [codeInfos[frameSize]], size - |nodes|;
      }
      assert codeInfos[..0] == [];
      if |old(nodes)| <= MAX_NODE_COUNT {
        IndicesInArray(|old(nodes)|, |nodes|);
      }
    }

    /** DeleteAbnormalSample, StatisticStateTime and the time stamps. */
    method RecordTime(timeStamp: nat, timeDelta: int, state: FrameType)
      requires TimesAdd() && timeDelta == TimeDelta(timeStamp, Last())
      modifies `samples, `timeDeltas, `previousTimeStamp, `previousState, `managedTime, `unknownTime, `log
      ensures TimesAdd() && log == old(log) + [Reading(timeStamp, state)]
      ensures timeDeltas == old(timeDeltas) + [timeDelta]
      ensures samples == Corrected(old(samples), timeDelta > timeDeltaThreshold)
    {
      ghost var x := Reading(timeStamp, state);
      TimesMore(startTime, log, x, timeDeltaThreshold, timeDeltas, managedTime, unknownTime, timeDelta);
      CountTime(timeDelta, state);
      previousTimeStamp := timeStamp;
      log := log + [x];
    }

    method CountTime(timeDelta: int, state: FrameType)
      modifies `samples, `timeDeltas, `previousState, `managedTime, `unknownTime
      ensures timeDeltas == old(timeDeltas) + [timeDelta]
      ensures var managed := old(previousState) == MANAGED && timeDelta <= timeDeltaThreshold;
              && managedTime == old(managedTime) + (if managed then timeDelta else 0)
              && unknownTime == old(unknownTime) + (if managed then 0 else timeDelta)
      ensures previousState == state
      ensures samples == Corrected(old(samples), timeDelta > timeDeltaThreshold)
    {
      if timeDelta > timeDeltaThreshold {
        if |samples| > 0 {
          samples := samples[|samples| - 1 := PROGRAM_NODE_ID];
        }
        previousState := UNKNOWN;
      }
      if previousState == MANAGED {
        managedTime := managedTime + timeDelta;
      } else {
        unknownTime := unknownTime + timeDelta;
      }
      previousState := state;
      timeDeltas := timeDeltas + [timeDelta];
    }

    /** What both kinds of sample record. */
    method Record(timeStamp: nat, state: FrameType, hitId: nat, sampleId: nat)
      requires Valid() && 0 < hitId <= |nodes| && 0 < sampleId <= |nodes|
      modifies `nodes, `samples, `timeDeltas, `previousTimeStamp, `previousState, `managedTime, `unknownTime, `log
      ensures Valid() && Extends(old(nodes), nodes) && |nodes| == |old(nodes)|
      ensures timeDeltas == old(timeDeltas) + [TimeDelta(timeStamp, old(Last()))]
      ensures samples == Corrected(old(samples), TimeDelta(timeStamp, old(Last())) > timeDeltaThreshold) + [sampleId]
      ensures log == old(log) + [Reading(timeStamp, state)]
    {
      var before := if previousTimeStamp == 0 then startTime else previousTimeStamp;
      var timeDelta := TimeDelta(timeStamp, before);
      CorrectedBelow(samples, timeDelta > timeDeltaThreshold, |nodes|, sampleId);
      RecordTime(timeStamp, timeDelta, state);
      CountHit(hitId);
      samples := samples + [sampleId];
    }

    method CountHit(id: nat)
      requires Tree(nodes, nodeSet) && Ordered(nodes) && Family(nodes) && 0 < id <= |nodes|
      modifies `nodes
      ensures Tree(nodes, nodeSet) && Ordered(nodes) && Family(nodes) && Extends(old(nodes), nodes) &&
              |nodes| == |old(nodes)|
      ensures TotalHits(nodes) == TotalHits(old(nodes)) + 1
    {
      HitKeepsTree(nodes, nodeSet, id);
      HitKeepsFamily(nodes, id);
      HitOne(nodes, id - 1, Hit(nodes, id)[id - 1]);
      nodes := Hit(nodes, id);
    }

    /** AddSample: the sample's node spells its stack.  Nothing is recorded once the node array is full;
        before, what the stack adds must fit, which the profiler does not test. */
    method AddSample(timeStamp: nat, codeInfos: seq<CodeInfo>)
      requires Valid() && codeInfos != [] && (|nodes| >= MAX_NODE_COUNT || Fits(|nodes|, nodeSet, codeInfos))
      modifies this
      ensures Valid() && Extends(old(nodes), nodes) && startTime == old(startTime)
      ensures |old(nodes)| >= MAX_NODE_COUNT ==> unchanged(this)
      ensures |old(nodes)| < MAX_NODE_COUNT ==>
                && |nodes| <= MAX_NODE_COUNT
                && |nodes| == |old(nodes)| + NewFrames(old(nodeSet), ROOT_NODE_ID, Outermost(codeInfos))
                && KeysFrom(old(nodeSet), codeInfos, nodeSet)
                && |samples| == |old(samples)| + 1 && Path(nodes, samples[|samples| - 1]) == Outermost(codeInfos)
                && samples[..|samples| - 1] ==
                   Corrected(old(samples), TimeDelta(timeStamp, old(Last())) > timeDeltaThreshold)
                && log == old(log) + [Reading(timeStamp, codeInfos[0].frameType)]
    {
      ghost var was := nodes;
      if |nodes| >= MAX_NODE_COUNT {
        return;
      }
      var id, _ := Walk(codeInfos);
      ghost var walked := nodes;
      var sampleId := if previousId == 0 then ROOT_NODE_ID else id;
      Record(timeStamp, codeInfos[0].frameType, sampleId, sampleId);
      ExtendsStep(was, walked, nodes);
      PathKept(walked, nodes, sampleId);
    }

    /** AddEmptySample: an empty stack is shown as idle time, though it is the root that counts the hit. */
    method AddEmptySample(timeStamp: nat)
      requires Valid()
      modifies this
      ensures Valid() && Extends(old(nodes), nodes) && startTime == old(startTime)
      ensures log == old(log) + [Reading(timeStamp, UNKNOWN)]
      ensures samples ==
              Corrected(old(samples), TimeDelta(timeStamp, old(Last())) > timeDeltaThreshold) + [IDLE_NODE_ID]
    {
      Record(timeStamp, UNKNOWN, ROOT_NODE_ID, IDLE_NODE_ID);
    }

    /** Samples' ids tell stacks apart: two have the same id exactly when they have the same stack. */
    lemma SameIdSameStack(a: nat, b: nat)
      requires Valid() && 0 < a <= |nodes| && 0 < b <= |nodes|
      ensures a == b <==> Path(nodes, a) == Path(nodes, b)
    {
      if Path(nodes, a) == Path(nodes, b) {
        PathsDiffer(nodes, nodeSet, a, b);
      }
    }

    /** The totals reconcile: hits are samples, and managed and other time make up the time from the start to
        the last sample but for what the deltas miss, which is nothing on a steady run and whole multiples of
        2^32 on any run without time stamps of 0. */
    lemma TotalsReconcile()
      requires Valid()
      ensures TotalHits(nodes) == |samples|
      ensures managedTime + unknownTime == Last() - startTime - Missed(startTime, log)
      ensures managedTime + unknownTime == Last() - startTime <==> Missed(startTime, log) == 0
      ensures Steady(startTime, log) ==> managedTime + unknownTime == Last() - startTime
      ensures (forall i :: 0 <= i < |log| ==> log[i].timeStamp > 0) ==> Missed(startTime, log) % 0x1_0000_0000 == 0
    {
      DeltasAddUp(startTime, log);
      if Steady(startTime, log) {
        SteadyMissesNothing(startTime, log);
      }
      if forall i :: 0 <= i < |log| ==> log[i].timeStamp > 0 {
        MissesWholeWraps(startTime, log);
      }
    }
  }

  /** A frame that was not found took one of the nodes the stack needs. */
  lemma NeedsOneFewer(nodes: seq<Node>, nodeSet: NodeSet, nodes': seq<Node>, nodeSet': NodeSet, parentId: nat, id: nat,
                      stack: seq<CodeInfo>, k: nat)
    requires 0 < k <= |stack| && Tree(nodes', nodeSet')
    requires Descended(nodes, nodeSet, nodes', nodeSet', parentId, stack[k - 1], id)
    ensures |nodes'| + NewFrames(nodeSet', id, Outermost(stack[..k - 1])) ==
            |nodes| + NewFrames(nodeSet, parentId, Outermost(stack[..k]))
  {
    var rest := Outermost(stack[..k - 1]);
    assert stack[..k][..k - 1] == stack[..k - 1];
    assert Outermost(stack[..k])[1..] == rest;
    if (parentId, stack[k - 1]) !in nodeSet {
      AllNewBelow(nodes', nodeSet', rest);
    }
  }

  /** What the set has come to find are frames of the stack. */
  ghost predicate KeysFrom(nodeSet: NodeSet, stack: seq<CodeInfo>, nodeSet': NodeSet) {
    forall k :: k in nodeSet' ==> k in nodeSet || k.1 in stack
  }

  lemma KeysOn(first: NodeSet, stack: seq<CodeInfo>, nodeSet: NodeSet, nodeSet': NodeSet)
    requires KeysFrom(first, stack, nodeSet) && KeysFrom(nodeSet, stack, nodeSet')
    ensures KeysFrom(first, stack, nodeSet')
  {
  }

  /** The first k frames are still to be followed. */
  ghost predicate Spells(spelled: seq<CodeInfo>, stack: seq<CodeInfo>, k: nat)
    requires k <= |stack|
  {
    spelled + Outermost(stack[..k]) == Outermost(stack)
  }

  lemma SpellOne(stack: seq<CodeInfo>, k: nat, spelled: seq<CodeInfo>)
    requires 0 < k <= |stack| && Spells(spelled, stack, k)
    ensures Spells(spelled + [stack[k - 1]], stack, k - 1)
  {
    assert stack[..k][..k - 1] == stack[..k - 1];
    assert spelled + ([stack[k - 1]] + Outermost(stack[..k - 1])) ==
           spelled + [stack[k - 1]] + Outermost(stack[..k - 1]);
  }

  /** After too long a pause, the sample before it is put down to the program. */
  function Corrected(samples: seq<nat>, abnormal: bool): seq<nat> {
    if abnormal && samples != [] then samples[|samples| - 1 := PROGRAM_NODE_ID] else samples
  }

  function Hit(nodes: seq<Node>, id: nat): seq<Node>
    requires 0 < id <= |nodes|
  {
    nodes[id - 1 := nodes[id - 1].(hits := nodes[id - 1].hits + 1)]
  }

  ghost predicate AllBelow(ids: seq<nat>, n: nat) {
    forall i :: 0 <= i < |ids| ==> 0 < ids[i] <= n
  }

  lemma CorrectedBelow(samples: seq<nat>, abnormal: bool, n: nat, id: nat)
    requires AllBelow(samples, n) && n >= PROGRAM_NODE_ID && 0 < id <= n
    ensures |Corrected(samples, abnormal)| == |samples| && AllBelow(Corrected(samples, abnormal) + [id], n)
  {
  }

  lemma HitKeepsTree(nodes: seq<Node>, nodeSet: NodeSet, id: nat)
    requires Tree(nodes, nodeSet) && 0 < id <= |nodes|
    ensures Tree(Hit(nodes, id), nodeSet) && Ordered(Hit(nodes, id)) && Extends(nodes, Hit(nodes, id))
  {
    var nodes' := Hit(nodes, id);
    forall i | 0 <= i < |nodes'| ensures Placed(nodes', nodeSet, i) {
      assert Placed(nodes, nodeSet, i);
    }
    forall k | k in nodeSet ensures Listed(nodes', k, nodeSet[k]) {
      assert Listed(nodes, k, nodeSet[k]);
    }
    TreeIsOrdered(nodes', nodeSet);
  }

  lemma HitKeepsFamily(nodes: seq<Node>, id: nat)
    requires Family(nodes) && 0 < id <= |nodes|
    ensures Family(Hit(nodes, id))
  {
    var nodes' := Hit(nodes, id);
    forall p, c: nat {:trigger c in nodes'[p].children} | 0 <= p < |nodes'|
      ensures c in nodes'[p].children <==> 0 < c <= |nodes'| && nodes'[c - 1].parentId == p + 1
    {
      assert c in nodes[p].children <==> 0 < c <= |nodes| && nodes[c - 1].parentId == p + 1;
    }
  }

  lemma FoundNode(nodes: seq<Node>, nodeSet: NodeSet, parentId: nat, entry: CodeInfo)
    requires Tree(nodes, nodeSet) && Ordered(nodes) && 0 < parentId <= |nodes| && (parentId, entry) in nodeSet
    ensures var id := nodeSet[(parentId, entry)];
            ROOT_NODE_ID < id <= |nodes| && Path(nodes, id) == Path(nodes, parentId) + [entry]
  {
    assert Listed(nodes, (parentId, entry), nodeSet[(parentId, entry)]);
    assert Placed(nodes, nodeSet, 0);
  }

  /** Adding a node keeps the tree and the total of hits. */
  lemma NewNode(nodes: seq<Node>, nodeSet: NodeSet, n: Node, grown: seq<Node>)
    requires Tree(nodes, nodeSet) && Family(nodes) && 0 < n.parentId <= |nodes| && (n.parentId, n.entry) !in nodeSet
    requires n.id == |nodes| + 1 && n.children == [] && n.hits == 0 &&
             grown == AddChild(nodes + [n], n.parentId - 1, n.id)
    ensures Tree(grown, nodeSet[(n.parentId, n.entry) := n.id]) && Ordered(grown) && Family(grown) &&
            Extends(nodes, grown)
    ensures TotalHits(grown) == TotalHits(nodes) && Path(grown, n.id) == Path(grown, n.parentId) + [n.entry]
  {
    TreeGrows(nodes, nodeSet, n);
    TreeIsOrdered(grown, nodeSet[(n.parentId, n.entry) := n.id]);
    forall i | 0 <= i < |nodes| ensures nodes[i].parentId <= |nodes| {
      assert Placed(nodes, nodeSet, i);
    }
    FamilyGrows(nodes, n);
    HitNew(nodes, n);
    HitOne(nodes + [n], n.parentId - 1, grown[n.parentId - 1]);
  }

  lemma FirstNodes(root: CodeInfo, program: CodeInfo, idle: CodeInfo, nodes: seq<Node>, nodeSet: NodeSet)
    requires program != idle
    requires nodes == [Node(1, 0, root, 0, [2, 3]), Node(2, 1, program, 0, []), Node(3, 1, idle, 0, [])]
    requires nodeSet == map[(0, root) := 1, (1, program) := 2, (1, idle) := 3]
    ensures Tree(nodes, nodeSet) && Ordered(nodes) && TotalHits(nodes) == 0
  {
    assert nodeSet.Keys == {(0, root), (1, program), (1, idle)};
    assert |nodeSet.Keys| == 3;
    assert Placed(nodes, nodeSet, 0) && Placed(nodes, nodeSet, 1) && Placed(nodes, nodeSet, 2);
    HitNew([], nodes[0]);
    HitNew([nodes[0]], nodes[1]);
    HitNew([nodes[0], nodes[1]], nodes[2]);
    assert nodes == [nodes[0], nodes[1]] + [nodes[2]];
  }

  lemma FirstFamily(root: CodeInfo, program: CodeInfo, idle: CodeInfo, nodes: seq<Node>)
    requires nodes == [Node(1, 0, root, 0, [2, 3]), Node(2, 1, program, 0, []), Node(3, 1, idle, 0, [])]
    ensures Family(nodes)
  {
  }
}
