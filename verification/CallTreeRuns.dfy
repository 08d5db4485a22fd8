/** Whole profiling runs: what the samples of a run mean, and how the node array can overrun. */
module CallTreeRuns {
  import opened CallTree

  /** One sample taken: its time and its stack, innermost frame first; empty for an idle thread. */
  datatype SampleTask = SampleTask(timeStamp: nat, stack: seq<CodeInfo>)

  function Stacks(tasks: seq<SampleTask>): seq<seq<CodeInfo>> {
    seq(|tasks|, i requires 0 <= i < |tasks| => tasks[i].stack)
  }

  /** What the samples add to the times: an idle thread's state is unknown. */
  function Readings(tasks: seq<SampleTask>): seq<Reading> {
    seq(|tasks|, i requires 0 <= i < |tasks| => ReadingOf(tasks[i]))
  }

  function ReadingOf(task: SampleTask): Reading {
    Reading(task.timeStamp, if task.stack == [] then UNKNOWN else task.stack[0].frameType)
  }

  /** A sample is put down to the program, or to idling if its stack was empty, or spells its stack. */
  ghost predicate Means(nodes: seq<Node>, sample: nat, stack: seq<CodeInfo>)
    requires Ordered(nodes) && 0 < sample <= |nodes|
  {
    || sample == PROGRAM_NODE_ID
    || (if stack == [] then sample == IDLE_NODE_ID else Path(nodes, sample) == Outermost(stack))
  }

  ghost predicate AllMean(nodes: seq<Node>, samples: seq<nat>, stacks: seq<seq<CodeInfo>>) {
    && Ordered(nodes) && AllBelow(samples, |nodes|) && |samples| == |stacks|
    && forall i {:trigger samples[i]} :: 0 <= i < |samples| ==> Means(nodes, samples[i], stacks[i])
  }

  lemma MeaningKept(nodes: seq<Node>, samples: seq<nat>, stacks: seq<seq<CodeInfo>>, nodes': seq<Node>, abnormal: bool)
    requires AllMean(nodes, samples, stacks) && Ordered(nodes') && Extends(nodes, nodes') && |nodes'| >= PROGRAM_NODE_ID
    ensures AllMean(nodes', Corrected(samples, abnormal), stacks)
  {
    var samples' := Corrected(samples, abnormal);
    forall i {:trigger samples'[i]} | 0 <= i < |samples'|
      ensures 0 < samples'[i] <= |nodes'| && Means(nodes', samples'[i], stacks[i])
    {
      assert 0 < samples[i] <= |nodes| && Means(nodes, samples[i], stacks[i]);
      PathKept(nodes, nodes', samples[i]);
    }
  }

  lemma MeaningMore(nodes: seq<Node>, samples: seq<nat>, stacks: seq<seq<CodeInfo>>, samples': seq<nat>,
                    stack: seq<CodeInfo>)
    requires AllMean(nodes, samples, stacks) && |samples'| == |samples| + 1 && samples'[..|samples|] == samples
    requires 0 < samples'[|samples|] <= |nodes| && Means(nodes, samples'[|samples|], stack)
    ensures AllMean(nodes, samples', stacks + [stack])
  {
    forall i {:trigger samples'[i]} | 0 <= i < |samples'|
      ensures 0 < samples'[i] <= |nodes| && Means(nodes, samples'[i], (stacks + [stack])[i])
    {
      if i < |samples| {
        assert samples'[i] == samples'[..|samples|][i] == samples[i];
      }
    }
  }

  /** One task, unless its stack would overrun the node array; `kept` says whether it left a sample. */
  method Take(p: ProfileInfo, task: SampleTask, ghost stacks: seq<seq<CodeInfo>>) returns (ghost kept: bool)
    requires p.Valid() && AllMean(p.nodes, p.samples, stacks)
    requires task.stack == [] || |p.nodes| >= MAX_NODE_COUNT || Fits(|p.nodes|, p.nodeSet, task.stack)
    modifies p
    ensures p.Valid() && |old(p.nodes)| <= |p.nodes| && p.startTime == old(p.startTime)
    ensures AllMean(p.nodes, p.samples, if kept then stacks + [task.stack] else stacks)
    ensures p.log == if kept then old(p.log) + [ReadingOf(task)] else old(p.log)
    ensures kept <==> task.stack == [] || |old(p.nodes)| < MAX_NODE_COUNT
  {
    kept := task.stack == [] || |p.nodes| < MAX_NODE_COUNT;
    ghost var nodes, samples, last := p.nodes, p.samples, p.Last();
    if task.stack == [] {
      p.AddEmptySample(task.timeStamp);
    } else {
      p.AddSample(task.timeStamp, task.stack);
    }
    if kept {
      ghost var abnormal := TimeDelta(task.timeStamp, last) > p.timeDeltaThreshold;
      MeaningKept(nodes, samples, stacks, p.nodes, abnormal);
      assert 0 < p.samples[|p.samples| - 1] <= |p.nodes|;
      MeaningMore(p.nodes, Corrected(samples, abnormal), stacks, p.samples, task.stack);
    }
  }

  lemma TakenMore(tasks: seq<SampleTask>, n: nat)
    requires n < |tasks|
    ensures Stacks(tasks[..n + 1]) == Stacks(tasks[..n]) + [tasks[n].stack]
    ensures Readings(tasks[..n + 1]) == Readings(tasks[..n]) + [ReadingOf(tasks[n])]
  {
  }

  /** A whole run, up to the first sample that would overrun the node array.  Every sample recorded is put
      down to the program or spells its own stack, so ids tell stacks apart; hits and times add up.  As
      long as the node array has room, no sample is left out. */
  method Profile(startTime: nat, threshold: int, tasks: seq<SampleTask>)
    returns (p: ProfileInfo, done: nat, ghost stacks: seq<seq<CodeInfo>>)
    ensures p.Valid() && done <= |tasks| && AllMean(p.nodes, p.samples, stacks)
    ensures |p.nodes| < MAX_NODE_COUNT ==> stacks == Stacks(tasks[..done]) && p.log == Readings(tasks[..done])
    ensures done < |tasks| ==>
              tasks[done].stack != [] && |p.nodes| < MAX_NODE_COUNT && !Fits(|p.nodes|, p.nodeSet, tasks[done].stack)
    ensures TotalHits(p.nodes) == |stacks| && p.managedTime == ManagedTime(startTime, p.log, threshold)
    ensures p.managedTime + p.unknownTime == Before(startTime, p.log) - startTime - Missed(startTime, p.log)
    ensures TellStacks(p.samples, stacks)
  {
    p := new ProfileInfo(startTime, threshold);
    done, stacks := 0, [];
    while done < |tasks|
      invariant fresh(p) && p.Valid() && done <= |tasks| && AllMean(p.nodes, p.samples, stacks)
      invariant p.startTime == startTime && p.timeDeltaThreshold == threshold
      invariant |p.nodes| < MAX_NODE_COUNT ==> stacks == Stacks(tasks[..done]) && p.log == Readings(tasks[..done])
    {
      var task := tasks[done];
      if task.stack != [] && |p.nodes| < MAX_NODE_COUNT && !Fits(|p.nodes|, p.nodeSet, task.stack) {
        break;
      }
      ghost var kept := Take(p, task, stacks);
      if kept {
        stacks := stacks + [task.stack];
      }
      TakenMore(tasks, done);
      done := done + 1;
    }
    SamplesTellStacks(p, stacks);
    p.TotalsReconcile();
  }

  /** The sample was not put down to the program, and its stack was not empty. */
  predicate Own(sample: nat, stack: seq<CodeInfo>) { sample != PROGRAM_NODE_ID && stack != [] }

  /** Among such samples, ids are equal exactly when stacks are. */
  ghost predicate TellStacks(samples: seq<nat>, stacks: seq<seq<CodeInfo>>)
    requires |samples| == |stacks|
  {
    forall i, j {:trigger samples[i], samples[j]} :: 0 <= i < |samples| && 0 <= j < |samples| ==>
      Own(samples[i], stacks[i]) && Own(samples[j], stacks[j]) ==>
        (samples[i] == samples[j] <==> stacks[i] == stacks[j])
  }

  lemma SamplesTellStacks(p: ProfileInfo, stacks: seq<seq<CodeInfo>>)
    requires p.Valid() && AllMean(p.nodes, p.samples, stacks)
    ensures TellStacks(p.samples, stacks)
  {
    forall i, j | 0 <= i < |p.samples| && 0 <= j < |p.samples|
                  && Own(p.samples[i], stacks[i]) && Own(p.samples[j], stacks[j])
      ensures p.samples[i] == p.samples[j] <==> stacks[i] == stacks[j]
    {
      p.SameIdSameStack(p.samples[i], p.samples[j]);
      if Outermost(stacks[i]) == Outermost(stacks[j]) {
        OutermostTells(stacks[i], stacks[j]);
      }
    }
  }

  lemma {:induction false} OutermostTells(a: seq<CodeInfo>, b: seq<CodeInfo>)
    requires Outermost(a) == Outermost(b)
    ensures a == b
  {
    if a != [] && b != [] {
      var m, n := |a| - 1, |b| - 1;
      assert Outermost(a)[1..] == Outermost(a[..m]) && Outermost(b)[1..] == Outermost(b[..n]);
      OutermostTells(a[..m], b[..n]);
      assert a == a[..m] + [a[m]] && b == b[..n] + [b[n]];
    }
  }

  // ---------------------------------------------------------------- the node array overruns

  function Frame(line: nat): CodeInfo {
    CodeInfo(MANAGED, 0, "f", line)
  }

  /** A profile of 19999 nodes, reached by samples of one frame each, and a stack of two new frames: the
      profiler's test lets the sample in, and it needs 20001 nodes. */
  method NearlyFull() returns (p: ProfileInfo, stack: seq<CodeInfo>)
    ensures p.Valid() && |p.nodes| == MAX_NODE_COUNT - 1 && |stack| == 2 && !Fits(|p.nodes|, p.nodeSet, stack)
  {
    p := new ProfileInfo(0, 1000);
    var n := 0;
    while n < MAX_NODE_COUNT - 1 - IDLE_NODE_ID
      invariant fresh(p) && p.Valid() && n <= MAX_NODE_COUNT - 1 - IDLE_NODE_ID && |p.nodes| == IDLE_NODE_ID + n
      invariant forall k :: k in p.nodeSet ==> k.1.line <= n
    {
      n := n + 1;
      assert Outermost([Frame(n)]) == [Frame(n)] + Outermost([]);
      p.AddSample(n, [Frame(n)]);
    }
    stack := [Frame(n + 2), Frame(n + 1)];
    assert stack[..1] == [Frame(n + 2)] && Outermost(stack[..1]) == [Frame(n + 2)] + Outermost([]);
    assert Outermost(stack) == [Frame(n + 1), Frame(n + 2)];
  }
}
