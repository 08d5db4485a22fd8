/** The collector's mark stack: a doubly linked chain of 64-slot buffers that behaves as one sequence. */
module MarkStack {
  import opened Lists

  const MAX := 64

  /** An object's address. */
  type Obj = nat

  const NULL: Obj := 0

  class Buf {
    var next: Buf?
    var pre: Buf?
    var count: nat
    var stack: seq<Obj>   // the slots, of which the first `count` are in use

    /** The entries are `items`. */
    ghost predicate Holds(items: seq<Obj>)
      reads `stack, `count
    {
      |stack| == MAX && count == |items| <= MAX && stack[..count] == items
    }

    constructor ()
      ensures next == null && pre == null && Holds([])
    {
      next, pre, count := null, null, 0;
      stack := seq(MAX, _ => NULL);
    }

    method PushBack(x: Obj, ghost items: seq<Obj>)
      requires Holds(items) && count < MAX
      modifies `stack, `count
      ensures Holds(items + [x])
    {
      stack := stack[count := x];
      count := count + 1;
    }

    method PopBack(ghost items: seq<Obj>)
      requires Holds(items) && count > 0
      modifies `count
      ensures Holds(items[..|items| - 1])
    {
      count := count - 1;
    }
  }

  // ---------------------------------------------------------------- chains

  ghost function First(bufs: seq<Buf>): Buf? {
    if bufs == [] then null else bufs[0]
  }

  ghost function Last(bufs: seq<Buf>): Buf? {
    if bufs == [] then null else bufs[|bufs| - 1]
  }

  /** Each buffer's `next` is the one after it; the last one's is `end`. */
  ghost predicate NextLinked(bufs: seq<Buf>, end: Buf?)
    reads bufs`next
  {
    bufs != [] ==> bufs[|bufs| - 1].next == end && NextLinked(bufs[..|bufs| - 1], bufs[|bufs| - 1])
  }

  /** Each buffer's `pre` is the one before it; the first one's is `start`. */
  ghost predicate PreLinked(bufs: seq<Buf>, start: Buf?)
    reads bufs`pre
  {
    bufs != [] ==> bufs[0].pre == start && PreLinked(bufs[1..], bufs[0])
  }

  /** No buffer is in both. */
  ghost predicate Apart(a: seq<Buf>, b: seq<Buf>) {
    b != [] ==> b[|b| - 1] !in a && Apart(a, b[..|b| - 1])
  }

  /** Each buffer holds its part, which is 1 to 64 entries. */
  ghost predicate Filled(bufs: seq<Buf>, parts: seq<seq<Obj>>)
    reads bufs`stack, bufs`count
  {
    |parts| == |bufs| &&
    (bufs != [] ==>
       var n := |bufs| - 1;
       bufs[n].Holds(parts[n]) && parts[n] != [] && Filled(bufs[..n], parts[..n]))
  }

  ghost predicate Chain(bufs: seq<Buf>, parts: seq<seq<Obj>>)
    reads bufs
  {
    NoDup(bufs) && NextLinked(bufs, null) && PreLinked(bufs, null) && Filled(bufs, parts)
  }

  /** The entries, oldest buffer first. */
  ghost function Entries(parts: seq<seq<Obj>>): seq<Obj> {
    if parts == [] then [] else Entries(parts[..|parts| - 1]) + parts[|parts| - 1]
  }

  lemma {:induction false} EntriesJoin(a: seq<seq<Obj>>, b: seq<seq<Obj>>)
    ensures Entries(a + b) == Entries(a) + Entries(b)
  {
    if b == [] {
      assert a + b == a;
    } else {
      EntriesJoin(a, b[..|b| - 1]);
      assert (a + b)[..|a + b| - 1] == a + b[..|b| - 1];
    }
  }

  lemma {:induction false} NextJoin(a: seq<Buf>, b: seq<Buf>, end: Buf?)
    requires b != []
    ensures NextLinked(a + b, end) <==> NextLinked(a, b[0]) && NextLinked(b, end)
  {
    var n := |b| - 1;
    assert (a + b)[..|a + b| - 1] == a + b[..n];
    if n == 0 {
      assert a + b[..n] == a;
    } else {
      NextJoin(a, b[..n], b[n]);
    }
  }

  lemma {:induction false} PreJoin(a: seq<Buf>, b: seq<Buf>, start: Buf?)
    requires a != []
    ensures PreLinked(a + b, start) <==> PreLinked(a, start) && PreLinked(b, a[|a| - 1])
  {
    assert (a + b)[1..] == a[1..] + b;
    if |a| == 1 {
      assert a[1..] + b == b;
    } else {
      PreJoin(a[1..], b, a[0]);
    }
  }

  lemma {:induction false} FilledJoin(a: seq<Buf>, p: seq<seq<Obj>>, b: seq<Buf>, q: seq<seq<Obj>>)
    requires |a| == |p| && |b| == |q|
    ensures Filled(a + b, p + q) <==> Filled(a, p) && Filled(b, q)
  {
    if b == [] {
      assert a + b == a && p + q == p;
    } else {
      var n := |b| - 1;
      FilledJoin(a, p, b[..n], q[..n]);
      assert (a + b)[..|a + b| - 1] == a + b[..n];
      assert (p + q)[..|p + q| - 1] == p + q[..n];
    }
  }

  lemma DistinctJoin(a: seq<Buf>, b: seq<Buf>)
    ensures NoDup(a + b) <==> NoDup(a) && NoDup(b) && Apart(a, b)
  {
    ApartIs(a, b);
    if NoDup(a + b) {
      NoDupParts(a + b, |a|);
      assert (a + b)[..|a|] == a && (a + b)[|a|..] == b;
    }
    if NoDup(a) && NoDup(b) && Apart(a, b) {
      NoDupJoin(a, b);
    }
  }

  lemma {:induction false} ApartIs(a: seq<Buf>, b: seq<Buf>)
    ensures Apart(a, b) <==> forall x :: x in a ==> x !in b
  {
    if b != [] {
      var n := |b| - 1;
      ApartIs(a, b[..n]);
      assert forall x :: x in b <==> x in b[..n] || x == b[n];
    }
  }

  lemma {:induction false} ApartMeans(a: seq<Buf>, b: seq<Buf>, x: Buf)
    requires Apart(a, b) && x in b
    ensures x !in a
  {
    if x != b[|b| - 1] {
      ApartMeans(a, b[..|b| - 1], x);
    }
  }

  lemma DistinctEnds(s: seq<Buf>)
    requires NoDup(s) && s != []
    ensures s[0] !in s[1..] && s[|s| - 1] !in s[..|s| - 1]
  {
    NoDupParts(s, 1);
    NoDupParts(s, |s| - 1);
    assert s[0] in s[..1] && s[|s| - 1] in s[|s| - 1..];
  }

  lemma {:induction false} LastApart(a: seq<Buf>, b: seq<Buf>)
    requires Apart(a, b) && a != []
    ensures a[|a| - 1] !in b
  {
    if b != [] {
      LastApart(a, b[..|b| - 1]);
    }
  }

  /** Linking the last buffer of one chain and the first of another makes them one. */
  method Join(ghost a: seq<Buf>, ghost p: seq<seq<Obj>>, ghost b: seq<Buf>, ghost q: seq<seq<Obj>>, left: Buf,
              right: Buf)
    requires Chain(a, p) && Chain(b, q) && a != [] && b != [] && left == Last(a) && right == First(b)
    requires Apart(a, b)
    modifies left`next, right`pre
    ensures Chain(a + b, p + q)
  {
    DistinctEnds(a);
    DistinctEnds(b);
    ghost var init, rest := a[..|a| - 1], b[1..];
    assert NextLinked(init, left) && PreLinked(rest, right);
    LastApart(a, b);
    ApartMeans(a, b, right);
    right.pre := left;
    left.next := right;
    assert NextLinked(init, left) && NextLinked(b, null);
    assert PreLinked(rest, right) && PreLinked(a, null);
    assert NextLinked(a, right) && PreLinked(b, left);
    DistinctJoin(a, b);
    FilledJoin(a, p, b, q);
    NextJoin(a, b, null);
    PreJoin(a, b, null);
  }

  /** Unlinking two neighbours makes two chains. */
  method Cut(ghost a: seq<Buf>, ghost p: seq<seq<Obj>>, ghost b: seq<Buf>, ghost q: seq<seq<Obj>>, left: Buf,
             right: Buf)
    requires NoDup(a + b) && NextLinked(a + b, null) && PreLinked(a + b, null) && Filled(a, p) && |b| == |q|
    requires a != [] && b != [] && left == Last(a) && right == First(b)
    modifies left`next, right`pre
    ensures Chain(a, p) && NoDup(b) && NextLinked(b, null) && PreLinked(b, null)
  {
    DistinctJoin(a, b);
    DistinctEnds(a);
    DistinctEnds(b);
    NextJoin(a, b, null);
    PreJoin(a, b, null);
    ghost var init, rest := a[..|a| - 1], b[1..];
    assert NextLinked(init, left) && PreLinked(rest, right);
    LastApart(a, b);
    ApartMeans(a, b, right);
    right.pre := null;
    left.next := null;
    assert NextLinked(init, left) && NextLinked(b, null);
    assert PreLinked(rest, right) && PreLinked(a, null);
  }

  // ---------------------------------------------------------------- the stack

  class Stack {
    var h: Buf?
    var t: Buf?
    var s: nat
    ghost var bufs: seq<Buf>
    ghost var parts: seq<seq<Obj>>

    ghost predicate Valid()
      reads this, bufs
    {
      Chain(bufs, parts) && s == |bufs| && h == First(bufs) && t == Last(bufs)
    }

    ghost function Contents(): seq<Obj>
      reads this
    {
      Entries(parts)
    }

    constructor ()
      ensures Valid() && Contents() == []
    {
      h, t, s, bufs, parts := null, null, 0, [], [];
    }

    predicate Empty()
      reads this
    {
      s == 0 && h == null && t == null
    }

    /** MarkStack::push, of a buffer with its first entry in it. */
    method Push(buf: Buf, ghost items: seq<Obj>)
      requires Valid() && Apart(bufs, [buf]) && buf.next == null && buf.pre == null && buf.Holds(items) && items != []
      modifies this, buf, bufs
      ensures Valid() && bufs == old(bufs) + [buf] && parts == old(parts) + [items]
    {
      assert [buf][..0] == [] && [buf][1..] == [] && [items][..0] == [];
      if Empty() {
        h, t, s := buf, buf, s + 1;
      } else {
        Join(bufs, parts, [buf], [items], t, buf);
        t, s := buf, s + 1;
      }
      bufs, parts := bufs + [buf], parts + [items];
    }

    /** MarkStack::pop. */
    method Pop(ghost a: seq<Buf>, ghost p: seq<seq<Obj>>)
      requires t != null && bufs == a + [t] && s == |bufs| && h == First(bufs)
      requires NoDup(bufs) && NextLinked(bufs, null) && PreLinked(bufs, null) && Filled(a, p)
      modifies this, bufs
      ensures Valid() && bufs == a && parts == p
    {
      var res := t;
      if a != [] {
        PreJoin(a, [t], null);
      }
      t := t.pre;
      if t != null {
        Cut(a, p, [res], [[]], t, res);
      } else {
        h := null;
      }
      res.pre := null;
      s := s - 1;
      bufs, parts := a, p;
    }

    /** MarkStack::push_back. */
    method PushBack(value: Obj)
      requires Valid()
      modifies this, bufs
      ensures Valid() && Contents() == old(Contents()) + [value]
      ensures |old(bufs)| <= |bufs| && bufs[..|old(bufs)|] == old(bufs) && fresh(bufs[|old(bufs)|..])
    {
      if t == null || t.count == MAX {
        var buf := new Buf();
        buf.PushBack(value, []);
        EntriesJoin(parts, [[value]]);
        Push(buf, [value]);
      } else {
        PushInLast(value);
      }
    }

    method PushInLast(value: Obj)
      requires Valid() && t != null && t.count < MAX
      modifies this, t
      ensures Valid() && Contents() == old(Contents()) + [value] && bufs == old(bufs)
    {
      ghost var n := |parts| - 1;
      ghost var init, last := parts[..n], parts[n];
      DistinctEnds(bufs);
      t.PushBack(value, last);
      parts := init + [last + [value]];
      assert parts[..n] == init;
    }

    /** MarkStack::back. */
    method Back() returns (x: Obj)
      requires Valid()
      ensures x == if Contents() == [] then NULL else Contents()[|Contents()| - 1]
    {
      if t == null {
        return NULL;
      }
      x := t.stack[t.count - 1];
    }

    /** MarkStack::pop_back. */
    method PopBack()
      requires Valid() && !Empty()
      modifies this, bufs
      ensures Valid() && old(Contents()) != [] && Contents() == old(Contents())[..|old(Contents())| - 1]
      ensures |bufs| <= |old(bufs)| && bufs == old(bufs)[..|bufs|]
    {
      ghost var n := |parts| - 1;
      ghost var a, init, last := bufs[..n], parts[..n], parts[n];
      DistinctEnds(bufs);
      t.PopBack(last);
      assert bufs == a + [t];
      if t.count == 0 {
        Pop(a, init);
      } else {
        parts := init + [last[..|last| - 1]];
        assert parts[..n] == init;
      }
    }

    /** MarkStack::insert: the other stack's buffers are taken over as they are. */
    method Insert(other: Stack)
      requires Valid() && other.Valid() && other != this && Apart(bufs, other.bufs)
      modifies this, other, t, other.h
      ensures Valid() && bufs == old(bufs) + old(other.bufs) && Contents() == old(Contents()) + old(other.Contents())
      ensures other.Valid() && other.bufs == []
    {
      EntriesJoin(parts, other.parts);
      if other.Empty() {
        assert bufs + other.bufs == bufs && parts + other.parts == parts;
        return;
      }
      if h == null {
        TakeOver(other.bufs, other.parts, other.h, other.t, other.s);
      } else {
        Append(other.bufs, other.parts, other.h, other.t, other.s);
      }
      other.Clean();
    }

    method TakeOver(ghost b: seq<Buf>, ghost q: seq<seq<Obj>>, head: Buf, tail: Buf, size: nat)
      requires Valid() && h == null && Chain(b, q) && head == First(b) && tail == Last(b) && size == |b|
      modifies this
      ensures Valid() && bufs == old(bufs) + b && parts == old(parts) + q
    {
      h, t, s, bufs, parts := head, tail, size, b, q;
    }

    method Append(ghost b: seq<Buf>, ghost q: seq<seq<Obj>>, head: Buf, tail: Buf, size: nat)
      requires Valid() && h != null && Chain(b, q) && Apart(bufs, b) && head == First(b) && tail == Last(b) &&
               size == |b|
      modifies this, t, head
      ensures Valid() && bufs == old(bufs) + b && parts == old(parts) + q
    {
      var left := t;
      t, s := tail, s + size;
      Join(bufs, parts, b, q, left, head);
      bufs, parts := bufs + b, parts + q;
    }

    /** MarkStack::clean. */
    method Clean()
      modifies this
      ensures Valid() && bufs == []
    {
      h, t, s, bufs, parts := null, null, 0, [], [];
    }

    /** MarkStack::clear, which leaves `t` as it is until all buffers are deleted, and so does not see that
        the stack has become empty.  It finishes, with the stack as it was, only if there is nothing to
        clear; otherwise it deletes every buffer and then, `finished` being false, reads through the null
        `h`. */
    method Clear() returns (finished: bool, ghost deleted: seq<Buf>)
      requires Valid()
      modifies this, bufs
      ensures finished <==> old(Contents()) == []
      ensures finished ==> Valid() && Contents() == []
      ensures !finished ==> h == null && t != null && deleted == old(bufs)
    {
      deleted := [];
      while !Empty()
        invariant |deleted| <= |bufs| && deleted == bufs[..|deleted|] && s == |bufs| - |deleted|
        invariant h == (if |deleted| < |bufs| then bufs[|deleted|] else null) && t == Last(bufs)
        invariant bufs == old(bufs) && parts == old(parts) && NextLinked(bufs, null) && Filled(bufs, parts)
        decreases |bufs| - |deleted|
      {
        if h == null {
          return false, deleted;
        }
        NextAt(bufs, |deleted|);
        deleted := deleted + [h];
        h := h.next;
        if h != null {
          h.pre := null;
        }
        s := s - 1;
      }
      t := null;
      finished := true;
    }

    /** MarkStack::split: the first buffers become a chain of their own.  The last turn of the loop, in
        which the chain is cut, is `CutHere`. */
    method Split(splitNum: nat) returns (res: Buf?, ghost chain: seq<Buf>, ghost items: seq<seq<Obj>>)
      requires Valid()
      modifies this, bufs
      ensures Valid() && Chain(chain, items) && res == First(chain)
      ensures chain + bufs == old(bufs) && |chain| == if splitNum < old(s) then splitNum else old(s)
      ensures Entries(items) + Contents() == old(Contents())
    {
      if splitNum == 0 || s == 0 {
        return null, [], [];
      }
      res := h;
      var num := 0;
      while num < splitNum - 1
        invariant num <= splitNum - 1 && num < |bufs| && h == bufs[num] && t == Last(bufs) && s == |bufs| - num
        invariant bufs == old(bufs) && parts == old(parts) && Chain(bufs, parts)
      {
        NextAt(bufs, num);
        h := h.next;
        num := num + 1;
        s := s - 1;
        if h == null {
          t := null;
          chain, items := bufs, parts;
          bufs, parts := [], [];
          return;
        }
      }
      chain, items := CutHere(num);
      EntriesJoin(items, parts);
    }

    method CutHere(ghost num: nat) returns (ghost chain: seq<Buf>, ghost items: seq<seq<Obj>>)
      requires num < |bufs| && h == bufs[num] && t == Last(bufs) && s == |bufs| - num && Chain(bufs, parts)
      modifies this, bufs
      ensures Valid() && Chain(chain, items) && chain + bufs == old(bufs) && items + parts == old(parts) &&
              |chain| == num + 1
    {
      ghost var was, p := bufs, parts;
      var tmp := h;
      NextAt(was, num);
      chain, items := was[..num + 1], p[..num + 1];
      h, s, bufs, parts := h.next, s - 1, was[num + 1..], p[num + 1..];
      TakeDrop(was, num + 1);
      TakeDrop(p, num + 1);
      if h != null {
        CutTwo(chain, items, bufs, parts, was, p, tmp, h);
      } else {
        t := null;
        assert chain == was && items == p && bufs == [] && parts == [];
      }
    }

    /** The constructor from a chain of buffers. */
    constructor FromChain(buf: Buf?, ghost chain: seq<Buf>, ghost items: seq<seq<Obj>>)
      requires Chain(chain, items) && buf == First(chain)
      ensures Valid() && bufs == chain && Contents() == Entries(items)
    {
      h, t, s, bufs, parts := buf, null, 0, chain, items;
      new;
      var tmp := buf;
      while tmp != null
        invariant s <= |chain| && tmp == (if s < |chain| then chain[s] else null)
        invariant t == if s == |chain| then Last(chain) else null
        invariant h == buf && bufs == chain && parts == items
        decreases |chain| - s
      {
        NextAt(chain, s);
        if tmp.next == null {
          t := tmp;
        }
        s := s + 1;
        tmp := tmp.next;
      }
    }
  }

  lemma TakeDrop<T>(s: seq<T>, k: nat)
    requires k <= |s|
    ensures s[..k] + s[k..] == s
  {
  }

  lemma NextAt(bufs: seq<Buf>, i: nat)
    requires NextLinked(bufs, null) && i < |bufs|
    ensures bufs[i].next == if i + 1 < |bufs| then bufs[i + 1] else null
  {
    var a, b := bufs[..i + 1], bufs[i + 1..];
    if b != [] {
      NextJoin(a, b, null);
      assert a + b == bufs;
    }
  }

  method CutTwo(ghost a: seq<Buf>, ghost p: seq<seq<Obj>>, ghost b: seq<Buf>, ghost q: seq<seq<Obj>>,
                ghost all: seq<Buf>, ghost parts: seq<seq<Obj>>, left: Buf, right: Buf)
    requires Chain(all, parts) && a + b == all && p + q == parts && |a| == |p|
    requires a != [] && b != [] && left == Last(a) && right == First(b)
    modifies left`next, right`pre
    ensures Chain(a, p) && Chain(b, q)
  {
    FilledJoin(a, p, b, q);
    Cut(a, p, b, q, left, right);
  }

  /** Splitting off any number of buffers, building a stack from them and putting the rest behind it
      again gives back every entry in its place. */
  method SplitAndRejoin(stack: Stack, splitNum: nat) returns (rejoined: Stack)
    requires stack.Valid()
    modifies stack, stack.bufs
    ensures rejoined.Valid() && rejoined.Contents() == old(stack.Contents())
    ensures stack.Valid() && stack.Contents() == []
  {
    ghost var was := stack.bufs;
    var head, chain, items := stack.Split(splitNum);
    rejoined := new Stack.FromChain(head, chain, items);
    DistinctJoin(chain, stack.bufs);
    assert chain != [] ==> was[|chain| - 1] == Last(chain);
    assert stack.bufs != [] ==> was[|chain|] == First(stack.bufs);
    rejoined.Insert(stack);
  }
}
