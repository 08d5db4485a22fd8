/** Where every block of the native allocator is: the bookkeeping that ties spans, free chains,
    thread lists and clients together, and the moves that keep it.

    `blocks` records for each block cut from a span in use which span it came from and where it
    is.  A block is in transit while the operation at hand carries it from one place to another.
 */
module BlockLedger {
  import opened SizeManager
  import opened Lists
  import opened PageCache
  import opened Carving

  /** A thread's list of free blocks of one class; its size is the length of the list. */
  datatype FreeList = FreeList(blocks: seq<int>, adjustSize: nat)

  datatype Place = InChain | InCache(thread: nat, index: nat) | InTransit | WithClient

  datatype Block = Block(span: SpanPtr, place: Place)

  type Caches = seq<seq<FreeList>>

  const CLASSES := 184

  /** The spans in use are those with a class, and those that have been cut into blocks. */
  ghost predicate Classed(spans: Spans, classOf: map<SpanPtr, nat>, cut: map<SpanPtr, seq<int>>) {
    && (forall p :: p in classOf <==> p in spans && spans[p].isUse)
    && (forall p :: p in classOf <==> p in cut)
    && (forall p :: p in classOf ==> classOf[p] < CLASSES)
  }

  /** The blocks of a span lie in it and do not overlap. */
  ghost predicate Fitted(spans: Spans, classOf: map<SpanPtr, nat>, cut: map<SpanPtr, seq<int>>)
    requires Classed(spans, classOf, cut)
  {
    forall p :: p in classOf ==> Fits(spans[p], ClassSize(classOf[p]), cut[p])
  }

  ghost predicate Listed(classOf: map<SpanPtr, nat>, lists: seq<seq<SpanPtr>>) {
    && |lists| == CLASSES
    && (forall i :: 0 <= i < CLASSES ==> NoDup(lists[i]))
    && (forall i, p :: 0 <= i < CLASSES ==> (p in lists[i] <==> p in classOf && classOf[p] == i))
  }

  /** `blocks` knows exactly the blocks of the spans in use. */
  ghost predicate Known(cut: map<SpanPtr, seq<int>>, blocks: map<int, Block>) {
    && (forall b :: b in blocks ==> blocks[b].span in cut && b in cut[blocks[b].span])
    && (forall p, b :: p in cut && b in cut[p] ==> b in blocks && blocks[b].span == p)
    && (forall p :: p in cut ==> NoDup(cut[p]))
  }

  /** A span's chain holds, once each, exactly its blocks that are not handed out; useCount counts
      the others. */
  ghost predicate Chained(spans: Spans, cut: map<SpanPtr, seq<int>>, blocks: map<int, Block>) {
    forall p :: p in cut ==>
      && p in spans && NoDup(spans[p].freeBlocks)
      && (forall b :: b in spans[p].freeBlocks <==> b in blocks && blocks[b] == Block(p, InChain))
      && spans[p].useCount + |spans[p].freeBlocks| == |cut[p]|
  }

  /** A thread's list holds, once each, exactly the blocks recorded there; all are of its class. */
  ghost predicate Cached(classOf: map<SpanPtr, nat>, blocks: map<int, Block>, caches: Caches) {
    && (forall t :: 0 <= t < |caches| ==> |caches[t]| == CLASSES)
    && (forall t, i :: 0 <= t < |caches| && 0 <= i < CLASSES ==> NoDup(caches[t][i].blocks))
    && (forall t, i, b :: 0 <= t < |caches| && 0 <= i < CLASSES ==>
          (b in caches[t][i].blocks <==> b in blocks && blocks[b].place == InCache(t, i)))
    && (forall b :: b in blocks && blocks[b].place.InCache? ==>
          && blocks[b].place.thread < |caches|
          && blocks[b].span in classOf && classOf[blocks[b].span] == blocks[b].place.index)
  }

  datatype Books = Books(
    spans: Spans,
    classOf: map<SpanPtr, nat>,
    cut: map<SpanPtr, seq<int>>,
    blocks: map<int, Block>,
    lists: seq<seq<SpanPtr>>,
    caches: Caches)

  ghost predicate Balanced(k: Books) {
    && Classed(k.spans, k.classOf, k.cut)
    && Fitted(k.spans, k.classOf, k.cut)
    && Listed(k.classOf, k.lists)
    && Known(k.cut, k.blocks)
    && Chained(k.spans, k.cut, k.blocks)
    && Cached(k.classOf, k.blocks, k.caches)
  }

  /** The blocks the current operation carries, in order. */
  ghost predicate Carries(k: Books, carried: seq<int>) {
    && NoDup(carried)
    && forall b :: b in carried <==> b in k.blocks && k.blocks[b].place == InTransit
  }

  function Move(blocks: map<int, Block>, moved: seq<int>, place: Place): (r: map<int, Block>)
    ensures r.Keys == blocks.Keys
    ensures forall b :: b in r ==> r[b] == if b in moved then Block(blocks[b].span, place) else blocks[b]
  {
    map b | b in blocks :: if b in moved then Block(blocks[b].span, place) else blocks[b]
  }

  // ---------------------------------------------------------------- what a move leaves alone

  /** Only chains and use counts differ. */
  ghost predicate SameShape(a: Spans, b: Spans) {
    a.Keys == b.Keys &&
    forall p :: p in a ==> a[p].pageId == b[p].pageId && a[p].pageNum == b[p].pageNum && a[p].isUse == b[p].isUse
  }

  ghost predicate SameSpans(a: map<int, Block>, b: map<int, Block>) {
    a.Keys == b.Keys && forall x :: x in a ==> a[x].span == b[x].span
  }

  lemma MoveKeepsFitted(k: Books, spans': Spans)
    requires Classed(k.spans, k.classOf, k.cut) && Fitted(k.spans, k.classOf, k.cut) && SameShape(k.spans, spans')
    ensures Classed(spans', k.classOf, k.cut) && Fitted(spans', k.classOf, k.cut)
  {
  }

  lemma MoveKeepsKnown(k: Books, blocks': map<int, Block>)
    requires Known(k.cut, k.blocks) && SameSpans(k.blocks, blocks')
    ensures Known(k.cut, blocks')
  {
  }

  /** A move keeps the books balanced if it keeps the chains and the thread lists right. */
  lemma MoveBalances(k: Books, k': Books)
    requires Balanced(k) && SameShape(k.spans, k'.spans) && SameSpans(k.blocks, k'.blocks)
    requires k'.classOf == k.classOf && k'.cut == k.cut && k'.lists == k.lists
    requires Chained(k'.spans, k'.cut, k'.blocks) && Cached(k'.classOf, k'.blocks, k'.caches)
    ensures Balanced(k')
  {
    MoveKeepsFitted(k, k'.spans);
    MoveKeepsKnown(k, k'.blocks);
  }

  /** A move that touches no thread list. */
  lemma MoveKeepsCached(k: Books, blocks': map<int, Block>)
    requires Cached(k.classOf, k.blocks, k.caches) && SameSpans(k.blocks, blocks')
    requires forall b :: b in blocks' ==>
             (k.blocks[b].place.InCache? || blocks'[b].place.InCache? ==> blocks'[b] == k.blocks[b])
    ensures Cached(k.classOf, blocks', k.caches)
  {
  }

  /** A move that touches no chain. */
  lemma MoveKeepsChained(k: Books, blocks': map<int, Block>)
    requires Chained(k.spans, k.cut, k.blocks) && SameSpans(k.blocks, blocks')
    requires forall b :: b in blocks' ==> (k.blocks[b].place.InChain? <==> blocks'[b].place.InChain?)
    ensures Chained(k.spans, k.cut, blocks')
  {
    forall p | p in k.cut
      ensures forall b :: b in k.spans[p].freeBlocks <==> b in blocks' && blocks'[b] == Block(p, InChain)
    {
      forall b ensures b in k.spans[p].freeBlocks <==> b in blocks' && blocks'[b] == Block(p, InChain) {
        assert b in k.blocks <==> b in blocks';
      }
    }
  }

  /** The chain of p changes from `s` to `s'`. */
  lemma ChainChange(k: Books, p: SpanPtr, s': Span, blocks': map<int, Block>)
    requires Chained(k.spans, k.cut, k.blocks) && p in k.cut && SameSpans(k.blocks, blocks')
    requires NoDup(s'.freeBlocks) && s'.useCount + |s'.freeBlocks| == k.spans[p].useCount + |k.spans[p].freeBlocks|
    requires forall b :: b in s'.freeBlocks <==> b in blocks' && blocks'[b] == Block(p, InChain)
    requires forall b :: b in blocks' && k.blocks[b].span != p ==> blocks'[b] == k.blocks[b]
    ensures Chained(k.spans[p := s'], k.cut, blocks')
  {
    var spans' := k.spans[p := s'];
    forall q | q in k.cut
      ensures NoDup(spans'[q].freeBlocks)
      ensures forall b :: b in spans'[q].freeBlocks <==> b in blocks' && blocks'[b] == Block(q, InChain)
      ensures spans'[q].useCount + |spans'[q].freeBlocks| == |k.cut[q]|
    {
      if q != p {
        forall b ensures b in spans'[q].freeBlocks <==> b in blocks' && blocks'[b] == Block(q, InChain) {
          assert b in k.blocks <==> b in blocks';
        }
      }
    }
  }

  /** The list (t, i) changes to `list'`. */
  lemma CacheChange(k: Books, t: nat, i: nat, list': FreeList, blocks': map<int, Block>)
    requires Cached(k.classOf, k.blocks, k.caches) && t < |k.caches| && i < CLASSES && SameSpans(k.blocks, blocks')
    requires NoDup(list'.blocks)
    requires forall b :: b in list'.blocks <==> b in blocks' && blocks'[b].place == InCache(t, i)
    requires forall b :: b in list'.blocks ==>
               b in blocks' && blocks'[b].span in k.classOf && k.classOf[blocks'[b].span] == i
    requires forall b :: b in blocks' && (blocks'[b].place.InCache? || k.blocks[b].place.InCache?) ==>
               blocks'[b] == k.blocks[b] || blocks'[b].place == InCache(t, i) || k.blocks[b].place == InCache(t, i)
    requires forall b :: b in blocks' && k.blocks[b].place == InCache(t, i) ==>
               blocks'[b].place == InCache(t, i) || !blocks'[b].place.InCache?
    requires forall b :: b in blocks' && blocks'[b].place == InCache(t, i) ==>
               k.blocks[b].place == InCache(t, i) || !k.blocks[b].place.InCache?
    ensures Cached(k.classOf, blocks', k.caches[t := k.caches[t][i := list']])
  {
    var caches': Caches := k.caches[t := k.caches[t][i := list']];
    forall t', i', b: int | 0 <= t' < |caches'| && 0 <= i' < CLASSES
      ensures b in caches'[t'][i'].blocks <==> b in blocks' && blocks'[b].place == InCache(t', i')
    {
      assert b in k.blocks <==> b in blocks';
      if t' != t || i' != i {
        assert caches'[t'][i'] == k.caches[t'][i'];
      }
    }
  }

  // ---------------------------------------------------------------- moves

  /** FetchRangeObj: the first n blocks of a chain leave it. */
  function TakeFromChain(k: Books, p: SpanPtr, n: nat): Books
    requires p in k.spans && n <= |k.spans[p].freeBlocks|
  {
    var s := k.spans[p];
    k.(spans := k.spans[p := s.(freeBlocks := s.freeBlocks[n..], useCount := s.useCount + n)],
       blocks := Move(k.blocks, s.freeBlocks[..n], InTransit))
  }

  lemma TakeFromChainChained(k: Books, p: SpanPtr, n: nat)
    requires Chained(k.spans, k.cut, k.blocks) && p in k.cut && n <= |k.spans[p].freeBlocks|
    ensures var k' := TakeFromChain(k, p, n); Chained(k'.spans, k'.cut, k'.blocks)
  {
    var k' := TakeFromChain(k, p, n);
    NoDupParts(k.spans[p].freeBlocks, n);
    ChainChange(k, p, k'.spans[p], k'.blocks);
  }

  lemma TakeFromChainKeeps(k: Books, p: SpanPtr, n: nat)
    requires Balanced(k) && Carries(k, []) && p in k.classOf && n <= |k.spans[p].freeBlocks|
    ensures var k' := TakeFromChain(k, p, n);
            Balanced(k') && Carries(k', k.spans[p].freeBlocks[..n])
  {
    var k' := TakeFromChain(k, p, n);
    NoDupParts(k.spans[p].freeBlocks, n);
    TakeFromChainChained(k, p, n);
    MoveKeepsCached(k, k'.blocks);
    MoveBalances(k, k');
  }

  /** ReleaseListToSpans, one round: a carried block goes back to the front of its span's chain. */
  function ReturnToChain(k: Books, b: int): Books
    requires b in k.blocks && k.blocks[b].span in k.spans && k.spans[k.blocks[b].span].useCount > 0
  {
    var p := k.blocks[b].span;
    var s := k.spans[p];
    k.(spans := k.spans[p := s.(freeBlocks := [b] + s.freeBlocks, useCount := s.useCount - 1)],
       blocks := Move(k.blocks, [b], InChain))
  }

  /** useCount is exactly the number of the span's blocks that are handed out; it is 0 exactly when
      the chain holds them all. */
  lemma UseCountCounts(k: Books, p: SpanPtr)
    requires Balanced(k) && p in k.classOf
    ensures var s, all := k.spans[p], k.cut[p];
            && s.useCount == |Elements(all) - Elements(s.freeBlocks)|
            && (s.useCount == 0 <==> forall b :: b in all ==> b in s.freeBlocks)
  {
    var s, all := k.spans[p], k.cut[p];
    ElementsCount(all);
    ElementsCount(s.freeBlocks);
    forall b | b in s.freeBlocks ensures b in all {
      assert k.blocks[b] == Block(p, InChain);
    }
    assert Elements(all) == Elements(s.freeBlocks) + (Elements(all) - Elements(s.freeBlocks));
    if forall b :: b in all ==> b in s.freeBlocks {
      assert Elements(all) == Elements(s.freeBlocks);
    }
    if s.useCount == 0 {
      Pigeonhole(s.freeBlocks, Elements(all));
    }
  }

  lemma HandedOutIsCounted(k: Books, b: int)
    requires Balanced(k) && b in k.blocks && !k.blocks[b].place.InChain?
    ensures k.spans[k.blocks[b].span].useCount > 0
  {
    UseCountCounts(k, k.blocks[b].span);
  }

  lemma ReturnToChainChained(k: Books, b: int)
    requires Chained(k.spans, k.cut, k.blocks) && b in k.blocks && k.blocks[b].span in k.cut
    requires k.blocks[b].place == InTransit && k.spans[k.blocks[b].span].useCount > 0
    ensures var k' := ReturnToChain(k, b); Chained(k'.spans, k'.cut, k'.blocks)
  {
    var k', p := ReturnToChain(k, b), k.blocks[b].span;
    ChainChange(k, p, k'.spans[p], k'.blocks);
  }

  lemma ReturnToChainKeeps(k: Books, b: int, rest: seq<int>)
    requires Balanced(k) && Carries(k, [b] + rest)
    ensures b in k.blocks && k.blocks[b].span in k.spans && k.spans[k.blocks[b].span].useCount > 0
    ensures var k' := ReturnToChain(k, b); Balanced(k') && Carries(k', rest)
  {
    assert b in [b] + rest;
    HandedOutIsCounted(k, b);
    var k' := ReturnToChain(k, b);
    ReturnToChainChained(k, b);
    MoveKeepsCached(k, k'.blocks);
    MoveBalances(k, k');
    CarryRest(k, k', b, rest);
  }

  lemma CarryRest(k: Books, k': Books, b: int, rest: seq<int>)
    requires Carries(k, [b] + rest) && k'.blocks.Keys == k.blocks.Keys
    requires forall x :: x in k.blocks ==>
               (k'.blocks[x].place == InTransit <==> x != b && k.blocks[x].place == InTransit)
    ensures Carries(k', rest)
  {
    var all := [b] + rest;
    assert all[0] == b && all[1..] == rest;
    NoDupParts(all, 1);
    forall x ensures x in rest <==> x in k'.blocks && k'.blocks[x].place == InTransit {
      assert x in all <==> x == b || x in rest;
      assert b in all[..1];
    }
  }

  /** A thread's list gives up its first n blocks. */
  function TakeFromCache(k: Books, t: nat, i: nat, n: nat): Books
    requires t < |k.caches| && i < |k.caches[t]| && n <= |k.caches[t][i].blocks|
  {
    var list := k.caches[t][i];
    k.(caches := k.caches[t := k.caches[t][i := list.(blocks := list.blocks[n..])]],
       blocks := Move(k.blocks, list.blocks[..n], InTransit))
  }

  lemma TakeFromCacheKeeps(k: Books, t: nat, i: nat, n: nat)
    requires Balanced(k) && Carries(k, []) && t < |k.caches| && i < CLASSES && n <= |k.caches[t][i].blocks|
    ensures var k' := TakeFromCache(k, t, i, n);
            Balanced(k') && Carries(k', k.caches[t][i].blocks[..n])
  {
    var k', list := TakeFromCache(k, t, i, n), k.caches[t][i];
    NoDupParts(list.blocks, n);
    forall b | b in list.blocks[..n] ensures b in k.blocks && k.blocks[b].place == InCache(t, i) {
      assert b in list.blocks;
    }
    MoveKeepsChained(k, k'.blocks);
    CacheChange(k, t, i, k'.caches[t][i], k'.blocks);
    MoveBalances(k, k');
  }

  /** All carried blocks are pushed at the front of a thread's list of their class. */
  function PutInCache(k: Books, t: nat, i: nat, carried: seq<int>): Books
    requires t < |k.caches| && i < |k.caches[t]|
  {
    var list := k.caches[t][i];
    k.(caches := k.caches[t := k.caches[t][i := list.(blocks := carried + list.blocks)]],
       blocks := Move(k.blocks, carried, InCache(t, i)))
  }

  ghost predicate OfClass(k: Books, carried: seq<int>, i: nat) {
    forall b :: b in carried ==> b in k.blocks && k.blocks[b].span in k.classOf && k.classOf[k.blocks[b].span] == i
  }

  lemma PutInCacheKeeps(k: Books, t: nat, i: nat, carried: seq<int>)
    requires Balanced(k) && Carries(k, carried) && OfClass(k, carried, i) && t < |k.caches| && i < CLASSES
    ensures var k' := PutInCache(k, t, i, carried); Balanced(k') && Carries(k', [])
  {
    var k', list := PutInCache(k, t, i, carried), k.caches[t][i];
    forall b | b in carried ensures b !in list.blocks {
      assert k.blocks[b].place == InTransit;
    }
    NoDupJoin(carried, list.blocks);
    MoveKeepsChained(k, k'.blocks);
    CacheChange(k, t, i, k'.caches[t][i], k'.blocks);
    MoveBalances(k, k');
  }

  function GiveToClient(k: Books, b: int): Books {
    k.(blocks := Move(k.blocks, [b], WithClient))
  }

  lemma GiveToClientKeeps(k: Books, b: int, rest: seq<int>)
    requires Balanced(k) && Carries(k, [b] + rest)
    ensures b in k.blocks
    ensures var k' := GiveToClient(k, b); Balanced(k') && Carries(k', rest)
  {
    assert b in [b] + rest;
    var k' := GiveToClient(k, b);
    MoveKeepsChained(k, k'.blocks);
    MoveKeepsCached(k, k'.blocks);
    MoveBalances(k, k');
    CarryRest(k, k', b, rest);
  }

  function TakeFromClient(k: Books, b: int): Books {
    k.(blocks := Move(k.blocks, [b], InTransit))
  }

  lemma TakeFromClientKeeps(k: Books, b: int)
    requires Balanced(k) && Carries(k, []) && b in k.blocks && k.blocks[b].place == WithClient
    ensures var k' := TakeFromClient(k, b); Balanced(k') && Carries(k', [b])
  {
    var k' := TakeFromClient(k, b);
    MoveKeepsChained(k, k'.blocks);
    MoveKeepsCached(k, k'.blocks);
    MoveBalances(k, k');
  }

  // ---------------------------------------------------------------- geometry

  function SizeOf(k: Books, b: int): nat
    requires b in k.blocks && k.blocks[b].span in k.classOf && k.classOf[k.blocks[b].span] < CLASSES
  {
    ClassSize(k.classOf[k.blocks[b].span])
  }

  /** No two blocks overlap, wherever they are. */
  lemma BlocksNeverOverlap(k: Books, b: int, c: int)
    requires Separate(k.spans) && Balanced(k) && b in k.blocks && c in k.blocks && b != c
    ensures Disjoint(b, SizeOf(k, b), c, SizeOf(k, c))
  {
    var p, q := k.blocks[b].span, k.blocks[c].span;
    if p == q {
      var i :| 0 <= i < |k.cut[p]| && k.cut[p][i] == b;
      var j :| 0 <= j < |k.cut[p]| && k.cut[p][j] == c;
    } else {
      assert Apart(k.spans[p], k.spans[q]);
    }
  }

  /** A block lies in the page range of the span it came from. */
  lemma BlockInItsSpan(k: Books, b: int)
    requires Separate(k.spans) && Balanced(k) && b in k.blocks
    ensures Contains(k.spans[k.blocks[b].span], b / PAGE_SIZE)
  {
    var p := k.blocks[b].span;
    assert Fits(k.spans[p], SizeOf(k, b), k.cut[p]);
  }

  // ---------------------------------------------------------------- spans coming and going

  function FreshBlocks(list: seq<int>, p: SpanPtr): (r: map<int, Block>)
    ensures forall b :: b in r <==> b in list
    ensures forall b :: b in r ==> r[b] == Block(p, InChain)
  {
    map b | b in list :: Block(p, InChain)
  }

  /** GetOneSpan: a span just carved joins the list of its class. */
  function Adopt(k: Books, spans': Spans, p: SpanPtr, i: nat): Books
    requires i < |k.lists| && p in spans'
  {
    Books(spans', k.classOf[p := i], k.cut[p := spans'[p].freeBlocks], k.blocks + FreshBlocks(spans'[p].freeBlocks, p),
          k.lists[i := [p] + k.lists[i]], k.caches)
  }

  ghost predicate Adoptable(k: Books, spans': Spans, p: SpanPtr, i: nat) {
    && i < CLASSES && p in spans' && p !in k.classOf
    && SameUsed(k.spans, spans' - {p}) && Separate(spans')
    && var s := spans'[p];
       s.isUse && s.useCount == 0 && Fits(s, ClassSize(i), s.freeBlocks)
  }

  lemma NewBlocksAreNew(k: Books, spans': Spans, p: SpanPtr, i: nat, b: int)
    requires Balanced(k) && Adoptable(k, spans', p, i) && b in spans'[p].freeBlocks
    ensures b !in k.blocks
  {
    forall q | q in k.classOf ensures b !in k.cut[q] {
      assert q in spans' - {p} && spans'[q] == k.spans[q];
      assert Apart(spans'[p], spans'[q]);
      assert Fits(k.spans[q], ClassSize(k.classOf[q]), k.cut[q]);
    }
  }

  /** k' has the spans and blocks of k and, besides, span p with all its blocks in its chain. */
  ghost predicate Extends(k: Books, k': Books, p: SpanPtr) {
    && p !in k.cut && k'.cut.Keys == k.cut.Keys + {p}
    && (forall q :: q in k.cut ==> q in k.spans && q in k'.spans && k'.spans[q] == k.spans[q] && k'.cut[q] == k.cut[q])
    && (forall b :: b in k.blocks ==> b in k'.blocks && k'.blocks[b] == k.blocks[b])
    && (forall b :: b in k'.blocks && b !in k.blocks ==> k'.blocks[b] == Block(p, InChain))
    && p in k'.spans && k'.spans[p].useCount == 0
    && (forall b :: b in k'.spans[p].freeBlocks <==> b in k'.blocks && b !in k.blocks)
    && (forall b :: b in k'.cut[p] <==> b in k'.spans[p].freeBlocks)
  }

  lemma AdoptExtends(k: Books, spans': Spans, p: SpanPtr, i: nat)
    requires Balanced(k) && Adoptable(k, spans', p, i)
    ensures Extends(k, Adopt(k, spans', p, i), p)
  {
    forall b | b in spans'[p].freeBlocks ensures b !in k.blocks {
      NewBlocksAreNew(k, spans', p, i, b);
    }
    forall q | q in k.cut ensures q in spans' && spans'[q] == k.spans[q] {
      assert q in k.classOf && q in spans' - {p};
    }
  }

  lemma AdoptFitted(k: Books, spans': Spans, p: SpanPtr, i: nat)
    requires Classed(k.spans, k.classOf, k.cut) && Fitted(k.spans, k.classOf, k.cut) && |k.lists| == CLASSES
    requires Adoptable(k, spans', p, i)
    ensures var k' := Adopt(k, spans', p, i);
            Classed(k'.spans, k'.classOf, k'.cut) && Fitted(k'.spans, k'.classOf, k'.cut)
  {
    forall q | q in k.classOf ensures q in spans' && spans'[q] == k.spans[q] {
      assert q in spans' - {p};
    }
    forall q | q in spans' && spans'[q].isUse ensures q == p || q in k.classOf {
      if q != p {
        assert q in spans' - {p};
      }
    }
  }

  lemma ExtendKeepsKnown(k: Books, k': Books, p: SpanPtr)
    requires Extends(k, k', p) && Known(k.cut, k.blocks) && NoDup(k'.cut[p])
    ensures Known(k'.cut, k'.blocks)
  {
  }

  lemma ExtendKeepsChained(k: Books, k': Books, p: SpanPtr)
    requires Extends(k, k', p) && Known(k.cut, k.blocks) && Chained(k.spans, k.cut, k.blocks)
    requires k'.cut[p] == k'.spans[p].freeBlocks && NoDup(k'.cut[p])
    ensures Chained(k'.spans, k'.cut, k'.blocks)
  {
    forall q, b | q in k'.cut
      ensures b in k'.spans[q].freeBlocks <==> b in k'.blocks && k'.blocks[b] == Block(q, InChain)
    {
      if q == p && b in k.blocks {
        assert k.blocks[b].span in k.cut;
      }
    }
  }

  lemma ExtendKeepsCached(k: Books, k': Books, p: SpanPtr)
    requires Extends(k, k', p) && k'.caches == k.caches && Cached(k.classOf, k.blocks, k.caches)
    requires forall q :: q in k.classOf ==> q in k'.classOf && k'.classOf[q] == k.classOf[q]
    ensures Cached(k'.classOf, k'.blocks, k'.caches)
  {
  }

  lemma AdoptKeeps(k: Books, spans': Spans, p: SpanPtr, i: nat)
    requires Balanced(k) && Carries(k, []) && Adoptable(k, spans', p, i)
    ensures var k' := Adopt(k, spans', p, i); Balanced(k') && Carries(k', [])
  {
    var k' := Adopt(k, spans', p, i);
    AdoptExtends(k, spans', p, i);
    AdoptFitted(k, spans', p, i);
    FitsNoDup(spans'[p], ClassSize(i), spans'[p].freeBlocks);
    ExtendKeepsKnown(k, k', p);
    ExtendKeepsChained(k, k', p);
    ExtendKeepsCached(k, k', p);
    ListKeeps(k.classOf, k.lists, p, i);
  }

  lemma ListKeeps(classOf: map<SpanPtr, nat>, lists: seq<seq<SpanPtr>>, p: SpanPtr, i: nat)
    requires Listed(classOf, lists) && p !in classOf && i < CLASSES
    ensures Listed(classOf[p := i], lists[i := [p] + lists[i]])
  {
    var lists' := lists[i := [p] + lists[i]];
    assert p !in lists[i];
    forall j, q | 0 <= j < CLASSES ensures q in lists'[j] <==> q in classOf[p := i] && classOf[p := i][q] == j {
      assert q in lists'[j] <==> q in lists[j] || (j == i && q == p);
    }
  }

  /** ReleaseListToSpans: a span none of whose blocks is handed out leaves the central cache. */
  function Retire(k: Books, spans': Spans, p: SpanPtr): Books
    requires p in k.classOf && k.classOf[p] < |k.lists|
  {
    var i := k.classOf[p];
    Books(spans', k.classOf - {p}, k.cut - {p}, map b | b in k.blocks && k.blocks[b].span != p :: k.blocks[b],
          k.lists[i := Erase(k.lists[i], p)], k.caches)
  }

  ghost predicate Retirable(k: Books, spans': Spans, p: SpanPtr) {
    && p in k.classOf && p in k.spans && k.spans[p].useCount == 0
    && SameUsed(k.spans - {p}, spans') && p in spans' && !spans'[p].isUse
  }

  lemma RetireExtends(k: Books, spans': Spans, p: SpanPtr)
    requires Balanced(k) && Retirable(k, spans', p)
    ensures Extends(Retire(k, spans', p), k, p)
  {
    var k' := Retire(k, spans', p);
    UseCountCounts(k, p);
    forall q | q in k'.cut ensures q in spans' && spans'[q] == k.spans[q] {
      assert q in k.classOf && q in k.spans - {p};
    }
    forall b | b in k.blocks && k.blocks[b].span == p ensures k.blocks[b] == Block(p, InChain) {
      assert b in k.cut[p];
    }
  }

  lemma RetireFitted(k: Books, spans': Spans, p: SpanPtr)
    requires Classed(k.spans, k.classOf, k.cut) && Fitted(k.spans, k.classOf, k.cut)
    requires Retirable(k, spans', p)
    ensures Classed(spans', k.classOf - {p}, k.cut - {p}) && Fitted(spans', k.classOf - {p}, k.cut - {p})
  {
    forall q | q in k.classOf && q != p ensures q in spans' && spans'[q] == k.spans[q] {
      assert q in k.spans - {p};
    }
    forall q | q in spans' && spans'[q].isUse ensures q in k.classOf - {p} {
      assert q in k.spans - {p};
    }
  }

  lemma ShrinkKeepsKnown(k: Books, k': Books, p: SpanPtr)
    requires Extends(k', k, p) && Known(k.cut, k.blocks)
    requires forall b :: b in k'.blocks ==> k'.blocks[b].span != p
    ensures Known(k'.cut, k'.blocks)
  {
  }

  lemma ShrinkKeepsCached(k: Books, k': Books, p: SpanPtr)
    requires Extends(k', k, p) && k'.caches == k.caches && Cached(k.classOf, k.blocks, k.caches)
    requires k'.classOf == k.classOf - {p} && forall b :: b in k'.blocks ==> k'.blocks[b].span != p
    ensures Cached(k'.classOf, k'.blocks, k'.caches)
  {
    forall t, i, b: int | 0 <= t < |k.caches| && 0 <= i < CLASSES
      ensures b in k.caches[t][i].blocks <==> b in k'.blocks && k'.blocks[b].place == InCache(t, i)
    {
      assert b in k'.blocks ==> k'.blocks[b] == k.blocks[b];
      assert b in k.blocks && b !in k'.blocks ==> k.blocks[b] == Block(p, InChain);
    }
  }

  lemma ShrinkKeepsChained(k: Books, k': Books, p: SpanPtr)
    requires Extends(k', k, p) && Chained(k.spans, k.cut, k.blocks)
    requires forall b :: b in k'.blocks ==> k'.blocks[b].span != p
    ensures Chained(k'.spans, k'.cut, k'.blocks)
  {
    forall q, b | q in k'.cut
      ensures b in k'.spans[q].freeBlocks <==> b in k'.blocks && k'.blocks[b] == Block(q, InChain)
    {
      assert b in k.spans[q].freeBlocks <==> b in k.blocks && k.blocks[b] == Block(q, InChain);
    }
  }

  lemma RetireKeeps(k: Books, spans': Spans, p: SpanPtr, carried: seq<int>)
    requires Balanced(k) && Carries(k, carried) && Retirable(k, spans', p)
    ensures var k' := Retire(k, spans', p); Balanced(k') && Carries(k', carried)
  {
    var k', i := Retire(k, spans', p), k.classOf[p];
    RetireExtends(k, spans', p);
    RetireFitted(k, spans', p);
    ShrinkKeepsKnown(k, k', p);
    ShrinkKeepsCached(k, k', p);
    ShrinkKeepsChained(k, k', p);
    UnlistKeeps(k.classOf, k.lists, p);
    assert Carries(k', carried) by {
      assert forall b :: b in k.blocks && b !in k'.blocks ==> k.blocks[b] == Block(p, InChain);
    }
  }

  lemma UnlistKeeps(classOf: map<SpanPtr, nat>, lists: seq<seq<SpanPtr>>, p: SpanPtr)
    requires Listed(classOf, lists) && p in classOf && classOf[p] < CLASSES
    ensures Listed(classOf - {p}, lists[classOf[p] := Erase(lists[classOf[p]], p)])
  {
    EraseNoDup(lists[classOf[p]], p);
  }
}
