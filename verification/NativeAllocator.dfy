/** The thread caches and the central cache over the page cache, for any number of threads.

    An operation of a thread is one step: the thread's own lists are private to it, the central
    cache's list of a class is locked while it is used, and so is the page cache.  Requests are
    those of up to 64 KB whose size class fills its span exactly (`Tiles`).
 */
module NativeAllocator {
  import opened SizeManager
  import opened Lists
  import opened PageCache
  import opened Carving
  import opened BlockLedger

  // ---------------------------------------------------------------- page cache facts

  /** Chains and use counts of used spans are no concern of the page cache. */
  lemma TouchKeeps(spans: Spans, buckets: Buckets, idSpanMap: map<int, SpanPtr>, runs: seq<int>, nextPtr: SpanPtr,
                   p: SpanPtr, s': Span)
    requires Partition(spans, buckets, idSpanMap, runs, nextPtr, {}) && p in spans && spans[p].isUse
    requires s'.pageId == spans[p].pageId && s'.pageNum == spans[p].pageNum && s'.isUse
    ensures Partition(spans[p := s'], buckets, idSpanMap, runs, nextPtr, {})
  {
    var spans' := spans[p := s'];
    ReplaceKeepsPages(spans, runs, p, s');
    assert Bucketed(spans', buckets, {});
    assert Mapped(spans', idSpanMap, {});
  }

  /** The caller of NewSpan marks the span used. */
  lemma MarkUsedKeeps(spans: Spans, buckets: Buckets, idSpanMap: map<int, SpanPtr>, runs: seq<int>, nextPtr: SpanPtr,
                      p: SpanPtr, s': Span)
    requires Partition(spans, buckets, idSpanMap, runs, nextPtr, {p}) && p in spans && !spans[p].isUse
    requires s'.pageId == spans[p].pageId && s'.pageNum == spans[p].pageNum && s'.isUse
    ensures Partition(spans[p := s'], buckets, idSpanMap, runs, nextPtr, {})
  {
    var spans' := spans[p := s'];
    ReplaceKeepsPages(spans, runs, p, s');
    assert Bucketed(spans', buckets, {});
    assert Mapped(spans', idSpanMap, {});
  }

  lemma ReplaceKeepsPages(spans: Spans, runs: seq<int>, p: SpanPtr, s': Span)
    requires Separate(spans) && Covers(spans, runs) && p in spans
    requires s'.pageId == spans[p].pageId && s'.pageNum == spans[p].pageNum
    ensures Separate(spans[p := s']) && Covers(spans[p := s'], runs)
  {
    var spans' := spans[p := s'];
    forall a, b | a in spans' && b in spans' && a != b ensures Apart(spans'[a], spans'[b]) {
      assert Apart(spans[a], spans[b]);
    }
    forall x ensures InSomeSpan(spans, x) <==> InSomeSpan(spans', x) {
      if InSomeSpan(spans, x) {
        var a :| a in spans && Contains(spans[a], x);
        assert Contains(spans'[a], x);
      }
      if InSomeSpan(spans', x) {
        var a :| a in spans' && Contains(spans'[a], x);
        assert Contains(spans[a], x);
      }
    }
  }

  // ---------------------------------------------------------------- adopting a span

  function Carved(s: Span, size: nat): Span
    requires size > 0
  {
    s.(isUse := true, freeBlocks := BlocksOf(s, size))
  }

  ghost predicate JustTaken(k: Books, spans': Spans, p: SpanPtr, i: nat) {
    && i < CLASSES && Tiles(ClassSize(i)) && SameUsed(k.spans, spans') && Separate(spans')
    && p in spans' && !spans'[p].isUse && spans'[p].useCount == 0
    && spans'[p].pageNum == CalculatePageNum(ClassSize(i))
  }

  lemma TakenIsAdoptable(k: Books, spans': Spans, p: SpanPtr, i: nat)
    requires Classed(k.spans, k.classOf, k.cut) && JustTaken(k, spans', p, i)
    ensures Adoptable(k, spans'[p := Carved(spans'[p], ClassSize(i))], p, i)
  {
    var spans'' := spans'[p := Carved(spans'[p], ClassSize(i))];
    forall a, b | a in spans'' && b in spans'' && a != b ensures Apart(spans''[a], spans''[b]) {
      assert Apart(spans'[a], spans'[b]);
    }
    assert p !in k.classOf;
    assert SameUsed(k.spans, spans'' - {p});
    CarvedFits(spans'[p], ClassSize(i));
  }

  lemma CarvedNonempty(s: Span, size: nat)
    requires size > 0 && s.pageNum > 0
    ensures BlocksOf(s, size) != []
  {
    CeilDiv(Bytes(s), size);
    CarveAt(Start(s), size, BlockCount(Bytes(s), size));
  }

  /** Nothing that was known before changes; what is new lies in a chain. */
  ghost predicate OnlyAdds(k: Books, k': Books) {
    && (forall b :: b in k.blocks ==> b in k'.blocks && k'.blocks[b] == k.blocks[b])
    && (forall b :: b in k'.blocks && b !in k.blocks ==> k'.blocks[b].place == InChain)
    && (forall q :: q in k.classOf ==> q in k'.classOf && k'.classOf[q] == k.classOf[q])
    && k'.caches == k.caches
  }

  lemma AdoptTaken(k: Books, spans': Spans, p: SpanPtr, i: nat)
    requires Balanced(k) && Carries(k, []) && JustTaken(k, spans', p, i)
    ensures var k' := Adopt(k, spans'[p := Carved(spans'[p], ClassSize(i))], p, i);
            Balanced(k') && Carries(k', []) && OnlyAdds(k, k') && k'.spans[p].freeBlocks != []
  {
    var spans'' := spans'[p := Carved(spans'[p], ClassSize(i))];
    TakenIsAdoptable(k, spans', p, i);
    AdoptKeeps(k, spans'', p, i);
    AdoptExtends(k, spans'', p, i);
    CarvedNonempty(spans'[p], ClassSize(i));
  }

  /** A span comes from the page cache, is marked used and cut into a chain of blocks; `taken` is
      the page cache's spans in between. */
  method TakeAndCarve(pages: Cache, i: nat, systemRun: int) returns (p: SpanPtr, ghost taken: Spans)
    requires pages.Valid() && i < CLASSES && Tiles(ClassSize(i))
    requires forall x :: systemRun <= x < systemRun + MAX_NPAGES - 1 ==> !Obtained(pages.runs, x)
    modifies pages
    ensures pages.Valid()
    ensures SameUsed(old(pages.spans), taken) && Separate(taken)
    ensures p in taken && !taken[p].isUse && taken[p].useCount == 0 &&
            taken[p].pageNum == CalculatePageNum(ClassSize(i))
    ensures pages.spans == taken[p := Carved(taken[p], ClassSize(i))]
    ensures pages.runs == old(pages.runs) || pages.runs == old(pages.runs) + [systemRun]
  {
    var size := ClassSize(i);
    PageNumFits(size);
    p := pages.NewSpan(CalculatePageNum(size), systemRun);
    taken := pages.spans;
    var s := pages.spans[p];
    var chain := CarveSpan(Start(s), Bytes(s), size);
    MarkUsedKeeps(pages.spans, pages.buckets, pages.idSpanMap, pages.runs, pages.nextPtr, p, Carved(s, size));
    pages.spans := pages.spans[p := s.(isUse := true, freeBlocks := chain)];
  }

  // ---------------------------------------------------------------- what clients hold

  /** The blocks clients hold, each with its class. */
  ghost function Clients(k: Books): map<int, nat> {
    map b | b in k.blocks && k.blocks[b].place == WithClient && k.blocks[b].span in k.classOf ::
      k.classOf[k.blocks[b].span]
  }

  lemma OnlyAddsKeepsClients(k: Books, k': Books)
    requires OnlyAdds(k, k') && forall b :: b in k.blocks ==> k.blocks[b].span in k.classOf
    ensures Clients(k') == Clients(k)
  {
    forall b ensures b in Clients(k') <==> b in Clients(k) {
      assert b in k.blocks ==> b in k'.blocks;
    }
    forall b | b in Clients(k) ensures Clients(k')[b] == Clients(k)[b] {
      assert k'.blocks[b] == k.blocks[b];
    }
  }

  /** A move between chains, lists and the operation at hand. */
  lemma MoveKeepsClients(k: Books, k': Books)
    requires SameSpans(k.blocks, k'.blocks) && k'.classOf == k.classOf
    requires forall b :: b in k.blocks ==> (k.blocks[b].place == WithClient <==> k'.blocks[b].place == WithClient)
    ensures Clients(k') == Clients(k)
  {
    forall b ensures b in Clients(k') <==> b in Clients(k) {
      assert b in k.blocks <==> b in k'.blocks;
    }
    forall b | b in Clients(k) ensures Clients(k')[b] == Clients(k)[b] {
      assert k'.blocks[b].span == k.blocks[b].span;
    }
  }

  lemma RetireKeepsClients(k: Books, spans': Spans, p: SpanPtr)
    requires Balanced(k) && Retirable(k, spans', p)
    ensures Clients(Retire(k, spans', p)) == Clients(k)
  {
    UseCountCounts(k, p);
    forall b | b in k.blocks && k.blocks[b].span == p ensures k.blocks[b].place == InChain {
      assert b in k.cut[p];
    }
  }

  lemma TakenFromChain(k: Books, p: SpanPtr, n: nat)
    requires Balanced(k) && p in k.classOf && n <= |k.spans[p].freeBlocks|
    ensures var k' := TakeFromChain(k, p, n);
            OfClass(k', k.spans[p].freeBlocks[..n], k.classOf[p]) && Clients(k') == Clients(k)
  {
    var k' := TakeFromChain(k, p, n);
    forall b | b in k.spans[p].freeBlocks[..n] ensures b in k.blocks && k.blocks[b] == Block(p, InChain) {
      assert b in k.spans[p].freeBlocks;
    }
    MoveKeepsClients(k, k');
  }

  lemma ReturnedToChain(k: Books, b: int, rest: seq<int>, i: nat)
    requires Balanced(k) && Carries(k, [b] + rest) && OfClass(k, [b] + rest, i)
    requires b in k.blocks && k.blocks[b].span in k.spans && k.spans[k.blocks[b].span].useCount > 0
    ensures OfClass(ReturnToChain(k, b), rest, i) && Clients(ReturnToChain(k, b)) == Clients(k)
  {
    forall c | c in rest ensures c in [b] + rest {
    }
    assert b in [b] + rest;
    MoveKeepsClients(k, ReturnToChain(k, b));
  }

  lemma RetiredKeepsCarried(k: Books, spans': Spans, p: SpanPtr, carried: seq<int>, i: nat)
    requires Balanced(k) && Carries(k, carried) && OfClass(k, carried, i) && Retirable(k, spans', p)
    ensures OfClass(Retire(k, spans', p), carried, i)
  {
    UseCountCounts(k, p);
    forall b | b in carried ensures k.blocks[b].span != p {
      assert b in k.cut[k.blocks[b].span];
    }
  }

  /** The span's chain is dropped and the span handed to the page cache. */
  method GiveBack(pages: Cache, p: SpanPtr)
    requires pages.Valid() && p in pages.spans && pages.spans[p].isUse && pages.spans[p].useCount == 0
    modifies pages
    ensures pages.Valid() && pages.runs == old(pages.runs)
    ensures p in pages.spans && !pages.spans[p].isUse && SameUsed(old(pages.spans) - {p}, pages.spans)
  {
    ghost var before := pages.spans;
    var s := pages.spans[p];
    TouchKeeps(pages.spans, pages.buckets, pages.idSpanMap, pages.runs, pages.nextPtr, p, s.(freeBlocks := []));
    pages.spans := pages.spans[p := s.(freeBlocks := [])];
    assert pages.spans - {p} == before - {p};
    pages.ReleaseSpanToPageCache(p);
  }

  lemma GivenToClient(k: Books, b: int, rest: seq<int>, i: nat)
    requires Carries(k, [b] + rest) && OfClass(k, [b] + rest, i)
    ensures b !in Clients(k) && Clients(GiveToClient(k, b)) == Clients(k)[b := i]
    ensures OfClass(GiveToClient(k, b), rest, i)
  {
    assert b in [b] + rest;
    forall c | c in rest ensures c in [b] + rest {
    }
    var k' := GiveToClient(k, b);
    forall c ensures c in Clients(k') <==> c in Clients(k)[b := i] {
      assert c in k.blocks <==> c in k'.blocks;
    }
  }

  lemma TakenFromClient(k: Books, b: int)
    requires b in Clients(k)
    ensures Clients(TakeFromClient(k, b)) == Clients(k) - {b}
    ensures OfClass(TakeFromClient(k, b), [b], Clients(k)[b])
  {
    var k' := TakeFromClient(k, b);
    forall c ensures c in Clients(k') <==> c in Clients(k) - {b} {
      assert c in k.blocks <==> c in k'.blocks;
    }
  }

  lemma TakenFromCache(k: Books, t: nat, i: nat, n: nat)
    requires Balanced(k) && t < |k.caches| && i < CLASSES && n <= |k.caches[t][i].blocks|
    ensures var k', taken := TakeFromCache(k, t, i, n), k.caches[t][i].blocks[..n];
            OfClass(k', taken, i) && Clients(k') == Clients(k)
  {
    var k', taken := TakeFromCache(k, t, i, n), k.caches[t][i].blocks[..n];
    forall b | b in taken ensures b in k.blocks && k.blocks[b].place == InCache(t, i) {
      assert b in k.caches[t][i].blocks;
    }
    MoveKeepsClients(k, k');
  }

  lemma PutInCacheClients(k: Books, t: nat, i: nat, carried: seq<int>)
    requires Carries(k, carried) && t < |k.caches| && i < |k.caches[t]|
    ensures Clients(PutInCache(k, t, i, carried)) == Clients(k)
  {
    MoveKeepsClients(k, PutInCache(k, t, i, carried));
  }

  /** The books do not depend on batch sizes. */
  lemma AdjustKeeps(k: Books, t: nat, i: nat, adjustSize: nat, carried: seq<int>)
    requires Balanced(k) && Carries(k, carried) && t < |k.caches| && i < CLASSES
    ensures var k' := k.(caches := k.caches[t := k.caches[t][i := k.caches[t][i].(adjustSize := adjustSize)]]);
            Balanced(k') && Carries(k', carried) && Clients(k') == Clients(k)
  {
    var k' := k.(caches := k.caches[t := k.caches[t][i := k.caches[t][i].(adjustSize := adjustSize)]]);
    CacheChange(k, t, i, k.caches[t][i].(adjustSize := adjustSize), k.blocks);
    MoveBalances(k, k');
  }

  /** Slow start: a thread's batch size for a class stays small, and the thread never keeps as many
      free blocks of the class as its batch size. */
  predicate Bounded(list: FreeList) {
    1 <= list.adjustSize <= 513 && |list.blocks| < list.adjustSize
  }

  ghost predicate AllBounded(caches: Caches) {
    forall t, i :: 0 <= t < |caches| && 0 <= i < |caches[t]| ==> Bounded(caches[t][i])
  }

  lemma UpdateTwice(caches: Caches, t: nat, i: nat, a: FreeList, b: FreeList)
    requires t < |caches| && i < |caches[t]|
    ensures var c: Caches := caches[t := caches[t][i := a]];
            c[t := c[t][i := b]] == caches[t := caches[t][i := b]]
  {
    var c: Caches := caches[t := caches[t][i := a]];
    assert c[t][i := b] == caches[t][i := b];
  }

  lemma BoundedUpdate(caches: Caches, t: nat, i: nat, list: FreeList)
    requires AllBounded(caches) && t < |caches| && i < |caches[t]| && Bounded(list)
    ensures AllBounded(caches[t := caches[t][i := list]])
  {
    var caches': Caches := caches[t := caches[t][i := list]];
    forall t', i' | 0 <= t' < |caches'| && 0 <= i' < |caches'[t']| ensures Bounded(caches'[t'][i']) {
      if t' != t || i' != i {
        assert caches'[t'][i'] == caches[t'][i'];
      }
    }
  }

  // ---------------------------------------------------------------- whole operations on the books

  function CacheToClient(k: Books, t: nat, i: nat): Books
    requires t < |k.caches| && i < |k.caches[t]| && k.caches[t][i].blocks != []
  {
    GiveToClient(TakeFromCache(k, t, i, 1), k.caches[t][i].blocks[0])
  }

  lemma CacheToClientKeeps(k: Books, t: nat, i: nat)
    requires Balanced(k) && Carries(k, []) && t < |k.caches| && i < CLASSES && k.caches[t][i].blocks != []
    ensures var k', b := CacheToClient(k, t, i), k.caches[t][i].blocks[0];
            && Balanced(k') && Carries(k', [])
            && b !in Clients(k) && Clients(k') == Clients(k)[b := i]
  {
    var b := k.caches[t][i].blocks[0];
    assert k.caches[t][i].blocks[..1] == [b] + [];
    TakeFromCacheKeeps(k, t, i, 1);
    TakenFromCache(k, t, i, 1);
    var k1 := TakeFromCache(k, t, i, 1);
    GiveToClientKeeps(k1, b, []);
    GivenToClient(k1, b, [], i);
  }

  function ShareOut(k: Books, t: nat, i: nat, taken: seq<int>): Books
    requires t < |k.caches| && i < |k.caches[t]| && taken != []
  {
    PutInCache(GiveToClient(k, taken[0]), t, i, taken[1..])
  }

  lemma ShareOutKeeps(k: Books, t: nat, i: nat, taken: seq<int>)
    requires Balanced(k) && Carries(k, taken) && OfClass(k, taken, i) && t < |k.caches| && i < CLASSES && taken != []
    ensures var k', b := ShareOut(k, t, i, taken), taken[0];
            && Balanced(k') && Carries(k', [])
            && b !in Clients(k) && Clients(k') == Clients(k)[b := i]
  {
    var b, rest := taken[0], taken[1..];
    assert taken == [b] + rest;
    GiveToClientKeeps(k, b, rest);
    GivenToClient(k, b, rest, i);
    var k1 := GiveToClient(k, b);
    PutInCacheKeeps(k1, t, i, rest);
    PutInCacheClients(k1, t, i, rest);
  }

  function ClientToCache(k: Books, t: nat, i: nat, b: int): Books
    requires t < |k.caches| && i < |k.caches[t]|
  {
    PutInCache(TakeFromClient(k, b), t, i, [b])
  }

  lemma ClientToCacheKeeps(k: Books, t: nat, i: nat, b: int)
    requires Balanced(k) && Carries(k, []) && t < |k.caches| && i < CLASSES && b in Clients(k) && Clients(k)[b] == i
    ensures var k' := ClientToCache(k, t, i, b);
            Balanced(k') && Carries(k', []) && Clients(k') == Clients(k) - {b}
  {
    TakeFromClientKeeps(k, b);
    TakenFromClient(k, b);
    var k1 := TakeFromClient(k, b);
    PutInCacheKeeps(k1, t, i, [b]);
    PutInCacheClients(k1, t, i, [b]);
  }

  class Allocator {
    const pages: Cache
    var lists: seq<seq<SpanPtr>>
    var caches: Caches
    ghost var classOf: map<SpanPtr, nat>
    ghost var cut: map<SpanPtr, seq<int>>
    ghost var blocks: map<int, Block>

    ghost function Ledger(): Books
      reads this, pages
    {
      Books(pages.spans, classOf, cut, blocks, lists, caches)
    }

    /** The books balance while the operation at hand carries some blocks. */
    ghost predicate ValidCarrying(carried: seq<int>)
      reads this, pages
    {
      pages.Valid() && Balanced(Ledger()) && Carries(Ledger(), carried)
    }

    ghost predicate Valid()
      reads this, pages
    {
      ValidCarrying([]) && AllBounded(caches)
    }

    constructor (threads: nat)
      ensures Valid() && fresh(pages) && pages.runs == [] && blocks == map[] && |caches| == threads
    {
      pages := new Cache();
      lists := seq(CLASSES, _ => []);
      caches := seq(threads, _ => seq(CLASSES, _ => FreeList([], 1)));
      classOf, cut, blocks := map[], map[], map[];
    }

    /** A span of the class with a free block: the first such span of the class's list, or a new
        one taken from the page cache and carved. */
    method GetOneSpan(i: nat, systemRun: int) returns (p: SpanPtr)
      requires ValidCarrying([]) && i < CLASSES && Tiles(ClassSize(i))
      requires forall x :: systemRun <= x < systemRun + MAX_NPAGES - 1 ==> !Obtained(pages.runs, x)
      modifies this, pages
      ensures ValidCarrying([]) && OnlyAdds(old(Ledger()), Ledger())
      ensures p in classOf && classOf[p] == i && p in pages.spans && pages.spans[p].freeBlocks != []
      ensures pages.runs == old(pages.runs) || pages.runs == old(pages.runs) + [systemRun]
    {
      var j := 0;
      while j < |lists[i]|
      {
        p := lists[i][j];
        assert p in lists[i];
        if pages.spans[p].freeBlocks != [] {
          return;
        }
        j := j + 1;
      }
      p := AdoptSpan(i, systemRun);
    }

    method AdoptSpan(i: nat, systemRun: int) returns (p: SpanPtr)
      requires ValidCarrying([]) && i < CLASSES && Tiles(ClassSize(i))
      requires forall x :: systemRun <= x < systemRun + MAX_NPAGES - 1 ==> !Obtained(pages.runs, x)
      modifies this, pages
      ensures ValidCarrying([]) && OnlyAdds(old(Ledger()), Ledger())
      ensures p in classOf && classOf[p] == i && p in pages.spans && pages.spans[p].freeBlocks != []
      ensures pages.runs == old(pages.runs) || pages.runs == old(pages.runs) + [systemRun]
    {
      ghost var k := Ledger();
      ghost var taken;
      p, taken := TakeAndCarve(pages, i, systemRun);
      AdoptTaken(k, taken, p, i);
      Enlist(p, i, Adopt(k, pages.spans, p, i));
    }

    method Enlist(p: SpanPtr, i: nat, ghost k': Books)
      requires i < |lists| && k'.lists == lists[i := [p] + lists[i]] && k'.spans == pages.spans && k'.caches == caches
      modifies this`lists, this`classOf, this`cut, this`blocks
      ensures Ledger() == k'
    {
      lists := lists[i := [p] + lists[i]];
      classOf, cut, blocks := k'.classOf, k'.cut, k'.blocks;
    }

    /** At least one and at most `batch` blocks leave the front of a chain of the class. */
    method FetchRangeObj(i: nat, batch: nat, systemRun: int) returns (taken: seq<int>)
      requires ValidCarrying([]) && i < CLASSES && Tiles(ClassSize(i)) && batch > 0
      requires forall x :: systemRun <= x < systemRun + MAX_NPAGES - 1 ==> !Obtained(pages.runs, x)
      modifies this, pages
      ensures ValidCarrying(taken) && 0 < |taken| <= batch && OfClass(Ledger(), taken, i)
      ensures caches == old(caches) && Clients(Ledger()) == Clients(old(Ledger()))
      ensures pages.runs == old(pages.runs) || pages.runs == old(pages.runs) + [systemRun]
    {
      var p := GetOneSpan(i, systemRun);
      OnlyAddsKeepsClients(old(Ledger()), Ledger());
      taken := TakeBatch(p, i, batch);
    }

    method TakeBatch(p: SpanPtr, ghost i: nat, batch: nat) returns (taken: seq<int>)
      requires ValidCarrying([]) && p in classOf && classOf[p] == i && p in pages.spans
      requires pages.spans[p].freeBlocks != [] && batch > 0
      modifies this`blocks, pages`spans
      ensures ValidCarrying(taken) && 0 < |taken| <= batch && OfClass(Ledger(), taken, i)
      ensures Clients(Ledger()) == Clients(old(Ledger()))
    {
      ghost var k := Ledger();
      taken := TakeFromSpan(p, batch);
      TakeFromChainKeeps(k, p, |taken|);
      TakenFromChain(k, p, |taken|);
      TouchKeeps(k.spans, pages.buckets, pages.idSpanMap, pages.runs, pages.nextPtr, p, pages.spans[p]);
      assert pages.spans == k.spans[p := pages.spans[p]];
    }

    /** FetchRangeObj's walk along the chain, and the cut after the last block taken. */
    method TakeFromSpan(p: SpanPtr, batch: nat) returns (taken: seq<int>)
      requires p in pages.spans && pages.spans[p].freeBlocks != [] && batch > 0
      modifies this`blocks, pages`spans
      ensures 0 < |taken| <= batch && |taken| <= |old(pages.spans)[p].freeBlocks|
      ensures taken == old(pages.spans)[p].freeBlocks[..|taken|]
      ensures |taken| < batch ==> taken == old(pages.spans)[p].freeBlocks
      ensures Ledger() == TakeFromChain(old(Ledger()), p, |taken|)
    {
      var s := pages.spans[p];
      var n := 1;
      while n < batch && n < |s.freeBlocks|
        invariant 1 <= n <= batch && n <= |s.freeBlocks|
      {
        n := n + 1;
      }
      taken := s.freeBlocks[..n];
      pages.spans := pages.spans[p := s.(freeBlocks := s.freeBlocks[n..], useCount := s.useCount + n)];
      blocks := Move(blocks, taken, InTransit);
    }

    /** Every carried block returns to its own span; spans all of whose blocks are back go to the
        page cache. */
    method ReleaseListToSpans(start: seq<int>, i: nat)
      requires ValidCarrying(start) && OfClass(Ledger(), start, i) && i < CLASSES
      modifies this, pages
      ensures ValidCarrying([]) && caches == old(caches)
      ensures Clients(Ledger()) == Clients(old(Ledger())) && pages.runs == old(pages.runs)
    {
      var rest := start;
      while rest != []
        invariant ValidCarrying(rest) && OfClass(Ledger(), rest, i) && caches == old(caches)
        invariant Clients(Ledger()) == Clients(old(Ledger())) && pages.runs == old(pages.runs)
      {
        var b, next := rest[0], rest[1..];
        assert rest == [b] + next;
        ReleaseBlock(b, next, i);
        rest := next;
      }
    }

    method ReleaseBlock(b: int, ghost rest: seq<int>, i: nat)
      requires ValidCarrying([b] + rest) && OfClass(Ledger(), [b] + rest, i) && i < CLASSES
      modifies this, pages
      ensures ValidCarrying(rest) && OfClass(Ledger(), rest, i) && caches == old(caches)
      ensures Clients(Ledger()) == Clients(old(Ledger())) && pages.runs == old(pages.runs)
    {
      var p := ReturnBlock(b, rest, i);
      if pages.spans[p].useCount == 0 {
        RetireSpan(p, rest, i);
      }
    }

    method ReturnBlock(b: int, ghost rest: seq<int>, ghost i: nat) returns (p: SpanPtr)
      requires ValidCarrying([b] + rest) && OfClass(Ledger(), [b] + rest, i)
      modifies this`blocks, pages`spans
      ensures ValidCarrying(rest) && OfClass(Ledger(), rest, i)
      ensures Clients(Ledger()) == Clients(old(Ledger()))
      ensures p in classOf && classOf[p] == i && p in pages.spans
    {
      ghost var k := Ledger();
      assert b in [b] + rest;
      BlockInItsSpan(k, b);
      p := pages.MapObjectToSpan(b, blocks[b].span);
      ReturnToChainKeeps(k, b, rest);
      ReturnedToChain(k, b, rest, i);
      PushOnChain(p, b);
      TouchKeeps(k.spans, pages.buckets, pages.idSpanMap, pages.runs, pages.nextPtr, p, pages.spans[p]);
      assert pages.spans == k.spans[p := pages.spans[p]];
    }

    method PushOnChain(p: SpanPtr, b: int)
      requires p in pages.spans && pages.spans[p].useCount > 0 && b in blocks && blocks[b].span == p
      modifies this`blocks, pages`spans
      ensures Ledger() == ReturnToChain(old(Ledger()), b)
    {
      var s := pages.spans[p];
      pages.spans := pages.spans[p := s.(freeBlocks := [b] + s.freeBlocks, useCount := s.useCount - 1)];
      blocks := Move(blocks, [b], InChain);
    }

    method RetireSpan(p: SpanPtr, ghost carried: seq<int>, i: nat)
      requires ValidCarrying(carried) && OfClass(Ledger(), carried, i) && i < CLASSES
      requires p in classOf && classOf[p] == i && p in pages.spans && pages.spans[p].useCount == 0
      modifies this, pages
      ensures ValidCarrying(carried) && OfClass(Ledger(), carried, i) && caches == old(caches)
      ensures Clients(Ledger()) == Clients(old(Ledger())) && pages.runs == old(pages.runs)
    {
      ghost var k := Ledger();
      GiveBack(pages, p);
      RetireKeeps(k, pages.spans, p, carried);
      RetiredKeepsCarried(k, pages.spans, p, carried, i);
      RetireKeepsClients(k, pages.spans, p);
      Forget(p, i);
    }

    method Forget(p: SpanPtr, i: nat)
      requires p in classOf && classOf[p] == i && i < |lists|
      modifies this
      ensures Ledger() == Retire(old(Ledger()), pages.spans, p)
    {
      ghost var k' := Retire(Ledger(), pages.spans, p);
      lists := lists[i := Erase(lists[i], p)];
      classOf, cut, blocks := k'.classOf, k'.cut, k'.blocks;
    }

    /** ThreadCache::Allocate: some block that no client held, large enough, is now the caller's. */
    method Allocate(t: nat, bytes: nat, systemRun: int) returns (b: int)
      requires Valid() && t < |caches| && 0 < bytes <= MAX_CLASS_BYTES && Tiles(RoundUp(bytes))
      requires forall x :: systemRun <= x < systemRun + MAX_NPAGES - 1 ==> !Obtained(pages.runs, x)
      modifies this, pages
      ensures Valid() && |caches| == old(|caches|)
      ensures b !in Clients(old(Ledger())) && Clients(Ledger()) == Clients(old(Ledger()))[b := Index(bytes)]
      ensures pages.runs == old(pages.runs) || pages.runs == old(pages.runs) + [systemRun]
    {
      RoundUpServes(bytes);
      var i := Index(bytes);
      if caches[t][i].blocks != [] {
        b := PopFront(t, i);
      } else {
        b := FetchFromCentralCache(t, i, systemRun);
      }
    }

    method PopFront(t: nat, i: nat) returns (b: int)
      requires Valid() && t < |caches| && i < CLASSES && caches[t][i].blocks != []
      modifies this
      ensures Valid() && |caches| == old(|caches|)
      ensures b !in Clients(old(Ledger())) && Clients(Ledger()) == Clients(old(Ledger()))[b := i]
    {
      var list := caches[t][i];
      b := list.blocks[0];
      CacheToClientKeeps(Ledger(), t, i);
      ghost var k' := CacheToClient(Ledger(), t, i);
      BoundedUpdate(caches, t, i, list.(blocks := list.blocks[1..]));
      ReplaceList(t, i, list.(blocks := list.blocks[1..]), k'.blocks);
      assert Ledger() == k';
    }

    /** One list of one thread is replaced, and the books follow. */
    method ReplaceList(t: nat, i: nat, list: FreeList, ghost blocks': map<int, Block>)
      requires t < |caches| && i < |caches[t]|
      modifies this`caches, this`blocks
      ensures caches == old(caches)[t := old(caches)[t][i := list]] && blocks == blocks'
    {
      caches := caches[t := caches[t][i := list]];
      blocks := blocks';
    }

    method FetchFromCentralCache(t: nat, i: nat, systemRun: int) returns (b: int)
      requires Valid() && t < |caches| && i < CLASSES && caches[t][i].blocks == [] && Tiles(ClassSize(i))
      requires forall x :: systemRun <= x < systemRun + MAX_NPAGES - 1 ==> !Obtained(pages.runs, x)
      modifies this, pages
      ensures Valid() && |caches| == old(|caches|)
      ensures b !in Clients(old(Ledger())) && Clients(Ledger()) == Clients(old(Ledger()))[b := i]
      ensures pages.runs == old(pages.runs) || pages.runs == old(pages.runs) + [systemRun]
    {
      var batch := SlowStart(t, i);
      var taken := FetchRangeObj(i, batch, systemRun);
      b := Distribute(t, i, taken);
    }

    /** The batch to ask for; unless the limit is reached the next one will be larger by one. */
    method SlowStart(t: nat, i: nat) returns (batch: nat)
      requires Valid() && t < |caches| && i < CLASSES && caches[t][i].blocks == []
      modifies this`caches
      ensures Valid() && |caches| == old(|caches|) && Clients(Ledger()) == Clients(old(Ledger()))
      ensures caches[t][i].blocks == [] && 0 < batch <= LimitSize(ClassSize(i)) && batch <= old(caches)[t][i].adjustSize
      ensures batch < LimitSize(ClassSize(i)) ==> caches[t][i].adjustSize == old(caches)[t][i].adjustSize + 1
      ensures batch < caches[t][i].adjustSize
    {
      var list := caches[t][i];
      var limit := LimitSize(ClassSize(i));
      batch := if list.adjustSize < limit then list.adjustSize else limit;
      if list.adjustSize == batch {
        AdjustKeeps(Ledger(), t, i, list.adjustSize + 1, []);
        BoundedUpdate(caches, t, i, list.(adjustSize := list.adjustSize + 1));
        caches := caches[t := caches[t][i := list.(adjustSize := list.adjustSize + 1)]];
      }
    }

    /** The first block fetched goes to the caller, the others to the front of the thread's list. */
    method Distribute(t: nat, i: nat, taken: seq<int>) returns (b: int)
      requires ValidCarrying(taken) && taken != [] && OfClass(Ledger(), taken, i) && t < |caches| && i < CLASSES
      requires AllBounded(caches) && caches[t][i].blocks == [] && |taken| <= caches[t][i].adjustSize
      modifies this
      ensures Valid() && |caches| == old(|caches|)
      ensures b !in Clients(old(Ledger())) && Clients(Ledger()) == Clients(old(Ledger()))[b := i]
    {
      b := taken[0];
      var list := caches[t][i];
      var list' := list.(blocks := taken[1..] + list.blocks);
      ShareOutKeeps(Ledger(), t, i, taken);
      BoundedUpdate(caches, t, i, list');
      ReplaceList(t, i, list', ShareOut(Ledger(), t, i, taken).blocks);
    }

    /** ThreadCache::Deallocate, with the size the block was asked for. */
    method Deallocate(t: nat, b: int, bytes: nat)
      requires Valid() && t < |caches| && 0 < bytes <= MAX_CLASS_BYTES
      requires b in Clients(Ledger()) && Clients(Ledger())[b] == Index(bytes)
      modifies this, pages
      ensures Valid() && |caches| == old(|caches|)
      ensures Clients(Ledger()) == Clients(old(Ledger())) - {b} && pages.runs == old(pages.runs)
    {
      RoundUpServes(bytes);
      var i := Index(bytes);
      ghost var list := caches[t][i];
      PushFront(t, i, b);
      if |caches[t][i].blocks| >= caches[t][i].adjustSize {
        ReturnToCentralCache(t, i);
        BoundedUpdate(old(caches), t, i, list.(blocks := []));
        UpdateTwice(old(caches), t, i, list.(blocks := [b] + list.blocks), list.(blocks := []));
      } else {
        BoundedUpdate(old(caches), t, i, list.(blocks := [b] + list.blocks));
      }
    }

    method PushFront(t: nat, i: nat, b: int)
      requires Valid() && t < |caches| && i < CLASSES && b in Clients(Ledger()) && Clients(Ledger())[b] == i
      modifies this
      ensures ValidCarrying([]) && Clients(Ledger()) == Clients(old(Ledger())) - {b}
      ensures var list := old(caches)[t][i];
              caches == old(caches)[t := old(caches)[t][i := list.(blocks := [b] + list.blocks)]]
    {
      var list := caches[t][i];
      ClientToCacheKeeps(Ledger(), t, i, b);
      ReplaceList(t, i, list.(blocks := [b] + list.blocks), ClientToCache(Ledger(), t, i, b).blocks);
    }

    method ReturnToCentralCache(t: nat, i: nat)
      requires ValidCarrying([]) && t < |caches| && i < CLASSES
      modifies this, pages
      ensures ValidCarrying([]) && Clients(Ledger()) == Clients(old(Ledger())) && pages.runs == old(pages.runs)
      ensures caches == old(caches)[t := old(caches)[t][i := old(caches)[t][i].(blocks := [])]]
    {
      ghost var k := Ledger();
      var list := caches[t][i];
      var n := |list.blocks|;
      assert list.blocks[..n] == list.blocks && list.blocks[n..] == [];
      TakeFromCacheKeeps(k, t, i, n);
      TakenFromCache(k, t, i, n);
      caches := caches[t := caches[t][i := list.(blocks := [])]];
      blocks := TakeFromCache(k, t, i, n).blocks;
      assert Ledger() == TakeFromCache(k, t, i, n);
      ReleaseListToSpans(list.blocks, i);
    }
  }

  // ---------------------------------------------------------------- whole runs

  /** What a client of the allocator may ask for; `slot` names one of the blocks handed out and not
      yet freed, and `systemRun` is what SystemAlloc would answer. */
  datatype Request = Alloc(thread: nat, bytes: nat, systemRun: int) | Free(thread: nat, slot: nat)

  datatype Outstanding = Outstanding(addr: int, bytes: nat)

  ghost predicate Servable(requests: seq<Request>, threads: nat) {
    && (forall r :: r in requests ==> r.thread < threads)
    && (forall r :: r in requests && r.Alloc? ==> 0 < r.bytes <= MAX_CLASS_BYTES && Tiles(RoundUp(r.bytes)))
    && (forall i, j :: 0 <= i < j < |requests| && requests[i].Alloc? && requests[j].Alloc? ==>
          Disjoint(requests[i].systemRun, MAX_NPAGES - 1, requests[j].systemRun, MAX_NPAGES - 1))
  }

  /** The client's list agrees with the allocator's books. */
  ghost predicate Agrees(k: Books, held: seq<Outstanding>) {
    && (forall i, j :: 0 <= i < j < |held| ==> held[i].addr != held[j].addr)
    && (forall i :: 0 <= i < |held| ==>
          && 0 < held[i].bytes <= MAX_CLASS_BYTES
          && held[i].addr in Clients(k) && Clients(k)[held[i].addr] == Index(held[i].bytes))
    && (forall b :: b in Clients(k) ==> exists i :: 0 <= i < |held| && held[i].addr == b)
  }

  ghost predicate FreshFrom(requests: seq<Request>, n: nat, runs: seq<int>) {
    forall j, x ::
      && n <= j < |requests| && requests[j].Alloc?
      && requests[j].systemRun <= x < requests[j].systemRun + MAX_NPAGES - 1
      ==> !Obtained(runs, x)
  }

  lemma FreshGoesOn(requests: seq<Request>, n: nat, runs: seq<int>, threads: nat)
    requires Servable(requests, threads) && n < |requests| && requests[n].Alloc? && FreshFrom(requests, n, runs)
    ensures FreshFrom(requests, n + 1, runs + [requests[n].systemRun])
  {
    var run := requests[n].systemRun;
    forall j, x | n + 1 <= j < |requests| && requests[j].Alloc? &&
      requests[j].systemRun <= x < requests[j].systemRun + MAX_NPAGES - 1
      ensures !Obtained(runs + [run], x)
    {
      if Obtained(runs + [run], x) {
        var i :| 0 <= i < |runs + [run]| && (runs + [run])[i] <= x < (runs + [run])[i] + MAX_NPAGES - 1;
        assert i < |runs| ==> Obtained(runs, x);
      }
    }
  }

  lemma AgreesAfterAlloc(k: Books, k': Books, held: seq<Outstanding>, b: int, bytes: nat)
    requires Agrees(k, held) && 0 < bytes <= MAX_CLASS_BYTES && 0 <= Index(bytes)
    requires b !in Clients(k) && Clients(k') == Clients(k)[b := Index(bytes)]
    ensures Agrees(k', held + [Outstanding(b, bytes)])
  {
    var held' := held + [Outstanding(b, bytes)];
    forall c | c in Clients(k') ensures exists i :: 0 <= i < |held'| && held'[i].addr == c {
      if c == b {
        assert held'[|held|].addr == c;
      } else {
        var i :| 0 <= i < |held| && held[i].addr == c;
        assert held'[i].addr == c;
      }
    }
  }

  lemma WithoutOne(held: seq<Outstanding>, n: nat, held': seq<Outstanding>)
    requires n < |held| && held' == held[..n] + held[n + 1..]
    ensures |held'| == |held| - 1
    ensures forall i :: 0 <= i < |held'| ==> held'[i] == held[if i < n then i else i + 1]
  {
  }

  lemma AgreesAfterFree(k: Books, k': Books, held: seq<Outstanding>, n: nat)
    requires Agrees(k, held) && n < |held| && Clients(k') == Clients(k) - {held[n].addr}
    ensures Agrees(k', held[..n] + held[n + 1..])
  {
    var held' := held[..n] + held[n + 1..];
    WithoutOne(held, n, held');
    forall c | c in Clients(k') ensures exists i :: 0 <= i < |held'| && held'[i].addr == c {
      var i :| 0 <= i < |held| && held[i].addr == c;
      assert held'[if i < n then i else i - 1] == held[i];
    }
  }

  lemma OutstandingDisjoint(k: Books, held: seq<Outstanding>, i: nat, j: nat)
    requires Separate(k.spans) && Balanced(k) && Agrees(k, held) && i < j < |held|
    ensures Disjoint(held[i].addr, held[i].bytes, held[j].addr, held[j].bytes)
  {
    RoundUpServes(held[i].bytes);
    RoundUpServes(held[j].bytes);
    BlocksNeverOverlap(k, held[i].addr, held[j].addr);
  }

  /** Over every run of any number of threads, freeing each block with its own size and possibly on
      another thread, no two blocks that clients hold share a byte; the books stay balanced. */
  method Serve(a: Allocator, requests: seq<Request>) returns (held: seq<Outstanding>)
    requires a.Valid() && a.blocks == map[] && a.pages.runs == [] && Servable(requests, |a.caches|)
    modifies a, a.pages
    ensures a.Valid() && Agrees(a.Ledger(), held)
    ensures forall i, j :: 0 <= i < j < |held| ==>
              Disjoint(held[i].addr, held[i].bytes, held[j].addr, held[j].bytes)
  {
    held := [];
    var n := 0;
    while n < |requests|
      invariant n <= |requests| && a.Valid() && Agrees(a.Ledger(), held) && |a.caches| == old(|a.caches|)
      invariant FreshFrom(requests, n, a.pages.runs)
    {
      var r := requests[n];
      assert r in requests;
      ghost var k := a.Ledger();
      ghost var runs := a.pages.runs;
      match r {
        case Alloc(t, bytes, systemRun) =>
          RoundUpServes(bytes);
          var b := a.Allocate(t, bytes, systemRun);
          AgreesAfterAlloc(k, a.Ledger(), held, b, bytes);
          FreshGoesOn(requests, n, runs, |a.caches|);
          held := held + [Outstanding(b, bytes)];
        case Free(t, slot) =>
          if slot < |held| {
            a.Deallocate(t, held[slot].addr, held[slot].bytes);
            AgreesAfterFree(k, a.Ledger(), held, slot);
            held := held[..slot] + held[slot + 1..];
          }
      }
      n := n + 1;
    }
    forall i, j | 0 <= i < j < |held| ensures Disjoint(held[i].addr, held[i].bytes, held[j].addr, held[j].bytes) {
      OutstandingDisjoint(a.Ledger(), held, i, j);
    }
  }
}
