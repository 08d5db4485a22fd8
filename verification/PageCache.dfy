/** The page cache: spans of 4 KB pages, kept free in one bucket per length, split on demand and
    merged with their neighbours on release.

    `Span` objects live in `spans`, keyed by their address; `new Span` yields an address not used
    before and `delete` removes the key.  `runs` records the first page of each run of 128 pages
    obtained from the system; `SystemAlloc` itself is a parameter that names a run of new pages.
 */
module PageCache {
  import opened SizeManager
  import opened Lists

  type SpanPtr = nat

  datatype Span = Span(pageId: int, pageNum: nat, useCount: nat, freeBlocks: seq<int>, isUse: bool)

  type Spans = map<SpanPtr, Span>

  type Buckets = seq<seq<SpanPtr>>

  predicate Contains(s: Span, page: int) { s.pageId <= page < s.pageId + s.pageNum }

  predicate Apart(a: Span, b: Span) {
    a.pageId + a.pageNum <= b.pageId || b.pageId + b.pageNum <= a.pageId
  }

  ghost predicate Separate(spans: Spans) {
    && (forall p :: p in spans ==> 1 <= spans[p].pageNum < MAX_NPAGES)
    && (forall p, q {:trigger Apart(spans[p], spans[q])} :: p in spans && q in spans && p != q ==>
        Apart(spans[p], spans[q]))
  }

  ghost predicate InSomeSpan(spans: Spans, page: int) {
    exists p :: p in spans && Contains(spans[p], page)
  }

  ghost predicate Obtained(runs: seq<int>, page: int) {
    exists i :: 0 <= i < |runs| && runs[i] <= page < runs[i] + MAX_NPAGES - 1
  }

  ghost predicate Covers(spans: Spans, runs: seq<int>) {
    forall x :: Obtained(runs, x) <==> InSomeSpan(spans, x)
  }

  /** Bucket n holds, once each, exactly the free spans of n pages.  `held` is a span that is
      neither in use nor in a bucket because the operation at hand holds it. */
  ghost predicate Bucketed(spans: Spans, buckets: Buckets, held: set<SpanPtr>) {
    && |buckets| == MAX_NPAGES
    && (forall n, i :: 0 <= n < |buckets| && 0 <= i < |buckets[n]| ==>
          var p := buckets[n][i];
          p in spans && p !in held && !spans[p].isUse && spans[p].pageNum == n)
    && (forall n :: 0 <= n < |buckets| ==> NoDup(buckets[n]))
    && (forall p :: p in spans && p !in held && !spans[p].isUse && spans[p].pageNum < |buckets| ==>
          p in buckets[spans[p].pageNum])
    && (forall p :: p in spans && !spans[p].isUse ==> spans[p].useCount == 0 && spans[p].freeBlocks == [])
  }

  /** Every entry of idSpanMap names a live span containing the page; spans in use or held are
      mapped on all their pages. */
  ghost predicate Mapped(spans: Spans, idSpanMap: map<int, SpanPtr>, held: set<SpanPtr>) {
    && (forall x :: x in idSpanMap ==> idSpanMap[x] in spans && Contains(spans[idSpanMap[x]], x))
    && (forall p, x :: p in spans && (spans[p].isUse || p in held) && Contains(spans[p], x) ==> x in idSpanMap)
  }

  /** The page cache partition.  Addresses from `nextPtr` on are unused. */
  ghost predicate Partition(spans: Spans, buckets: Buckets, idSpanMap: map<int, SpanPtr>, runs: seq<int>,
                            nextPtr: SpanPtr, held: set<SpanPtr>) {
    && Separate(spans)
    && Covers(spans, runs)
    && Bucketed(spans, buckets, held)
    && Mapped(spans, idSpanMap, held)
    && forall p :: p in spans ==> p < nextPtr
  }

  /** The same spans are in use, with the same contents. */
  ghost predicate SameUsed(before: Spans, after: Spans) {
    && (forall q :: q in before && before[q].isUse ==> q in after && after[q] == before[q])
    && (forall q :: q in after && after[q].isUse ==> q in before && before[q].isUse)
  }

  /** idSpanMap[first + i] = p for the first n pages. */
  function MapPages(idSpanMap: map<int, SpanPtr>, first: int, n: nat, p: SpanPtr): (r: map<int, SpanPtr>)
    ensures forall x :: x in r <==> x in idSpanMap || first <= x < first + n
    ensures forall x :: x in r ==> r[x] == if first <= x < first + n then p else idSpanMap[x]
  {
    if n == 0 then idSpanMap else MapPages(idSpanMap, first, n - 1, p)[first + n - 1 := p]
  }

  // ---------------------------------------------------------------- taking spans

  lemma PopHolds(spans: Spans, buckets: Buckets, n: nat)
    requires Bucketed(spans, buckets, {}) && n < |buckets| && buckets[n] != []
    ensures buckets[n][0] in spans
    ensures Bucketed(spans, buckets[n := buckets[n][1..]], {buckets[n][0]})
  {
    var p := buckets[n][0];
    var b' := buckets[n := buckets[n][1..]];
    forall m, i | 0 <= m < |b'| && 0 <= i < |b'[m]|
      ensures b'[m][i] in spans && b'[m][i] != p && !spans[b'[m][i]].isUse && spans[b'[m][i]].pageNum == m
    {
      if m == n {
        assert b'[m][i] == buckets[n][i + 1];
      }
    }
  }

  lemma PushHeld(spans: Spans, buckets: Buckets, p: SpanPtr)
    requires Bucketed(spans, buckets, {p}) && p in spans && !spans[p].isUse && spans[p].pageNum < |buckets|
    ensures var n := spans[p].pageNum; Bucketed(spans, buckets[n := [p] + buckets[n]], {})
  {
    var n := spans[p].pageNum;
    var b' := buckets[n := [p] + buckets[n]];
    forall m, i | 0 <= m < |b'| && 0 <= i < |b'[m]|
      ensures b'[m][i] in spans && !spans[b'[m][i]].isUse && spans[b'[m][i]].pageNum == m
    {
      if m == n && i > 0 {
        assert b'[m][i] == buckets[n][i - 1];
      }
    }
    assert NoDup(b'[n]);
  }

  lemma MapWhole(spans: Spans, idSpanMap: map<int, SpanPtr>, p: SpanPtr)
    requires Separate(spans) && Mapped(spans, idSpanMap, {}) && p in spans
    ensures Mapped(spans, MapPages(idSpanMap, spans[p].pageId, spans[p].pageNum, p), {p})
  {
  }

  /** The first k pages of a free span become a new span, the rest stays where it was. */
  function SplitSpans(spans: Spans, src: SpanPtr, k: nat, made: SpanPtr): Spans
    requires src in spans && k <= spans[src].pageNum
  {
    var s := spans[src];
    spans[made := Span(s.pageId, k, 0, [], false)][src := s.(pageId := s.pageId + k, pageNum := s.pageNum - k)]
  }

  lemma SplitKeepsPages(spans: Spans, runs: seq<int>, src: SpanPtr, k: nat, made: SpanPtr)
    requires Separate(spans) && Covers(spans, runs)
    requires src in spans && made !in spans && 0 < k < spans[src].pageNum
    ensures var spans' := SplitSpans(spans, src, k, made); Separate(spans') && Covers(spans', runs)
  {
    var spans' := SplitSpans(spans, src, k, made);
    forall p, q | p in spans' && q in spans' && p != q ensures Apart(spans'[p], spans'[q]) {
      var p0, q0 := if p == made then src else p, if q == made then src else q;
      assert p0 != q0 ==> Apart(spans[p0], spans[q0]);
    }
    forall x ensures InSomeSpan(spans, x) <==> InSomeSpan(spans', x) {
      if InSomeSpan(spans, x) {
        var p :| p in spans && Contains(spans[p], x);
        if p == src {
          assert Contains(spans'[src], x) || Contains(spans'[made], x);
        } else {
          assert Contains(spans'[p], x);
        }
      }
      if InSomeSpan(spans', x) {
        var p :| p in spans' && Contains(spans'[p], x);
        assert Contains(spans[if p == made then src else p], x);
      }
    }
  }

  lemma SplitKeepsBuckets(spans: Spans, buckets: Buckets, src: SpanPtr, k: nat, made: SpanPtr)
    requires Separate(spans) && Bucketed(spans, buckets, {src})
    requires src in spans && made !in spans && 0 < k < spans[src].pageNum && !spans[src].isUse
    ensures var spans', n := SplitSpans(spans, src, k, made), spans[src].pageNum - k;
            Bucketed(spans', buckets[n := [src] + buckets[n]], {made})
  {
    var spans', n := SplitSpans(spans, src, k, made), spans[src].pageNum - k;
    var b' := buckets[n := [src] + buckets[n]];
    forall m, i | 0 <= m < |b'| && 0 <= i < |b'[m]|
      ensures var p := b'[m][i]; p in spans' && p != made && !spans'[p].isUse && spans'[p].pageNum == m
    {
      if m == n && i > 0 {
        assert b'[m][i] == buckets[n][i - 1];
      }
    }
    assert NoDup(b'[n]);
    forall p | p in spans' && p != made && !spans'[p].isUse ensures p in b'[spans'[p].pageNum] {
      if p != src {
        assert p in buckets[spans[p].pageNum];
      }
    }
  }

  lemma SplitKeepsMap(spans: Spans, idSpanMap: map<int, SpanPtr>, src: SpanPtr, k: nat, made: SpanPtr)
    requires Separate(spans) && Mapped(spans, idSpanMap, {})
    requires src in spans && made !in spans && 0 < k < spans[src].pageNum && !spans[src].isUse
    ensures Mapped(SplitSpans(spans, src, k, made), MapPages(idSpanMap, spans[src].pageId, k, made), {made})
  {
  }

  lemma SplitKeeps(spans: Spans, buckets: Buckets, idSpanMap: map<int, SpanPtr>, runs: seq<int>, n: nat, k: nat,
                   made: SpanPtr)
    requires Separate(spans) && Covers(spans, runs) && Bucketed(spans, buckets, {}) && Mapped(spans, idSpanMap, {})
    requires 0 < k < n < |buckets| && buckets[n] != [] && made !in spans
    ensures var rest := buckets[n][0];
            rest in spans && spans[rest].pageNum == n && !spans[rest].isUse &&
            var spans' := SplitSpans(spans, rest, k, made);
            var popped := buckets[n := buckets[n][1..]];
            && Separate(spans') && Covers(spans', runs)
            && Bucketed(spans', popped[n - k := [rest] + popped[n - k]], {made})
            && Mapped(spans', MapPages(idSpanMap, spans[rest].pageId, k, made), {made})
  {
    PopHolds(spans, buckets, n);
    var rest := buckets[n][0];
    SplitKeepsPages(spans, runs, rest, k, made);
    SplitKeepsBuckets(spans, buckets[n := buckets[n][1..]], rest, k, made);
    SplitKeepsMap(spans, idSpanMap, rest, k, made);
  }

  lemma SplitPartition(spans: Spans, buckets: Buckets, idSpanMap: map<int, SpanPtr>, runs: seq<int>, n: nat, k: nat,
                       made: SpanPtr)
    requires Partition(spans, buckets, idSpanMap, runs, made, {})
    requires 0 < k < n < |buckets| && buckets[n] != []
    ensures var rest := buckets[n][0];
            rest in spans && spans[rest].pageNum == n && !spans[rest].isUse &&
            var popped := buckets[n := buckets[n][1..]];
            Partition(SplitSpans(spans, rest, k, made), popped[n - k := [rest] + popped[n - k]],
                      MapPages(idSpanMap, spans[rest].pageId, k, made), runs, made + 1, {made})
  {
    SplitKeeps(spans, buckets, idSpanMap, runs, n, k, made);
  }

  /** A run of new pages enters the cache as one free span of 128 pages. */
  lemma GrowKeeps(spans: Spans, buckets: Buckets, idSpanMap: map<int, SpanPtr>, runs: seq<int>, first: int,
                  made: SpanPtr)
    requires Separate(spans) && Covers(spans, runs) && Bucketed(spans, buckets, {}) && Mapped(spans, idSpanMap, {})
    requires made !in spans
    requires forall x :: first <= x < first + MAX_NPAGES - 1 ==> !Obtained(runs, x)
    ensures var n := MAX_NPAGES - 1;
            var spans' := spans[made := Span(first, n, 0, [], false)];
            && Separate(spans') && Covers(spans', runs + [first])
            && Bucketed(spans', buckets[n := [made] + buckets[n]], {}) && Mapped(spans', idSpanMap, {})
  {
    var n := MAX_NPAGES - 1;
    var spans' := spans[made := Span(first, n, 0, [], false)];
    forall p | p in spans ensures Apart(spans[p], spans'[made]) {
      var a, b := spans[p].pageId, spans[p].pageId + spans[p].pageNum;
      if a < first + n && first < b {
        var x := if a < first then first else a;
        assert Contains(spans[p], x);
        assert InSomeSpan(spans, x);
      }
    }
    forall x ensures Obtained(runs + [first], x) <==> InSomeSpan(spans', x) {
      GrowCovers(spans, runs, first, made, x);
    }
    assert Bucketed(spans', buckets, {made});
    PushHeld(spans', buckets, made);
  }

  lemma GrowCovers(spans: Spans, runs: seq<int>, first: int, made: SpanPtr, x: int)
    requires Covers(spans, runs) && made !in spans
    ensures var spans' := spans[made := Span(first, MAX_NPAGES - 1, 0, [], false)];
            Obtained(runs + [first], x) <==> InSomeSpan(spans', x)
  {
    var spans' := spans[made := Span(first, MAX_NPAGES - 1, 0, [], false)];
    var runs' := runs + [first];
    if Obtained(runs', x) {
      var i :| 0 <= i < |runs'| && runs'[i] <= x < runs'[i] + MAX_NPAGES - 1;
      if i < |runs| {
        assert Obtained(runs, x);
        var p :| p in spans && Contains(spans[p], x);
        assert Contains(spans'[p], x);
      } else {
        assert Contains(spans'[made], x);
      }
    }
    if InSomeSpan(spans', x) {
      var p :| p in spans' && Contains(spans'[p], x);
      if p == made {
        assert runs'[|runs|] <= x < runs'[|runs|] + MAX_NPAGES - 1;
      } else {
        assert InSomeSpan(spans, x);
        var i :| 0 <= i < |runs| && runs[i] <= x < runs[i] + MAX_NPAGES - 1;
        assert runs'[i] == runs[i];
      }
    }
  }

  // ---------------------------------------------------------------- merging spans

  /** Outside the span being released the page map is sound; inside it may name deleted spans. */
  ghost predicate MappedOutside(spans: Spans, idSpanMap: map<int, SpanPtr>, p: SpanPtr)
    requires p in spans
  {
    && (forall x :: x in idSpanMap && !Contains(spans[p], x) ==>
          idSpanMap[x] in spans && Contains(spans[idSpanMap[x]], x))
    && (forall q, x :: q in spans && q != p && spans[q].isUse && Contains(spans[q], x) ==> x in idSpanMap)
  }

  ghost predicate Merging(spans: Spans, buckets: Buckets, idSpanMap: map<int, SpanPtr>, runs: seq<int>, p: SpanPtr) {
    && p in spans && spans[p].isUse && spans[p].useCount == 0 && spans[p].freeBlocks == []
    && Separate(spans)
    && Covers(spans, runs)
    && Bucketed(spans, buckets, {})
    && MappedOutside(spans, idSpanMap, p)
  }

  /** The span found just outside p, at `page`. */
  predicate Neighbour(spans: Spans, idSpanMap: map<int, SpanPtr>, p: SpanPtr, page: int)
    requires p in spans
  {
    (page == spans[p].pageId - 1 || page == spans[p].pageId + spans[p].pageNum) && page in idSpanMap
  }

  /** p swallows q; q is deleted. */
  function JoinSpans(spans: Spans, p: SpanPtr, q: SpanPtr): Spans
    requires p in spans && q in spans
  {
    var s, t := spans[p], spans[q];
    (spans - {q})[p := s.(pageId := if t.pageId < s.pageId then t.pageId else s.pageId,
                          pageNum := s.pageNum + t.pageNum)]
  }

  lemma NeighbourTouches(spans: Spans, idSpanMap: map<int, SpanPtr>, p: SpanPtr, page: int)
    requires p in spans && Separate(spans) && MappedOutside(spans, idSpanMap, p)
    requires Neighbour(spans, idSpanMap, p, page)
    ensures var q := idSpanMap[page];
            && q in spans && q != p
            && (if page < spans[p].pageId then spans[q].pageId + spans[q].pageNum == spans[p].pageId
                else spans[p].pageId + spans[p].pageNum == spans[q].pageId)
  {
    assert idSpanMap[page] != p;
    assert Apart(spans[p], spans[idSpanMap[page]]);
  }

  predicate Touch(a: Span, b: Span) {
    a.pageId + a.pageNum == b.pageId || b.pageId + b.pageNum == a.pageId
  }

  lemma JoinKeepsPages(spans: Spans, runs: seq<int>, p: SpanPtr, q: SpanPtr)
    requires Separate(spans) && Covers(spans, runs)
    requires p in spans && q in spans && p != q && Touch(spans[p], spans[q])
    requires spans[p].pageNum + spans[q].pageNum < MAX_NPAGES
    ensures Separate(JoinSpans(spans, p, q)) && Covers(JoinSpans(spans, p, q), runs)
    ensures forall x :: Contains(JoinSpans(spans, p, q)[p], x) <==> Contains(spans[p], x) || Contains(spans[q], x)
  {
    var spans' := JoinSpans(spans, p, q);
    forall a, b | a in spans' && b in spans' && a != b ensures Apart(spans'[a], spans'[b]) {
      assert Apart(spans[a], spans[b]);
      assert a == p ==> Apart(spans[q], spans[b]);
      assert b == p ==> Apart(spans[a], spans[q]);
    }
    forall x ensures InSomeSpan(spans, x) <==> InSomeSpan(spans', x) {
      if InSomeSpan(spans, x) {
        var a :| a in spans && Contains(spans[a], x);
        assert Contains(spans'[if a == q then p else a], x);
      }
      if InSomeSpan(spans', x) {
        var a :| a in spans' && Contains(spans'[a], x);
        assert Contains(spans[a], x) || Contains(spans[q], x);
      }
    }
  }

  lemma JoinKeepsBuckets(spans: Spans, buckets: Buckets, p: SpanPtr, q: SpanPtr)
    requires Bucketed(spans, buckets, {})
    requires p in spans && q in spans && p != q && spans[p].isUse && !spans[q].isUse && spans[q].pageNum < |buckets|
    ensures var n := spans[q].pageNum; Bucketed(JoinSpans(spans, p, q), buckets[n := Erase(buckets[n], q)], {})
  {
    var n := spans[q].pageNum;
    var spans', b' := JoinSpans(spans, p, q), buckets[n := Erase(buckets[n], q)];
    EraseNoDup(buckets[n], q);
    forall m, i | 0 <= m < |b'| && 0 <= i < |b'[m]|
      ensures b'[m][i] in spans' && !spans'[b'[m][i]].isUse && spans'[b'[m][i]].pageNum == m
    {
      var a := b'[m][i];
      assert a in b'[m];
      assert a in buckets[m];
      var j :| 0 <= j < |buckets[m]| && buckets[m][j] == a;
      assert a != q;
    }
  }

  lemma JoinKeepsMap(spans: Spans, idSpanMap: map<int, SpanPtr>, p: SpanPtr, q: SpanPtr)
    requires p in spans && q in spans && p != q && !spans[q].isUse && MappedOutside(spans, idSpanMap, p)
    requires forall x :: Contains(JoinSpans(spans, p, q)[p], x) <==> Contains(spans[p], x) || Contains(spans[q], x)
    ensures MappedOutside(JoinSpans(spans, p, q), idSpanMap, p)
  {
  }

  /** One round of either merge loop. */
  lemma JoinKeeps(spans: Spans, buckets: Buckets, idSpanMap: map<int, SpanPtr>, runs: seq<int>, p: SpanPtr, page: int)
    requires Merging(spans, buckets, idSpanMap, runs, p) && Neighbour(spans, idSpanMap, p, page)
    requires CanJoin(spans, idSpanMap, p, page)
    ensures var q := idSpanMap[page];
            var n := spans[q].pageNum;
            && n < |buckets|
            && Merging(JoinSpans(spans, p, q), buckets[n := Erase(buckets[n], q)], idSpanMap, runs, p)
  {
    var q := idSpanMap[page];
    NeighbourTouches(spans, idSpanMap, p, page);
    JoinKeepsPages(spans, runs, p, q);
    JoinKeepsBuckets(spans, buckets, p, q);
    JoinKeepsMap(spans, idSpanMap, p, q);
  }

  /** Growing to the right does not make the left neighbour joinable. */
  lemma JoinRightKeepsLeft(spans: Spans, idSpanMap: map<int, SpanPtr>, p: SpanPtr, page: int)
    requires p in spans && Separate(spans) && MappedOutside(spans, idSpanMap, p)
    requires page == spans[p].pageId + spans[p].pageNum && page in idSpanMap
    requires !CanJoin(spans, idSpanMap, p, spans[p].pageId - 1)
    ensures idSpanMap[page] in spans
    ensures var spans' := JoinSpans(spans, p, idSpanMap[page]);
            spans'[p].pageId == spans[p].pageId && !CanJoin(spans', idSpanMap, p, spans[p].pageId - 1)
  {
    NeighbourTouches(spans, idSpanMap, p, page);
    if spans[p].pageId - 1 in idSpanMap {
      NeighbourTouches(spans, idSpanMap, p, spans[p].pageId - 1);
    }
  }

  lemma HangKeepsApart(spans: Spans, idSpanMap: map<int, SpanPtr>, p: SpanPtr, hung: Spans, mapped: map<int, SpanPtr>)
    requires p in spans && MappedOutside(spans, idSpanMap, p) && !JoinsOn(spans, idSpanMap, p)
    requires hung == spans[p := spans[p].(isUse := false)] &&
             mapped == MapPages(idSpanMap, spans[p].pageId, spans[p].pageNum, p)
    ensures !JoinsOn(hung, mapped, p)
  {
    var left, right := spans[p].pageId - 1, spans[p].pageId + spans[p].pageNum;
    assert left in mapped ==> mapped[left] == idSpanMap[left];
    assert right in mapped ==> mapped[right] == idSpanMap[right];
  }

  /** Hanging the merged span into its bucket and mapping its pages restores the partition. */
  lemma HangKeeps(spans: Spans, buckets: Buckets, idSpanMap: map<int, SpanPtr>, runs: seq<int>, nextPtr: SpanPtr,
                  p: SpanPtr)
    requires Merging(spans, buckets, idSpanMap, runs, p) && forall q :: q in spans ==> q < nextPtr
    ensures var s := spans[p];
            && s.pageNum < |buckets|
            && Partition(spans[p := s.(isUse := false)], buckets[s.pageNum := [p] + buckets[s.pageNum]],
                         MapPages(idSpanMap, s.pageId, s.pageNum, p), runs, nextPtr, {})
  {
    var s := spans[p];
    var spans' := spans[p := s.(isUse := false)];
    forall a, b | a in spans' && b in spans' && a != b ensures Apart(spans'[a], spans'[b]) {
      assert Apart(spans[a], spans[b]);
    }
    forall x ensures InSomeSpan(spans, x) <==> InSomeSpan(spans', x) {
      if InSomeSpan(spans, x) {
        var a :| a in spans && Contains(spans[a], x);
        assert Contains(spans'[a], x);
      }
      if InSomeSpan(spans', x) {
        var a :| a in spans' && Contains(spans'[a], x);
        assert Contains(spans[a], x);
      }
    }
    assert Bucketed(spans', buckets, {p});
    PushHeld(spans', buckets, p);
  }

  /** The span found at `page` is free and small enough to be joined with p. */
  ghost predicate CanJoin(spans: Spans, idSpanMap: map<int, SpanPtr>, p: SpanPtr, page: int)
    requires p in spans
  {
    page in idSpanMap && idSpanMap[page] in spans && !spans[idSpanMap[page]].isUse &&
    spans[idSpanMap[page]].pageNum + spans[p].pageNum <= MAX_NPAGES - 1
  }

  /** p can be joined with a neighbour. */
  ghost predicate JoinsOn(spans: Spans, idSpanMap: map<int, SpanPtr>, p: SpanPtr)
    requires p in spans
  {
    CanJoin(spans, idSpanMap, p, spans[p].pageId - 1) ||
      CanJoin(spans, idSpanMap, p, spans[p].pageId + spans[p].pageNum)
  }

  lemma SwallowsOn(a: Spans, b: Spans, c: Spans, p: SpanPtr)
    requires Swallows(a, b, p) && Swallows(b, c, p)
    ensures Swallows(a, c, p)
  {
  }

  /** Freed after that, it leaves the used spans as they were. */
  lemma SwallowsFreed(before: Spans, after: Spans, p: SpanPtr)
    requires Swallows(before, after, p)
    ensures SameUsed(before - {p}, after[p := after[p].(isUse := false)])
  {
  }

  /** p has grown at the expense of free spans only. */
  ghost predicate Swallows(before: Spans, after: Spans, p: SpanPtr) {
    && p in before && p in after
    && SameUsed(before - {p}, after - {p})
    && (forall q :: q in after ==> q in before)
    && after[p].pageId <= before[p].pageId
    && before[p].pageId + before[p].pageNum <= after[p].pageId + after[p].pageNum
  }

  class Cache {
    var spans: Spans
    var buckets: Buckets
    var idSpanMap: map<int, SpanPtr>
    var nextPtr: SpanPtr
    ghost var runs: seq<int>

    /** The page cache partition, while an operation may hold one span outside it. */
    ghost predicate ValidHolding(held: set<SpanPtr>)
      reads this
    {
      Partition(spans, buckets, idSpanMap, runs, nextPtr, held)
    }

    ghost predicate Valid()
      reads this
    {
      ValidHolding({})
    }

    /** No bucket can serve k pages. */
    ghost predicate NeedsMemory(k: nat)
      reads this
      requires Valid()
    {
      forall n :: k <= n < MAX_NPAGES ==> buckets[n] == []
    }

    constructor ()
      ensures Valid() && runs == [] && spans == map[]
    {
      spans := map[];
      buckets := seq(MAX_NPAGES, _ => []);
      idSpanMap := map[];
      nextPtr := 0;
      runs := [];
    }

    /** The returned span has k pages and is free; it is not in any bucket, so the partition holds
        again once the caller marks it used.  Spans in use are untouched, and pages are taken from
        the system exactly when no bucket could serve the request. */
    method NewSpan(k: nat, systemRun: int) returns (p: SpanPtr)
      requires Valid() && 0 < k < MAX_NPAGES
      requires NeedsMemory(k) ==>
                 forall x :: systemRun <= x < systemRun + MAX_NPAGES - 1 ==> !Obtained(runs, x)
      modifies this
      ensures ValidHolding({p})
      ensures p in spans && spans[p].pageNum == k && !spans[p].isUse
      ensures SameUsed(old(spans), spans)
      ensures runs == if old(NeedsMemory(k)) then old(runs) + [systemRun] else old(runs)
      decreases NeedsMemory(k)
    {
      if buckets[k] != [] {
        p := buckets[k][0];
        PopHolds(spans, buckets, k);
        MapWhole(spans, idSpanMap, p);
        buckets := buckets[k := buckets[k][1..]];
        idSpanMap := MapPages(idSpanMap, spans[p].pageId, spans[p].pageNum, p);
        return;
      }
      var n := k + 1;
      while n < MAX_NPAGES
        invariant k < n <= MAX_NPAGES
        invariant forall m :: k <= m < n ==> buckets[m] == []
        invariant Valid() && unchanged(this)
      {
        if buckets[n] != [] {
          p := SplitSpan(k, n);
          return;
        }
        n := n + 1;
      }
      AddRun(systemRun);
      p := NewSpan(k, systemRun);
    }

    method SplitSpan(k: nat, n: nat) returns (p: SpanPtr)
      requires Valid() && 0 < k < n < MAX_NPAGES && buckets[n] != []
      modifies this
      ensures ValidHolding({p})
      ensures p in spans && spans[p].pageNum == k && !spans[p].isUse && runs == old(runs)
      ensures SameUsed(old(spans), spans)
    {
      var rest := buckets[n][0];
      p := nextPtr;
      SplitPartition(spans, buckets, idSpanMap, runs, n, k, p);
      var popped := buckets[n := buckets[n][1..]];
      var m := spans[rest].pageNum - k;
      spans, buckets, idSpanMap, nextPtr :=
        SplitSpans(spans, rest, k, p),
        popped[m := [rest] + popped[m]],
        MapPages(idSpanMap, spans[rest].pageId, k, p),
        nextPtr + 1;
    }

    method AddRun(systemRun: int)
      requires Valid()
      requires forall x :: systemRun <= x < systemRun + MAX_NPAGES - 1 ==> !Obtained(runs, x)
      modifies this
      ensures Valid() && runs == old(runs) + [systemRun] && buckets[MAX_NPAGES - 1] != []
      ensures SameUsed(old(spans), spans)
    {
      GrowKeeps(spans, buckets, idSpanMap, runs, systemRun, nextPtr);
      var n := MAX_NPAGES - 1;
      spans := spans[nextPtr := Span(systemRun, n, 0, [], false)];
      buckets := buckets[n := [nextPtr] + buckets[n]];
      nextPtr := nextPtr + 1;
      runs := runs + [systemRun];
    }

    /** MapObjectToSpan: the span that holds an address of a used span. */
    method MapObjectToSpan(obj: int, ghost owner: SpanPtr) returns (p: SpanPtr)
      requires Valid() && owner in spans && spans[owner].isUse
      requires Contains(spans[owner], obj / PAGE_SIZE)
      ensures p == owner
    {
      p := idSpanMap[obj / PAGE_SIZE];
      assert p != owner ==> Apart(spans[p], spans[owner]);
    }

    /** Merging joins the released span with free neighbours only, and stops when neither
        neighbour can be joined. */
    method ReleaseSpanToPageCache(p: SpanPtr)
      requires Valid() && p in spans && spans[p].isUse && spans[p].useCount == 0 && spans[p].freeBlocks == []
      modifies this
      ensures Valid() && runs == old(runs)
      ensures p in spans && !spans[p].isUse
      ensures SameUsed(old(spans) - {p}, spans)
      ensures spans[p].pageId <= old(spans)[p].pageId
      ensures old(spans)[p].pageId + old(spans)[p].pageNum <= spans[p].pageId + spans[p].pageNum
      ensures !JoinsOn(spans, idSpanMap, p)
    {
      MergeForward(p);
      ghost var mid := spans;
      MergeBackward(p);
      ghost var merged := spans;
      SwallowsOn(old(spans), mid, merged, p);
      SwallowsFreed(old(spans), merged, p);
      Hang(p);
    }

    /** The merged span goes into its bucket and is mapped on all its pages. */
    method Hang(p: SpanPtr)
      requires Merging(spans, buckets, idSpanMap, runs, p) && forall q :: q in spans ==> q < nextPtr
      requires !JoinsOn(spans, idSpanMap, p)
      modifies this`spans, this`buckets, this`idSpanMap
      ensures Valid() && spans == old(spans)[p := old(spans)[p].(isUse := false)]
      ensures !JoinsOn(spans, idSpanMap, p)
    {
      var s := spans[p];
      HangKeeps(spans, buckets, idSpanMap, runs, nextPtr, p);
      var hung, bucket := spans[p := s.(isUse := false)], [p] + buckets[s.pageNum];
      var mapped := MapPages(idSpanMap, s.pageId, s.pageNum, p);
      HangKeepsApart(spans, idSpanMap, p, hung, mapped);
      buckets, spans, idSpanMap := buckets[s.pageNum := bucket], hung, mapped;
    }

    method MergeForward(p: SpanPtr)
      requires Merging(spans, buckets, idSpanMap, runs, p)
      modifies this`spans, this`buckets
      ensures Merging(spans, buckets, idSpanMap, runs, p) && Swallows(old(spans), spans, p)
      ensures !CanJoin(spans, idSpanMap, p, spans[p].pageId - 1)
    {
      while true
        invariant Merging(spans, buckets, idSpanMap, runs, p) && Swallows(old(spans), spans, p)
        decreases MAX_NPAGES - spans[p].pageNum
      {
        var prevId := spans[p].pageId - 1;
        var joined := TryJoin(p, prevId);
        if !joined {
          break;
        }
      }
    }

    method MergeBackward(p: SpanPtr)
      requires Merging(spans, buckets, idSpanMap, runs, p)
      requires !CanJoin(spans, idSpanMap, p, spans[p].pageId - 1)
      modifies this`spans, this`buckets
      ensures Merging(spans, buckets, idSpanMap, runs, p) && Swallows(old(spans), spans, p)
      ensures !CanJoin(spans, idSpanMap, p, spans[p].pageId - 1)
      ensures !CanJoin(spans, idSpanMap, p, spans[p].pageId + spans[p].pageNum)
    {
      while true
        invariant Merging(spans, buckets, idSpanMap, runs, p) && Swallows(old(spans), spans, p)
        invariant !CanJoin(spans, idSpanMap, p, spans[p].pageId - 1)
        decreases MAX_NPAGES - spans[p].pageNum
      {
        var nextId := spans[p].pageId + spans[p].pageNum;
        var joined := TryJoin(p, nextId);
        if !joined {
          break;
        }
      }
    }

    /** The tests of a merge loop: look `page` up, and join what is there if it is free and the
        sum is not too long.  Joining on the right leaves the left neighbour as unjoinable as it was. */
    method TryJoin(p: SpanPtr, page: int) returns (joined: bool)
      requires Merging(spans, buckets, idSpanMap, runs, p)
      requires page == spans[p].pageId - 1 || page == spans[p].pageId + spans[p].pageNum
      modifies this`spans, this`buckets
      ensures Merging(spans, buckets, idSpanMap, runs, p) && Swallows(old(spans), spans, p)
      ensures if joined then old(spans)[p].pageNum < spans[p].pageNum
              else spans == old(spans) && !CanJoin(spans, idSpanMap, p, page)
      ensures page > old(spans)[p].pageId && !CanJoin(old(spans), idSpanMap, p, old(spans)[p].pageId - 1) ==>
                !CanJoin(spans, idSpanMap, p, spans[p].pageId - 1)
    {
      if page !in idSpanMap {
        return false;
      }
      NeighbourTouches(spans, idSpanMap, p, page);
      var q := idSpanMap[page];
      if spans[q].isUse || spans[q].pageNum + spans[p].pageNum > MAX_NPAGES - 1 {
        return false;
      }
      if page > spans[p].pageId && !CanJoin(spans, idSpanMap, p, spans[p].pageId - 1) {
        JoinRightKeepsLeft(spans, idSpanMap, p, page);
      }
      Join(p, page);
      return true;
    }

    /** The span at `page`, just outside p, is taken out of its bucket, joined to p and deleted. */
    method Join(p: SpanPtr, page: int)
      requires Merging(spans, buckets, idSpanMap, runs, p)
      requires Neighbour(spans, idSpanMap, p, page) && CanJoin(spans, idSpanMap, p, page)
      modifies this`spans, this`buckets
      ensures Merging(spans, buckets, idSpanMap, runs, p)
      ensures spans == JoinSpans(old(spans), p, idSpanMap[page])
    {
      var q := idSpanMap[page];
      JoinKeeps(spans, buckets, idSpanMap, runs, p, page);
      var n := spans[q].pageNum;
      spans, buckets := JoinSpans(spans, p, q), buckets[n := Erase(buckets[n], q)];
    }
  }
}
