/** Cutting a span into blocks of one size. */
module Carving {
  import opened SizeManager
  import opened Lists
  import opened PageCache

  function Start(s: Span): int { s.pageId * PAGE_SIZE }

  function Bytes(s: Span): nat { s.pageNum * PAGE_SIZE }

  /** How many blocks the carving loop cuts: one for each start below the end. */
  function BlockCount(bytes: nat, size: nat): nat
    requires size > 0
  {
    (bytes + size - 1) / size
  }

  function BlocksOf(s: Span, size: nat): seq<int>
    requires size > 0
  {
    Carve(Start(s), size, BlockCount(Bytes(s), size))
  }

  /** Blocks b (of n bytes) and c (of m bytes) share no byte. */
  predicate Disjoint(b: int, n: nat, c: int, m: nat) {
    b + n <= c || c + m <= b
  }

  /** The blocks of a list lie in the span, in address order and without overlap. */
  ghost predicate Fits(s: Span, size: nat, list: seq<int>) {
    && (forall b :: b in list ==> Start(s) <= b && b + size <= Start(s) + Bytes(s))
    && (forall i, j :: 0 <= i < j < |list| ==> list[i] + size <= list[j])
  }

  lemma FitsNoDup(s: Span, size: nat, list: seq<int>)
    requires size > 0 && Fits(s, size, list)
    ensures NoDup(list)
  {
    forall i, j | 0 <= i < j < |list| ensures list[i] != list[j] {
      assert list[i] + size <= list[j];
    }
  }

  lemma MulStep(i: nat, j: nat, size: nat)
    ensures i < j ==> i * size + size <= j * size
  {
    if i < j {
      var d: nat := j - i - 1;
      assert 0 <= d * size;
      assert (i + 1 + d) * size == i * size + size + d * size;
    }
  }

  lemma CeilDiv(bytes: nat, size: nat)
    requires size > 0
    ensures var n := BlockCount(bytes, size);
            && bytes <= n * size < bytes + size
            && (bytes % size == 0 <==> n * size == bytes)
  {
    var n := BlockCount(bytes, size);
    assert bytes + size - 1 == n * size + (bytes + size - 1) % size;
    MulDiv(n, size);
    var q := bytes / size;
    assert bytes == q * size + bytes % size;
    MulStep(q, n, size);
    MulStep(n, q, size);
  }

  /** The carving loop keeps inside the span if and only if the class divides the span's length. */
  lemma CarvingFitsIffTiles(s: Span, size: nat)
    requires size > 0 && s.pageNum > 0
    ensures (forall b :: b in BlocksOf(s, size) ==> Start(s) <= b && b + size <= Start(s) + Bytes(s))
            <==> Bytes(s) % size == 0
  {
    var n := BlockCount(Bytes(s), size);
    CeilDiv(Bytes(s), size);
    CarveAt(Start(s), size, n);
    if Bytes(s) % size == 0 {
      forall b | b in BlocksOf(s, size) ensures Start(s) <= b && b + size <= Start(s) + Bytes(s) {
        var i :| 0 <= i < n && BlocksOf(s, size)[i] == b;
        MulStep(i, n, size);
      }
    } else {
      var last := BlocksOf(s, size)[n - 1];
      assert (n - 1) * size + size == n * size;
      assert last in BlocksOf(s, size) && last + size > Start(s) + Bytes(s);
    }
  }

  /** The 528-byte class, for one, cuts its last block across the end of the span. */
  lemma Class528Overruns(s: Span)
    requires s.pageNum == CalculatePageNum(RoundUp(528))
    ensures exists b :: b in BlocksOf(s, 528) && b + 528 > Start(s) + Bytes(s)
  {
    assert CalculatePageNum(528) == 63;
    CarvingFitsIffTiles(s, 528);
    CarveStarts(s, 528);
  }

  lemma CarveStarts(s: Span, size: nat)
    requires size > 0
    ensures forall b :: b in BlocksOf(s, size) ==> Start(s) <= b
  {
    CarveAt(Start(s), size, BlockCount(Bytes(s), size));
    forall b | b in BlocksOf(s, size) ensures Start(s) <= b {
      var i :| 0 <= i < |BlocksOf(s, size)| && BlocksOf(s, size)[i] == b;
      assert 0 <= i * size;
    }
  }

  /** The blocks carved for a tiling class fit their span. */
  lemma CarvedFits(s: Span, size: nat)
    requires size > 0 && s.pageNum > 0 && Bytes(s) % size == 0
    ensures Fits(s, size, BlocksOf(s, size))
  {
    CarvingFitsIffTiles(s, size);
    CarveAt(Start(s), size, BlockCount(Bytes(s), size));
    var all := BlocksOf(s, size);
    forall i, j | 0 <= i < j < |all| ensures all[i] + size <= all[j] {
      MulStep(i, j, size);
    }
  }

  /** A span for a class of up to 512 bytes is cut into exactly 512 blocks, which cover it without overlap. */
  lemma SmallClassesGive512(s: Span, alignBytes: nat)
    requires 8 <= alignBytes <= 512 && alignBytes % 8 == 0 && s.pageNum == CalculatePageNum(alignBytes)
    ensures |BlocksOf(s, alignBytes)| == 512 && Fits(s, alignBytes, BlocksOf(s, alignBytes)) &&
            512 * alignBytes == Bytes(s)
  {
    SmallClassesTile(alignBytes);
    MulDiv(512, alignBytes);
    CarvedFits(s, alignBytes);
    CeilUnique(Bytes(s), alignBytes, 512);
    CarveAt(Start(s), alignBytes, 512);
  }

  /** GetOneSpan's carving loop: one block for each start below the end, in address order. */
  method CarveSpan(start: int, bytes: nat, size: nat) returns (chain: seq<int>)
    requires size > 0 && bytes > 0
    ensures chain == Carve(start, size, BlockCount(bytes, size))
  {
    chain := [start];
    var next := start + size;
    assert Carve(start, size, 0) == [];
    while next < start + bytes
      invariant |chain| >= 1 && next == start + |chain| * size && chain == Carve(start, size, |chain|)
      invariant (|chain| - 1) * size < bytes
      decreases start + bytes - next
    {
      chain := chain + [next];
      next := next + size;
    }
    CeilUnique(bytes, size, |chain|);
  }

  lemma CeilUnique(bytes: nat, size: nat, n: nat)
    requires size > 0 && n > 0 && (n - 1) * size < bytes <= n * size
    ensures n == BlockCount(bytes, size)
  {
    var m := BlockCount(bytes, size);
    CeilDiv(bytes, size);
    MulStep(n, m, size);
    MulStep(m, n, size);
    assert (n - 1) * size == n * size - size;
  }
}
