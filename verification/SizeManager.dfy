/** The size classes of the native allocator. */
module SizeManager {

  const PAGE_SIZE := 4096
  const MAX_BYTES := 256 * 1024
  const MAX_NPAGES := 129
  const MAX_CLASS_BYTES := 64 * 1024
  const ALIGN_8192 := 8 * 1028   // so the enumeration says

  /** x & ~(ALIGN_8192 - 1): the mask 0x201F is bit 13 and the five lowest bits. */
  function ClearMask(x: nat): nat {
    x - x % 32 - (if x / 8192 % 2 == 1 then 8192 else 0)
  }

  function RoundUp(bytes: nat): nat
    requires 0 < bytes <= MAX_BYTES
  {
    if bytes <= 128 then (bytes + 7) / 8 * 8
    else if bytes <= 1024 then (bytes + 15) / 16 * 16
    else if bytes <= 8 * 1024 then (bytes + 127) / 128 * 128
    else if bytes <= 64 * 1024 then (bytes + 1023) / 1024 * 1024
    else ClearMask(bytes + ALIGN_8192 - 1)
  }

  function Index(bytes: nat): int
    requires 0 < bytes <= MAX_BYTES
  {
    if bytes <= 128 then (bytes + 7) / 8 - 1
    else if bytes <= 1024 then (bytes - 128 + 15) / 16 - 1 + 16
    else if bytes <= 8 * 1024 then (bytes - 1024 + 127) / 128 - 1 + 56 + 16
    else if bytes <= 64 * 1024 then (bytes - 8 * 1024 + 1023) / 1024 - 1 + 56 + 56 + 16
    else (bytes - 64 * 1024 + 8191) / 8192 - 1 + 56 + 56 + 56 + 16
  }

  function LimitSize(alignBytes: nat): (num: nat)
    requires alignBytes != 0
    ensures 2 <= num <= 512
  {
    var num := MAX_BYTES / alignBytes;
    if num < 2 then 2 else if num > 512 then 512 else num
  }

  function CalculatePageNum(alignBytes: nat): (npage: nat)
    requires alignBytes != 0
  {
    var npage := LimitSize(alignBytes) * alignBytes / PAGE_SIZE;
    if npage == 0 then 1 else npage
  }

  /** The blocks carved for the class fill their span exactly. */
  predicate Tiles(alignBytes: nat)
    requires alignBytes != 0
  {
    CalculatePageNum(alignBytes) * PAGE_SIZE % alignBytes == 0
  }

  /** The block size a bucket serves: the table at the head of SizeManager, read backwards. */
  function ClassSize(index: nat): nat
    requires index < 184
  {
    if index < 16 then 8 * (index + 1)
    else if index < 72 then 128 + 16 * (index - 15)
    else if index < 128 then 1024 + 128 * (index - 71)
    else 8 * 1024 + 1024 * (index - 127)
  }

  lemma MulDiv(q: int, align: nat)
    requires align > 0
    ensures q * align / align == q && q * align % align == 0
  {
    var d, r := q * align / align, q * align % align;
    assert (q - d) * align == r;
    assert q - d >= 1 ==> (q - d) * align >= align;
    assert q - d <= -1 ==> (q - d) * align <= 0 - align;
  }

  /** Up to 64 KB, rounding gives the block size of the request's bucket. */
  lemma RoundUpToClass(bytes: nat)
    requires 0 < bytes <= MAX_CLASS_BYTES
    ensures 0 <= Index(bytes) < 184
    ensures bytes <= RoundUp(bytes) == ClassSize(Index(bytes)) <= MAX_CLASS_BYTES
    ensures RoundUp(bytes) % 8 == 0
  {
    if bytes <= 128 {
      var q := (bytes + 7) / 8;
      assert bytes <= 8 * q < bytes + 8;
    } else if bytes <= 1024 {
      var q := (bytes + 15) / 16;
      assert bytes <= 16 * q < bytes + 16;
      assert (bytes - 128 + 15) / 16 == q - 8;
    } else if bytes <= 8 * 1024 {
      var q := (bytes + 127) / 128;
      assert bytes <= 128 * q < bytes + 128;
      assert (bytes - 1024 + 127) / 128 == q - 8;
    } else {
      var q := (bytes + 1023) / 1024;
      assert bytes <= 1024 * q < bytes + 1024;
      assert (bytes - 8 * 1024 + 1023) / 1024 == q - 8;
    }
  }

  /** Above, the bucket that a request goes to: it serves the 8 KB from `BucketStart` on. */
  function BucketStart(index: nat): nat
    requires index >= 184
  {
    64 * 1024 + 8192 * (index - 184)
  }

  lemma LargeIndex(bytes: nat)
    requires MAX_CLASS_BYTES < bytes <= MAX_BYTES
    ensures 184 <= Index(bytes) < 208 && BucketStart(Index(bytes)) < bytes <= BucketStart(Index(bytes)) + 8192
  {
  }

  /** What a request of d bytes into a large bucket is rounded up to: in every other bucket bit 13 of the sum
      is set, and the mask clears it. */
  function LargeSize(start: nat, d: nat): nat {
    if start / 8192 % 2 == 0 then (if d <= 8160 then start + (d + 31) / 32 * 32 else start + 16384)
    else (if d <= 8160 then start + 8192 + (d + 31) / 32 * 32 else start + 8192)
  }

  lemma LargeRoundUp(bytes: nat)
    requires MAX_CLASS_BYTES < bytes <= MAX_BYTES
    ensures var start := BucketStart(Index(bytes));
            start < bytes <= start + 8192 && RoundUp(bytes) == LargeSize(start, bytes - start)
  {
    LargeIndex(bytes);
    var q := (Index(bytes) - 184) as nat;
    var start := BucketStart(Index(bytes));
    var d := bytes - start;
    assert start == 8192 * (8 + q) && start / 8192 == 8 + q;
    MaskSum(8 + q, d);
  }

  lemma MaskSum(k: nat, d: nat)
    requires 0 < d <= 8192
    ensures ClearMask(8192 * k + d + ALIGN_8192 - 1) == LargeSize(8192 * k, d) && 8192 * k / 8192 == k
  {
    var x := 8192 * k + d + 8223;
    var y := d + 31;
    assert x == 8192 * (k + 1) + y;
    if d <= 8160 {
      assert x / 8192 == k + 1;
      assert x % 32 == y % 32 && y - y % 32 == y / 32 * 32;
    } else {
      assert x == 8192 * (k + 2) + (y - 8192) && x / 8192 == k + 2;
      assert x % 32 == y - 8192;
    }
  }

  /** Rounding never shrinks a request; up to 64 KB it gives the block size of the request's bucket. */
  lemma RoundUpServes(bytes: nat)
    requires 0 < bytes <= MAX_BYTES
    ensures 0 <= Index(bytes) < 208 && bytes <= RoundUp(bytes) && RoundUp(bytes) % 8 == 0
    ensures bytes <= MAX_CLASS_BYTES ==>
            Index(bytes) < 184 && RoundUp(bytes) == ClassSize(Index(bytes)) <= MAX_CLASS_BYTES
  {
    if bytes <= MAX_CLASS_BYTES {
      RoundUpToClass(bytes);
    } else {
      LargeIndex(bytes);
      LargeRoundUp(bytes);
    }
  }

  /** A bucket for requests up to 64 KB serves exactly one block size, and that size belongs to the bucket. */
  lemma BucketMeansSize(a: nat, b: nat)
    requires 0 < a <= MAX_BYTES && 0 < b <= MAX_CLASS_BYTES
    ensures Index(a) == Index(b) <==> RoundUp(a) == RoundUp(b)
  {
    RoundUpServes(a);
    RoundUpServes(b);
    if a > MAX_CLASS_BYTES {
      LargeIndex(a);
    }
  }

  /** Whatever request of its bucket a block was cut for, it is large enough for this one. */
  ghost predicate BucketServes(bytes: nat)
    requires 0 < bytes <= MAX_BYTES
  {
    forall a {:trigger RoundUp(a)} :: 0 < a <= MAX_BYTES && Index(a) == Index(bytes) ==> RoundUp(a) >= bytes
  }

  /** A block of a request's bucket is large enough for it if and only if the request is of at most 64 KB, or
      its bucket is an odd one, or it is within 32 bytes of the bucket's start. */
  lemma BucketServesIff(bytes: nat)
    requires 0 < bytes <= MAX_BYTES
    ensures BucketServes(bytes) <==>
            bytes <= MAX_CLASS_BYTES || Index(bytes) % 2 == 1 || bytes <= BucketStart(Index(bytes)) + 32
  {
    if bytes <= MAX_CLASS_BYTES {
      forall a {:trigger RoundUp(a)} | 0 < a <= MAX_BYTES && Index(a) == Index(bytes) ensures RoundUp(a) >= bytes {
        BucketMeansSize(a, bytes);
        RoundUpServes(bytes);
      }
    } else {
      LargeIndex(bytes);
      var start := BucketStart(Index(bytes));
      if Index(bytes) % 2 == 1 || bytes <= start + 32 {
        forall a {:trigger RoundUp(a)} | 0 < a <= MAX_BYTES && Index(a) == Index(bytes) ensures RoundUp(a) >= bytes {
          LargeBucketMate(a, bytes);
        }
      } else {
        LargeBucketMate(start + 1, bytes);
        assert Index(start + 1) == Index(bytes) && RoundUp(start + 1) == start + 32;
      }
    }
  }

  /** What the requests of a large bucket are rounded up to. */
  lemma LargeBucketMate(a: nat, bytes: nat)
    requires 0 < a <= MAX_BYTES && MAX_CLASS_BYTES < bytes <= MAX_BYTES && 184 <= Index(bytes)
    requires Index(a) == Index(bytes) || a == BucketStart(Index(bytes)) + 1
    ensures var start := BucketStart(Index(bytes));
            && Index(a) == Index(bytes) && start < a <= start + 8192
            && RoundUp(a) >= (if Index(bytes) % 2 == 1 then start + 8192 else start + 32)
            && (Index(bytes) % 2 == 0 && a == start + 1 ==> RoundUp(a) == start + 32)
  {
    LargeIndex(bytes);
    RoundUpServes(a);
    var index := Index(bytes);
    LargeRoundUp(a);
    assert BucketStart(index) == 8192 * (index - 176) && BucketStart(index) / 8192 == index - 176;
  }

  /** 65537 and 70000 bytes have one bucket, and a block for the first is shorter than the second. */
  lemma LargeBucketServesShort()
    ensures Index(65537) == Index(70000) && RoundUp(65537) == 65568 < 70000
  {
  }

  /** A request's span is one the page cache can serve, unless the request is of 255969 to 262112 bytes. */
  lemma PageNumServed(bytes: nat)
    requires 0 < bytes <= MAX_BYTES
    ensures CalculatePageNum(RoundUp(bytes)) > 0
    ensures CalculatePageNum(RoundUp(bytes)) < MAX_NPAGES <==> !(255969 <= bytes <= 262112)
  {
    RoundUpServes(bytes);
    var size := RoundUp(bytes);
    if bytes <= MAX_CLASS_BYTES {
      PageNumFits(size);
    } else {
      LargeRoundUp(bytes);
      LargeIndex(bytes);
      LargePageNum(size);
    }
  }

  lemma LargePageNum(size: nat)
    requires MAX_CLASS_BYTES < size <= 2 * MAX_BYTES
    ensures 0 < CalculatePageNum(size)
    ensures CalculatePageNum(size) < MAX_NPAGES <==> size < 264192
  {
    if size <= MAX_BYTES {
      assert MAX_BYTES / size * size <= MAX_BYTES;
    }
  }

  /** Spans of a size class are never larger than the page cache can serve. */
  lemma PageNumFits(alignBytes: nat)
    requires 8 <= alignBytes <= MAX_CLASS_BYTES
    ensures 0 < CalculatePageNum(alignBytes) < MAX_NPAGES
  {
    assert MAX_BYTES / alignBytes * alignBytes <= MAX_BYTES;
    assert LimitSize(alignBytes) <= MAX_BYTES / alignBytes;
    assert LimitSize(alignBytes) * alignBytes <= MAX_BYTES;
  }

  lemma Quotient(x: nat, a: nat, q: nat)
    requires a > 0 && q * a <= x
    ensures x / a >= q
  {
    var d := x / a;
    assert d < q ==> (d + 1) * a <= q * a;
  }

  /** Classes up to 512 bytes: the span holds exactly 512 blocks. */
  lemma SmallClassesTile(alignBytes: nat)
    requires 8 <= alignBytes <= 512 && alignBytes % 8 == 0
    ensures CalculatePageNum(alignBytes) * PAGE_SIZE == 512 * alignBytes && Tiles(alignBytes)
  {
    Quotient(MAX_BYTES, alignBytes, 512);
    var k := alignBytes / 8;
    assert LimitSize(alignBytes) == 512;
    assert 512 * alignBytes == PAGE_SIZE * k;
    MulDiv(512, alignBytes);
  }
}
