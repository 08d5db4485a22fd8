/** The packed form of the reference bitmap, and the collector's walk over it.

    The walk is the bitmap's only reader, so what matters is the composition: the addresses visited in
    an instance are those where its layout has references.
 */
module GcTib {
  import opened TypeLayout
  import opened RefBitmap
  import opened LayoutAgreement

  const TAG_BIT := 63
  const WORD_BITS := 8
  const WORD_BYTES := 64  // eight references of eight bytes under one bitmap word

  // ---------------------------------------------------------------- bits

  predicate Bit(v: nat, i: nat)
    decreases i
  {
    if i == 0 then v % 2 == 1 else Bit(v / 2, i - 1)
  }

  /** v | 1 << i */
  function SetBit(v: nat, i: nat): nat
    decreases i
  {
    if i == 0 then v / 2 * 2 + 1 else 2 * SetBit(v / 2, i - 1) + v % 2
  }

  /** v & ~(1 << i) */
  function ClearBit(v: nat, i: nat): nat
    decreases i
  {
    if i == 0 then v / 2 * 2 else 2 * ClearBit(v / 2, i - 1) + v % 2
  }

  lemma {:induction false} SetBitBits(v: nat, i: nat, j: nat)
    ensures Bit(SetBit(v, i), j) <==> i == j || Bit(v, j)
    decreases i
  {
    if i > 0 && j > 0 {
      SetBitBits(v / 2, i - 1, j - 1);
    }
  }

  lemma {:induction false} ClearBitBits(v: nat, i: nat, j: nat)
    ensures Bit(ClearBit(v, i), j) <==> i != j && Bit(v, j)
    decreases i
  {
    if i > 0 && j > 0 {
      ClearBitBits(v / 2, i - 1, j - 1);
    }
  }

  lemma {:induction false} ZeroHasNoBits(i: nat)
    ensures !Bit(0, i)
  {
    if i > 0 {
      ZeroHasNoBits(i - 1);
    }
  }

  // ---------------------------------------------------------------- the packed bitmap

  /** The union GCTib: a tagged word, or a pointer to bitmap words. */
  datatype Tib = Tagged(bitmap: nat) | Std(bitmapWords: seq<nat>)

  /** Reference slot w is set. */
  predicate Slot(tib: Tib, w: nat) {
    match tib
    case Tagged(v) => w != TAG_BIT && Bit(v, w)
    case Std(words) => w / WORD_BITS < |words| && Bit(words[w / WORD_BITS], w % WORD_BITS)
  }

  /** Bits j < n of v are the characters of `bits` from `base` on; there are no others. */
  ghost predicate Packs(v: nat, bits: string, base: nat, n: nat)
    requires base + n <= |bits|
  {
    forall j: nat :: Bit(v, j) <==> j < n && bits[base + j] == '1'
  }

  lemma PackOne(v: nat, bits: string, base: nat, n: nat)
    requires base + n < |bits| && Packs(v, bits, base, n)
    ensures Packs(if bits[base + n] == '1' then SetBit(v, n) else v, bits, base, n + 1)
  {
    if bits[base + n] == '1' {
      forall j: nat ensures Bit(SetBit(v, n), j) <==> j < n + 1 && bits[base + j] == '1' {
        SetBitBits(v, n, j);
      }
    }
  }

  lemma PackNone(bits: string, base: nat)
    requires base <= |bits|
    ensures Packs(0, bits, base, 0)
  {
    forall j: nat ensures !Bit(0, j) {
      ZeroHasNoBits(j);
    }
  }

  /** The short form: fewer than 64 slots, and the tag bit. */
  method PackTagged(bits: string) returns (value: nat)
    requires |bits| <= TAG_BIT
    ensures Bit(value, TAG_BIT)
    ensures forall w: nat :: Slot(Tagged(value), w) <==> w < |bits| && bits[w] == '1'
  {
    value := 0;
    PackNone(bits, 0);
    var idx := 0;
    while idx < |bits|
      invariant idx <= |bits| && Packs(value, bits, 0, idx)
    {
      PackOne(value, bits, 0, idx);
      if bits[idx] == '1' {
        value := SetBit(value, idx);
      }
      idx := idx + 1;
    }
    ghost var slots := value;
    value := SetBit(value, TAG_BIT);
    forall w: nat ensures Bit(value, w) <==> w == TAG_BIT || (w < |bits| && bits[w] == '1') {
      SetBitBits(slots, TAG_BIT, w);
    }
  }

  ghost predicate PacksWords(words: seq<nat>, bits: string)
    requires WORD_BITS * |words| <= |bits|
  {
    forall i :: 0 <= i < |words| ==> Packs(words[i], bits, WORD_BITS * i, WORD_BITS)
  }

  /** The long form: one byte for every eight slots.  A last group of fewer than eight is dropped. */
  method PackWords(bits: string) returns (words: seq<nat>)
    ensures |words| == |bits| / WORD_BITS && PacksWords(words, bits)
  {
    words := [];
    var value, idx := 0, 0;
    PackNone(bits, 0);
    while idx < |bits|
      invariant idx <= |bits| && |words| == idx / WORD_BITS
      invariant PacksWords(words, bits)
      invariant Packs(value, bits, WORD_BITS * |words|, idx % WORD_BITS)
    {
      PackOne(value, bits, WORD_BITS * |words|, idx % WORD_BITS);
      if bits[idx] == '1' {
        value := SetBit(value, idx % WORD_BITS);
      }
      if (idx + 1) % WORD_BITS == 0 {
        words := words + [value];
        value := 0;
        PackNone(bits, WORD_BITS * |words|);
      }
      idx := idx + 1;
    }
  }

  /** How many slots the packed form of a type with this many words has room for. */
  function Kept(words: nat): nat {
    if words < TAG_BIT + 1 then words else words / WORD_BITS * WORD_BITS
  }

  function Words(size: nat): nat {
    (size + PTR_SIZE - 1) / PTR_SIZE
  }

  /** A slot is set exactly for a reference that the form has room for. */
  ghost predicate SlotsAreRefs(tib: Tib, refs: iset<int>, size: nat) {
    forall w: nat :: Slot(tib, w) <==> PTR_SIZE * w in refs && w < Kept(Words(size))
  }

  /** The bitmap words fit in bytes. */
  ghost predicate Sized(tib: Tib) {
    tib.Std? ==> forall i, j: nat :: 0 <= i < |tib.bitmapWords| && j >= WORD_BITS ==> !Bit(tib.bitmapWords[i], j)
  }

  lemma WordsAreSlots(words: seq<nat>, bits: string)
    requires |words| == |bits| / WORD_BITS && PacksWords(words, bits)
    ensures Sized(Std(words))
    ensures forall w: nat :: Slot(Std(words), w) <==> w < WORD_BITS * |words| && bits[w] == '1'
  {
    forall w: nat ensures Slot(Std(words), w) <==> w < WORD_BITS * |words| && bits[w] == '1' {
      var i := w / WORD_BITS;
      if i < |words| {
        assert Packs(words[i], bits, WORD_BITS * i, WORD_BITS);
        assert WORD_BITS * i + w % WORD_BITS == w;
      }
    }
    forall i, j: nat | 0 <= i < |words| && j >= WORD_BITS ensures !Bit(words[i], j) {
      assert Packs(words[i], bits, WORD_BITS * i, WORD_BITS);
    }
  }

  /** TypeInfoManager::CalculateGCTib. */
  method CalculateGCTib(t: TypeInfo) returns (tib: Tib)
    requires WellFormed(t) && t.Record?
    ensures SlotsAreRefs(tib, Refs(Seen(t)), SizeOf(t)) && Sized(tib)
    ensures Agrees(t) ==> SlotsAreRefs(tib, Refs(t), SizeOf(t))
    ensures (tib.Tagged? <==> Words(SizeOf(t)) <= TAG_BIT) && (tib.Tagged? ==> Bit(tib.bitmap, TAG_BIT))
  {
    var bits := GetGCTibStr(t);
    tib := Pack(bits, Refs(Seen(t)), SizeOf(t));
    BitmapRightIffAgrees(t);
  }

  method Pack(bits: string, ghost refs: iset<int>, ghost size: nat) returns (tib: Tib)
    requires Shows(bits, refs, size)
    ensures SlotsAreRefs(tib, refs, size) && Sized(tib)
    ensures (tib.Tagged? <==> Words(size) <= TAG_BIT) && (tib.Tagged? ==> Bit(tib.bitmap, TAG_BIT))
  {
    if |bits| < TAG_BIT + 1 {
      var value := PackTagged(bits);
      tib := Tagged(value);
    } else {
      var words := PackWords(bits);
      WordsAreSlots(words, bits);
      tib := Std(words);
    }
  }

  // ---------------------------------------------------------------- the collector's walk

  ghost predicate Ascending(s: seq<nat>) {
    forall i, j :: 0 <= i < j < |s| ==> s[i] < s[j]
  }

  /** The walk from `addr` visits the set slots, each once and in order. */
  ghost predicate Walks(visited: seq<nat>, tib: Tib, addr: nat) {
    Ascending(visited) &&
    forall x: nat :: x in visited <==> x >= addr && (x - addr) % PTR_SIZE == 0 && Slot(tib, (x - addr) / PTR_SIZE)
  }

  /** The addresses under the set bits of v, from `addr` on. */
  function Visits(v: nat, addr: nat): seq<nat> {
    if v == 0 then [] else (if v % 2 == 1 then [addr] else []) + Visits(v / 2, addr + PTR_SIZE)
  }

  lemma {:induction false} VisitsBits(v: nat, addr: nat, x: nat)
    ensures x in Visits(v, addr) <==> x >= addr && (x - addr) % PTR_SIZE == 0 && Bit(v, (x - addr) / PTR_SIZE)
    decreases v
  {
    if v == 0 {
      if x >= addr {
        ZeroHasNoBits((x - addr) / PTR_SIZE);
      }
    } else {
      VisitsBits(v / 2, addr + PTR_SIZE, x);
      if addr <= x < addr + PTR_SIZE {
        assert (x - addr) / PTR_SIZE == 0;
      } else if x >= addr {
        assert (x - addr) / PTR_SIZE - 1 == (x - (addr + PTR_SIZE)) / PTR_SIZE;
      }
    }
  }

  lemma AscendingJoin(s: seq<nat>, t: seq<nat>, between: nat)
    requires Ascending(s) && Ascending(t)
    requires (forall x :: x in s ==> x < between) && (forall x :: x in t ==> x >= between)
    ensures Ascending(s + t)
  {
    forall i, j | 0 <= i < j < |s + t| ensures (s + t)[i] < (s + t)[j] {
      if i < |s| <= j {
        assert s[i] in s && t[j - |s|] in t;
      }
    }
  }

  lemma {:induction false} VisitsAscend(v: nat, addr: nat)
    ensures Ascending(Visits(v, addr)) && forall x :: x in Visits(v, addr) ==> x >= addr
    decreases v
  {
    if v != 0 {
      VisitsAscend(v / 2, addr + PTR_SIZE);
      AscendingJoin(if v % 2 == 1 then [addr] else [], Visits(v / 2, addr + PTR_SIZE), addr + PTR_SIZE);
    }
  }

  lemma VisitOne(visited: seq<nat>, v: nat, addr: nat)
    requires v != 0
    ensures visited + Visits(v, addr) ==
            (if v % 2 == 1 then visited + [addr] else visited) + Visits(v / 2, addr + PTR_SIZE)
  {
  }

  /** ShortGCTib::ForEachBitmapWord. */
  method VisitTagged(bitmap: nat, addr: nat) returns (visited: seq<nat>)
    ensures Walks(visited, Tagged(bitmap), addr)
  {
    var gcInfo: nat, fieldAddr: nat := ClearBit(bitmap, TAG_BIT), addr;
    ghost var slots := gcInfo;
    visited := [];
    while gcInfo != 0
      invariant visited + Visits(gcInfo, fieldAddr) == Visits(slots, addr)
    {
      VisitOne(visited, gcInfo, fieldAddr);
      if gcInfo % 2 == 1 {
        visited := visited + [fieldAddr];
      }
      gcInfo := gcInfo / 2;
      fieldAddr := fieldAddr + PTR_SIZE;
    }
    assert visited == Visits(slots, addr);
    UntaggedBits(bitmap, addr);
  }

  lemma UntaggedBits(bitmap: nat, addr: nat)
    ensures Walks(Visits(ClearBit(bitmap, TAG_BIT), addr), Tagged(bitmap), addr)
  {
    var slots := ClearBit(bitmap, TAG_BIT);
    VisitsAscend(slots, addr);
    forall x: nat ensures x in Visits(slots, addr) <==>
        x >= addr && (x - addr) % PTR_SIZE == 0 && Slot(Tagged(bitmap), (x - addr) / PTR_SIZE)
    {
      VisitsBits(slots, addr, x);
      if x >= addr {
        ClearBitBits(bitmap, TAG_BIT, (x - addr) / PTR_SIZE);
      }
    }
  }

  /** The set slots of the first n words, from `addr` on. */
  ghost predicate WalksWords(visited: seq<nat>, words: seq<nat>, n: nat, addr: nat)
    requires n <= |words|
  {
    Ascending(visited) &&
    forall x: nat :: x in visited <==> WordSlot(words, n, addr, x)
  }

  predicate WordSlot(words: seq<nat>, n: nat, addr: nat, x: nat)
    requires n <= |words|
  {
    x >= addr && (x - addr) % PTR_SIZE == 0 && (x - addr) / WORD_BYTES < n &&
    Bit(words[(x - addr) / WORD_BYTES], (x - addr) % WORD_BYTES / PTR_SIZE)
  }

  lemma VisitWord(visited: seq<nat>, words: seq<nat>, n: nat, addr: nat)
    requires n < |words| && WalksWords(visited, words, n, addr) && Sized(Std(words))
    ensures WalksWords(visited + Visits(words[n], addr + WORD_BYTES * n), words, n + 1, addr)
  {
    var base := addr + WORD_BYTES * n;
    var new_ := Visits(words[n], base);
    VisitsAscend(words[n], base);
    forall x | x in visited ensures x < base {
      assert WordSlot(words, n, addr, x);
    }
    AscendingJoin(visited, new_, base);
    forall x: nat ensures x in visited + new_ <==> WordSlot(words, n + 1, addr, x) {
      VisitsBits(words[n], base, x);
      assert WordSlot(words, n, addr, x) ==> WordSlot(words, n + 1, addr, x);
      if x in new_ {
        assert Bit(words[n], (x - base) / PTR_SIZE);
        assert (x - base) / PTR_SIZE < WORD_BITS;
        assert (x - addr) / WORD_BYTES == n && (x - addr) % WORD_BYTES == x - base;
      }
      if WordSlot(words, n + 1, addr, x) && !WordSlot(words, n, addr, x) {
        assert (x - addr) / WORD_BYTES == n && (x - addr) % WORD_BYTES == x - base;
        assert x in new_;
      }
    }
  }

  /** StdGCTib::ForEachBitmapWord. */
  method VisitWords(words: seq<nat>, addr: nat) returns (visited: seq<nat>)
    requires Sized(Std(words))
    ensures Walks(visited, Std(words), addr)
  {
    visited := [];
    var baseAddr: nat := addr;
    for i := 0 to |words|
      invariant baseAddr == addr + WORD_BYTES * i && WalksWords(visited, words, i, addr)
    {
      ghost var before := visited;
      var bitmapWord: nat, fieldAddr: nat := words[i], baseAddr;
      while bitmapWord != 0
        invariant visited + Visits(bitmapWord, fieldAddr) == before + Visits(words[i], baseAddr)
      {
        if bitmapWord % 2 == 1 {
          visited := visited + [fieldAddr];
        }
        bitmapWord := bitmapWord / 2;
        fieldAddr := fieldAddr + PTR_SIZE;
      }
      assert visited == before + Visits(words[i], baseAddr);
      VisitWord(before, words, i, addr);
      baseAddr := baseAddr + WORD_BYTES;
    }
    forall x: nat
      ensures x in visited <==> x >= addr && (x - addr) % PTR_SIZE == 0 && Slot(Std(words), (x - addr) / PTR_SIZE)
    {
      assert x in visited <==> WordSlot(words, |words|, addr, x);
      if x >= addr {
        assert (x - addr) / PTR_SIZE / WORD_BITS == (x - addr) / WORD_BYTES;
        assert (x - addr) / PTR_SIZE % WORD_BITS == (x - addr) % WORD_BYTES / PTR_SIZE;
      }
    }
  }

  /** GCTib::ForEachBitmapWord. */
  method ForEachBitmapWord(tib: Tib, addr: nat) returns (visited: seq<nat>)
    requires Sized(tib)
    ensures Walks(visited, tib, addr)
  {
    match tib {
      case Tagged(v) => visited := VisitTagged(v, addr);
      case Std(words) => visited := VisitWords(words, addr);
    }
  }

  // ---------------------------------------------------------------- writer and reader together

  /** The walk meets every reference of an instance at `addr`. */
  ghost predicate Complete(visited: seq<nat>, refs: iset<int>, addr: nat) {
    forall x :: x in refs ==> addr + x in visited
  }

  /** No reference lies behind the last whole group of eight words; every type of up to 63 words
      qualifies. */
  ghost predicate TailFree(refs: iset<int>, size: nat) {
    forall x :: x in refs ==> x < PTR_SIZE * Kept(Words(size))
  }

  lemma ShortTypesAreTailFree(refs: iset<int>, size: nat)
    requires WordsWithin(refs, size) && Words(size) <= TAG_BIT
    ensures TailFree(refs, size)
  {
  }

  /** The walk meets the references of an instance at `addr` and nothing else. */
  ghost predicate Exact(visited: seq<nat>, refs: iset<int>, addr: nat) {
    forall y: nat :: y in visited <==> y - addr in refs
  }

  /** A collector that walks an instance by the bitmap made for its type visits each address once and in
      ascending order.  It visits exactly the references if and only if the walk that made the bitmap
      found them in their places and none is in the dropped tail. */
  method ForEachRefField(t: TypeInfo, addr: nat) returns (visited: seq<nat>)
    requires WellFormed(t) && t.Record?
    ensures Ascending(visited)
    ensures Exact(visited, Refs(t), addr) <==> Agrees(t) && TailFree(Refs(t), SizeOf(t))
    ensures Agrees(t) ==> forall x :: x in visited ==> x - addr in Refs(t)
    ensures Agrees(t) ==> (Complete(visited, Refs(t), addr) <==> TailFree(Refs(t), SizeOf(t)))
  {
    var tib := CalculateGCTib(t);
    visited := ForEachBitmapWord(tib, addr);
    SeenWithin(t);
    WellFormedIsPlaced(t);
    RefsWithin(t);
    WalkMeetsKept(Refs(Seen(t)), SizeOf(t), tib, addr, visited);
    BitmapRightIffAgrees(t);
    if Agrees(t) {
      KeptMeansComplete(Refs(t), SizeOf(t), addr, visited);
      KeptMeansExact(Refs(t), SizeOf(t), addr, visited);
    } else if Exact(visited, Refs(t), addr) {
      ExactMeansSame(t, addr, visited);
    }
  }

  lemma KeptMeansExact(refs: iset<int>, size: nat, addr: nat, visited: seq<nat>)
    requires WordsWithin(refs, size) && MeetsKept(visited, refs, addr, Kept(Words(size)))
    ensures Exact(visited, refs, addr) <==> TailFree(refs, size)
  {
    forall x | x in refs ensures addr + x in visited <==> x < PTR_SIZE * Kept(Words(size)) {
      assert addr + x - addr == x;
    }
  }

  /** The walk that made the bitmap puts no reference behind the last one, so it cannot hide a misplaced
      one in the tail. */
  lemma ExactMeansSame(t: TypeInfo, addr: nat, visited: seq<nat>)
    requires WellFormed(t) && Exact(visited, Refs(t), addr)
    requires WordsWithin(Refs(t), SizeOf(t)) && WordsWithin(Refs(Seen(t)), SizeOf(t))
    requires MeetsKept(visited, Refs(Seen(t)), addr, Kept(Words(SizeOf(t))))
    ensures Refs(Seen(t)) == Refs(t)
  {
    var end := PTR_SIZE * Kept(Words(SizeOf(t)));
    forall x: int | x in Refs(t) ensures x in Refs(Seen(t)) && x < end {
      assert addr + x - addr == x && addr + x in visited;
    }
    forall x: int | x in Refs(Seen(t)) ensures x in Refs(t) {
      var y := NeverAhead(t, x);
      assert y in Refs(t);
      assert addr + x - addr == x && addr + x in visited;
    }
  }

  /** The visited addresses are those of the references in the first `kept` words. */
  ghost predicate MeetsKept(visited: seq<nat>, refs: iset<int>, addr: nat, kept: nat) {
    forall y: nat :: y in visited <==> y - addr in refs && y - addr < PTR_SIZE * kept
  }

  lemma WalkMeetsKept(refs: iset<int>, size: nat, tib: Tib, addr: nat, visited: seq<nat>)
    requires WordsWithin(refs, size) && Walks(visited, tib, addr) && SlotsAreRefs(tib, refs, size)
    ensures MeetsKept(visited, refs, addr, Kept(Words(size)))
  {
    forall y: nat ensures y in visited <==> y - addr in refs && y - addr < PTR_SIZE * Kept(Words(size)) {
      if y >= addr && (y - addr) % PTR_SIZE == 0 {
        var w := (y - addr) / PTR_SIZE;
        assert y - addr == PTR_SIZE * w && (y in visited <==> Slot(tib, w));
      }
    }
  }

  lemma KeptMeansComplete(refs: iset<int>, size: nat, addr: nat, visited: seq<nat>)
    requires WordsWithin(refs, size) && MeetsKept(visited, refs, addr, Kept(Words(size)))
    ensures Complete(visited, refs, addr) <==> TailFree(refs, size)
  {
    forall x | x in refs ensures addr + x in visited <==> x < PTR_SIZE * Kept(Words(size)) {
      assert addr + x - addr == x;
    }
  }

  /** A record of n references: with 64 or more of them, and not a multiple of eight, its last one is in
      the dropped tail. */
  function RecordOfRefs(n: nat): TypeInfo {
    Record(seq(n, _ => Ref), seq(n, i => PTR_SIZE * i), PTR_SIZE * n, PTR_SIZE, true)
  }

  lemma LongRecordsLoseTheirTail(n: nat)
    requires n >= TAG_BIT + 1 && n % WORD_BITS != 0
    ensures WellFormed(RecordOfRefs(n)) && !TailFree(Refs(RecordOfRefs(n)), PTR_SIZE * n)
  {
    RecordOfRefsIsWellFormed(n);
    LastRef(n);
    TailDropped(Refs(RecordOfRefs(n)), n);
  }

  lemma TailDropped(refs: iset<int>, n: nat)
    requires n >= TAG_BIT + 1 && n % WORD_BITS != 0 && PTR_SIZE * (n - 1) in refs
    ensures !TailFree(refs, PTR_SIZE * n)
  {
    assert Words(PTR_SIZE * n) == n;
  }

  lemma LastRef(n: nat)
    requires n > 0
    ensures PTR_SIZE * (n - 1) in Refs(RecordOfRefs(n))
  {
    assert FieldRefAt(RecordOfRefs(n), n - 1, PTR_SIZE * (n - 1));
  }

  lemma RecordOfRefsIsWellFormed(n: nat)
    requires n > 0
    ensures WellFormed(RecordOfRefs(n))
  {
    var t := RecordOfRefs(n);
    RefsInARow(t.fields, n);
    forall i | 0 <= i < n ensures t.offsets[i] == Place(EndOf(t.fields, i), t.fields[i]) {
      RefsInARow(t.fields, i);
    }
    assert HoldsRef(t.fields[0]);
    assert LaidOut(t);
  }

  lemma {:induction false} RefsInARow(fields: seq<TypeInfo>, n: nat)
    requires n <= |fields| && forall i :: 0 <= i < |fields| ==> fields[i] == Ref
    ensures FieldsOk(fields) && EndOf(fields, n) == PTR_SIZE * n &&
            MaxAlign(fields, n) == if n == 0 then 1 else PTR_SIZE
    ensures AlignUp(PTR_SIZE * n, PTR_SIZE) == PTR_SIZE * n
  {
    AlignedToWords(PTR_SIZE * n);
    AlignedAlready(PTR_SIZE * n, PTR_SIZE);
    if n > 0 {
      RefsInARow(fields, n - 1);
    }
  }
}
