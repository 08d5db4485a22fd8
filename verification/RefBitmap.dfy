/** The garbage collector's view of a type: which words of an instance hold references. */
module RefBitmap {
  import opened TypeLayout

  // ---------------------------------------------------------------- references in a layout

  /** The layout of t has a reference at byte x. */
  ghost predicate RefAt(t: TypeInfo, x: int)
    decreases t, 1
  {
    match t
    case NoSize => false
    case Scalar(_, _) => false
    case Ref => x == 0
    case Record(fields, _, _, _, _) => exists i :: FieldRefAt(t, i, x)
    case VArray(_, _) => exists j :: ElementRefAt(t, j, x)
  }

  ghost predicate FieldRefAt(t: TypeInfo, i: int, x: int)
    requires t.Record?
    decreases t, 0
  {
    0 <= i < |t.fields| && i < |t.offsets| && !t.fields[i].NoSize? && RefAt(t.fields[i], x - t.offsets[i])
  }

  ghost predicate ElementRefAt(t: TypeInfo, j: int, x: int)
    requires t.VArray?
    decreases t, 0
  {
    0 <= j < t.length && RefAt(t.component, x - Repeated(j, SizeOf(t.component)))
  }

  /** What a layout must at least obey for its references to be whole words. */
  ghost predicate Placed(t: TypeInfo) {
    match t
    case NoSize => true
    case Ref => true
    case Scalar(n, a) => IsAlignment(a) && Aligned(n, a)
    case Record(fields, offsets, size, align, _) =>
      && IsAlignment(align) && Aligned(size, align) && |offsets| == |fields|
      && (forall i {:trigger Placed(fields[i])} :: 0 <= i < |fields| ==>
          Placed(fields[i]) && (fields[i].NoSize? || PlacedIn(t, i)))
    case VArray(c, _) => Placed(c)
  }

  ghost predicate PlacedIn(t: TypeInfo, i: nat)
    requires t.Record? && i < |t.fields| == |t.offsets|
  {
    var f := t.fields[i];
    && 0 < AlignOf(f) <= t.align && Aligned(t.offsets[i], AlignOf(f)) && t.offsets[i] + SizeOf(f) <= t.size
    && (HoldsRef(f) ==> t.hasRefField)
  }

  lemma PlacedRecord(t: TypeInfo)
    requires t.Record? && IsAlignment(t.align) && Aligned(t.size, t.align) && |t.offsets| == |t.fields|
    requires forall i :: 0 <= i < |t.fields| ==> Placed(t.fields[i]) && (t.fields[i].NoSize? || PlacedIn(t, i))
    ensures Placed(t)
  {
  }

  lemma {:induction false} PlacedAlign(t: TypeInfo)
    requires Placed(t)
    ensures IsAlignment(AlignOf(t)) && Aligned(SizeOf(t), AlignOf(t))
  {
    match t
    case VArray(c, n) =>
      PlacedAlign(c);
      MultipleOfAlign(n, SizeOf(c), AlignOf(c));
    case _ =>
  }

  lemma {:induction false} WellFormedIsPlaced(t: TypeInfo)
    requires WellFormed(t)
    ensures Placed(t)
  {
    match t
    case Record(fields, _, _, _, _) =>
      WellFormedAlign(t);
      forall i {:trigger Placed(fields[i])} | 0 <= i < |fields|
        ensures Placed(fields[i]) && (fields[i].NoSize? || PlacedIn(t, i))
      {
        assert WellFormed(fields[i]);
        WellFormedIsPlaced(fields[i]);
        WellFormedAlign(fields[i]);
        if !fields[i].NoSize? {
          FieldsInOrder(t, i);
        }
      }
    case VArray(c, _) => WellFormedIsPlaced(c);
    case _ =>
  }

  /** References are whole words inside the instance; a type that holds one is word-aligned. */
  lemma {:induction false} RefsAreWords(t: TypeInfo, x: int)
    requires Placed(t) && RefAt(t, x)
    ensures 0 <= x && x + PTR_SIZE <= SizeOf(t) && Aligned(x, PTR_SIZE)
    ensures HoldsRef(t) && AlignOf(t) == PTR_SIZE
    decreases t
  {
    match t
    case Ref =>
    case Record(fields, offsets, _, align, _) =>
      var i :| FieldRefAt(t, i, x);
      var y := x - offsets[i];
      assert Placed(fields[i]) && PlacedIn(t, i);
      RefsAreWords(fields[i], y);
      AlignedSum(offsets[i], y, PTR_SIZE);
    case VArray(c, n) =>
      var j :| ElementRefAt(t, j, x);
      var y := x - Repeated(j, SizeOf(c));
      RefsAreWords(c, y);
      PlacedAlign(c);
      WordInElement(SizeOf(c), n, j, y, x);
  }

  lemma WordInElement(size: nat, n: nat, j: nat, y: nat, x: nat)
    requires j < n && y + PTR_SIZE <= size && Aligned(y, PTR_SIZE) && Aligned(size, PTR_SIZE)
    requires x == Repeated(j, size) + y
    ensures x + PTR_SIZE <= Repeated(n, size) && Aligned(x, PTR_SIZE)
  {
    MultipleOfAlign(j, size, PTR_SIZE);
    AlignedSum(Repeated(j, size), y, PTR_SIZE);
    RepeatedGrows(j + 1, n, size);
  }

  lemma {:induction false} RepeatedGrows(i: nat, j: nat, size: nat)
    requires i <= j
    ensures Repeated(i, size) <= Repeated(j, size)
  {
    if i < j {
      RepeatedGrows(i, j - 1, size);
    }
  }

  /** The type has a reference, not merely an empty array of types that do. */
  predicate Stores(t: TypeInfo) {
    match t
    case NoSize => false
    case Scalar(_, _) => false
    case Ref => true
    case Record(fields, _, _, _, _) => exists i :: 0 <= i < |fields| && Stores(fields[i])
    case VArray(c, n) => n > 0 && Stores(c)
  }

  lemma {:induction false} StoresMeansRef(t: TypeInfo) returns (x: int)
    requires WellFormed(t) && Stores(t)
    ensures RefAt(t, x)
    decreases t
  {
    match t
    case Ref => x := 0;
    case Record(fields, offsets, _, _, _) =>
      var i :| 0 <= i < |fields| && Stores(fields[i]);
      assert WellFormed(fields[i]);
      var y := StoresMeansRef(fields[i]);
      x := y + offsets[i];
      RefOfField(t, i, y, x);
    case VArray(c, n) =>
      x := StoresMeansRef(c);
      RefOfFirst(t, x);
  }

  lemma RefOfField(t: TypeInfo, i: nat, y: int, x: int)
    requires t.Record? && i < |t.fields| == |t.offsets| && !t.fields[i].NoSize? && x == y + t.offsets[i]
    requires RefAt(t.fields[i], y)
    ensures RefAt(t, x)
  {
    assert x - t.offsets[i] == y;
    assert FieldRefAt(t, i, x);
  }

  lemma RefOfFirst(t: TypeInfo, x: int)
    requires t.VArray? && t.length > 0 && RefAt(t.component, x)
    ensures RefAt(t, x)
  {
    assert ElementRefAt(t, 0, x);
  }

  lemma {:induction false} RefMeansStores(t: TypeInfo, x: int)
    requires RefAt(t, x)
    ensures Stores(t)
    decreases t
  {
    match t
    case Ref =>
    case Record(fields, offsets, _, _, _) =>
      var i :| FieldRefAt(t, i, x);
      RefMeansStores(fields[i], x - offsets[i]);
    case VArray(c, n) =>
      var j :| ElementRefAt(t, j, x);
      RefMeansStores(c, x - Repeated(j, SizeOf(c)));
  }

  /** Types flagged as holding references are word-aligned. */
  lemma {:induction false} FlagMeansWords(t: TypeInfo)
    requires WellFormed(t) && HoldsRef(t)
    ensures AlignOf(t) == PTR_SIZE
    decreases t
  {
    match t
    case Ref =>
    case Record(fields, _, _, _, _) =>
      var i :| 0 <= i < |fields| && HoldsRef(fields[i]);
      assert WellFormed(fields[i]);
      FlagMeansWords(fields[i]);
      FieldsInOrder(t, i);
      WellFormedAlign(t);
    case VArray(c, _) => FlagMeansWords(c);
  }

  /** The flag covers the references: a type that stores one is flagged, and a flagged type that stores
      none has an empty array of flagged types. */
  lemma {:induction false} FlagMeansRef(t: TypeInfo)
    requires WellFormed(t)
    ensures Stores(t) ==> HoldsRef(t)
    ensures HoldsRef(t) && !Stores(t) ==> HasEmptyArray(t)
  {
    match t
    case Record(fields, _, _, _, _) =>
      forall i | 0 <= i < |fields|
        ensures (Stores(fields[i]) ==> HoldsRef(fields[i])) &&
                (HoldsRef(fields[i]) && !Stores(fields[i]) ==> HasEmptyArray(fields[i]))
      {
        assert WellFormed(fields[i]);
        FlagMeansRef(fields[i]);
      }
    case VArray(c, _) => FlagMeansRef(c);
    case _ =>
  }

  predicate HasEmptyArray(t: TypeInfo) {
    match t
    case Record(fields, _, _, _, _) => exists i :: 0 <= i < |fields| && HasEmptyArray(fields[i])
    case VArray(c, n) => n == 0 || HasEmptyArray(c)
    case _ => false
  }

  ghost function Refs(t: TypeInfo): iset<int> {
    iset x: int | RefAt(t, x)
  }

  /** Whole words within the first `size` bytes. */
  ghost predicate WordsWithin(refs: iset<int>, size: nat) {
    forall x :: x in refs ==> 0 <= x && x + PTR_SIZE <= size && x % PTR_SIZE == 0
  }

  lemma RefsWithin(t: TypeInfo)
    requires Placed(t)
    ensures WordsWithin(Refs(t), SizeOf(t)) && (Refs(t) != iset{} ==> HoldsRef(t))
  {
    forall x | x in Refs(t) ensures 0 <= x && x + PTR_SIZE <= SizeOf(t) && x % PTR_SIZE == 0 && HoldsRef(t) {
      RefsAreWords(t, x);
      AlignedToWords(x);
    }
  }

  lemma HoldersAreWords(t: TypeInfo)
    requires WellFormed(t) && HoldsRef(t)
    ensures AlignOf(t) == PTR_SIZE && SizeOf(t) % PTR_SIZE == 0
  {
    FlagMeansWords(t);
    WellFormedAlign(t);
    AlignedToWords(SizeOf(t));
  }

  lemma {:induction false} AlignedToWords(x: nat)
    ensures Aligned(x, PTR_SIZE) <==> x % PTR_SIZE == 0
  {
    if x >= PTR_SIZE {
      AlignedToWords(x - PTR_SIZE);
    }
  }

  // ---------------------------------------------------------------- the bitmap string

  /** Nothing is marked from byte `cur` on. */
  ghost predicate Clear(bits: string, cur: nat) {
    forall w :: 0 <= w < |bits| && PTR_SIZE * w >= cur ==> bits[w] == '0'
  }

  /** The references of a part that starts at byte `start` are marked, and nothing else changes. */
  ghost predicate Marks(bits: string, bits': string, refs: iset<int>, start: int) {
    |bits'| == |bits| &&
    forall w :: 0 <= w < |bits| ==> bits'[w] == if PTR_SIZE * w - start in refs then '1' else bits[w]
  }

  /** The '1's of the string are the references of the instance. */
  ghost predicate Shows(bits: string, refs: iset<int>, size: nat) {
    |bits| == (size + PTR_SIZE - 1) / PTR_SIZE &&
    forall w :: 0 <= w < |bits| ==> bits[w] == if PTR_SIZE * w in refs then '1' else '0'
  }

  /** CString::Replace. */
  function Replace(s: string, pos: nat, piece: string): string
    requires pos + |piece| <= |s|
  {
    s[..pos] + piece + s[pos + |piece|..]
  }

  lemma MarksStayInside(bits: string, bits': string, refs: iset<int>, start: nat, size: nat)
    requires WordsWithin(refs, size) && Clear(bits, start) && Marks(bits, bits', refs, start)
    ensures Clear(bits', start + size)
  {
  }

  lemma ReplaceMarks(bits: string, refs: iset<int>, size: nat, p: nat, piece: string)
    requires WordsWithin(refs, size) && Shows(piece, refs, size) && size % PTR_SIZE == 0
    requires p + size / PTR_SIZE <= |bits| && Clear(bits, PTR_SIZE * p)
    ensures p + |piece| <= |bits| && Marks(bits, Replace(bits, p, piece), refs, PTR_SIZE * p)
  {
    var bits' := Replace(bits, p, piece);
    forall w | 0 <= w < |bits| ensures bits'[w] == if PTR_SIZE * w - PTR_SIZE * p in refs then '1' else bits[w] {
      if p <= w < p + |piece| {
        assert bits'[w] == piece[w - p] && PTR_SIZE * w - PTR_SIZE * p == PTR_SIZE * (w - p);
      }
    }
  }

  ghost predicate Shifted(refs: iset<int>, d: int, x: int) {
    x - d in refs
  }

  ghost function Shift(refs: iset<int>, d: int): iset<int> {
    iset x: int | Shifted(refs, d, x)
  }

  /** Marking one part and then another marks both. */
  lemma MarksJoin(bits: string, mid: string, bits': string, refs: iset<int>, more: iset<int>, start: int, d: int,
                  at: int)
    requires Marks(bits, mid, refs, start) && Marks(mid, bits', more, at) && at == start + d
    ensures Marks(bits, bits', refs + Shift(more, d), start)
  {
    forall w | 0 <= w < |bits|
      ensures bits'[w] == if PTR_SIZE * w - start in refs + Shift(more, d) then '1' else bits[w]
    {
      assert PTR_SIZE * w - start - d == PTR_SIZE * w - at;
    }
  }

  // ---------------------------------------------------------------- parts of a type

  /** The references of the first n elements, when those of one are `refs`. */
  ghost function ElementRefs(refs: iset<int>, size: nat, n: nat): iset<int> {
    if n == 0 then iset{} else ElementRefs(refs, size, n - 1) + Shift(refs, Repeated(n - 1, size))
  }

  lemma {:induction false} ElementCounts(refs: iset<int>, size: nat, n: nat, j: nat, x: int)
    requires j < n && Shifted(refs, Repeated(j, size), x)
    ensures x in ElementRefs(refs, size, n)
  {
    if j < n - 1 {
      ElementCounts(refs, size, n - 1, j, x);
    }
  }

  lemma {:induction false} CountedElement(refs: iset<int>, size: nat, n: nat, x: int) returns (j: nat)
    requires x in ElementRefs(refs, size, n)
    ensures j < n && Shifted(refs, Repeated(j, size), x)
  {
    if x in ElementRefs(refs, size, n - 1) {
      j := CountedElement(refs, size, n - 1, x);
    } else {
      j := n - 1;
    }
  }

  lemma MarksNext(bits: string, mid: string, bits': string, refs: iset<int>, size: nat, n: nat, start: int, at: int)
    requires Marks(bits, mid, ElementRefs(refs, size, n), start) && Marks(mid, bits', refs, at)
    requires at == start + Repeated(n, size)
    ensures Marks(bits, bits', ElementRefs(refs, size, n + 1), start)
  {
    MarksJoin(bits, mid, bits', ElementRefs(refs, size, n), refs, start, Repeated(n, size), at);
  }

  lemma SomeElement(t: TypeInfo, x: int) returns (j: nat)
    requires t.VArray? && RefAt(t, x)
    ensures j < t.length && ElementRefAt(t, j, x)
  {
    j :| ElementRefAt(t, j, x);
  }

  lemma AllElements(t: TypeInfo)
    requires t.VArray?
    ensures ElementRefs(Refs(t.component), SizeOf(t.component), t.length) == Refs(t)
  {
    var refs, size := Refs(t.component), SizeOf(t.component);
    forall x: int | x in ElementRefs(refs, size, t.length) ensures RefAt(t, x) {
      var j := CountedElement(refs, size, t.length, x);
      assert ElementRefAt(t, j, x);
    }
    forall x: int | RefAt(t, x) ensures x in ElementRefs(refs, size, t.length) {
      var j := SomeElement(t, x);
      ElementCounts(refs, size, t.length, j, x);
    }
  }

  /** The references of the first n fields. */
  ghost function FieldRefs(t: TypeInfo, n: nat): iset<int>
    requires t.Record? && n <= |t.fields| && |t.offsets| == |t.fields|
  {
    if n == 0 then iset{}
    else if t.fields[n - 1].NoSize? then FieldRefs(t, n - 1)
    else FieldRefs(t, n - 1) + Shift(Refs(t.fields[n - 1]), t.offsets[n - 1])
  }

  lemma {:induction false} FieldCounts(t: TypeInfo, n: nat, i: nat, x: int)
    requires t.Record? && i < n <= |t.fields| && |t.offsets| == |t.fields| && FieldRefAt(t, i, x)
    ensures x in FieldRefs(t, n)
  {
    if i < n - 1 {
      FieldCounts(t, n - 1, i, x);
    } else {
      assert Shifted(Refs(t.fields[i]), t.offsets[i], x);
    }
  }

  lemma {:induction false} CountedField(t: TypeInfo, n: nat, x: int)
    requires t.Record? && n <= |t.fields| && |t.offsets| == |t.fields| && x in FieldRefs(t, n)
    ensures RefAt(t, x)
  {
    if x in FieldRefs(t, n - 1) {
      CountedField(t, n - 1, x);
    } else {
      assert FieldRefAt(t, n - 1, x);
    }
  }

  lemma SomeField(t: TypeInfo, x: int) returns (i: nat)
    requires t.Record? && RefAt(t, x)
    ensures i < |t.fields| && FieldRefAt(t, i, x)
  {
    i :| FieldRefAt(t, i, x);
  }

  lemma AllFields(t: TypeInfo)
    requires t.Record? && |t.offsets| == |t.fields|
    ensures FieldRefs(t, |t.fields|) == Refs(t)
  {
    forall x: int | x in FieldRefs(t, |t.fields|) ensures RefAt(t, x) {
      CountedField(t, |t.fields|, x);
    }
    forall x: int | RefAt(t, x) ensures x in FieldRefs(t, |t.fields|) {
      var i := SomeField(t, x);
      FieldCounts(t, |t.fields|, i, x);
    }
  }

  // ---------------------------------------------------------------- the layout as the walk sees it

  /** An array without elements, at whatever depth: the walk over its elements does nothing at all, while
      the layout rule still aligns its place. */
  predicate Bare(t: TypeInfo) {
    t.VArray? && (t.length == 0 || Bare(t.component))
  }

  /** The walk's cursor after an element that started from `cur`. */
  function ElementEnd(cur: nat, t: TypeInfo): nat
    requires AlignOf(t) > 0
  {
    if Bare(t) then cur else AlignUp(cur, AlignOf(t)) + SizeOf(t)
  }

  /** The walk's cursor after the first n fields. */
  function WalkEnd(fields: seq<TypeInfo>, n: nat): nat
    requires n <= |fields| && FieldsOk(fields)
  {
    if n == 0 then 0
    else if fields[n - 1].NoSize? then WalkEnd(fields, n - 1)
    else ElementEnd(WalkEnd(fields, n - 1), fields[n - 1])
  }

  function WalkStart(fields: seq<TypeInfo>, i: nat): nat
    requires i < |fields| && FieldsOk(fields)
  {
    Place(WalkEnd(fields, i), fields[i])
  }

  /** The type with its fields, at every depth, where the walk takes them to be. */
  ghost function Seen(t: TypeInfo): TypeInfo
    requires WellFormed(t)
    decreases t
  {
    match t
    case Record(fields, _, size, align, flag) =>
      Record(seq(|fields|, i requires 0 <= i < |fields| => Seen(fields[i])),
             seq(|fields|, i requires 0 <= i < |fields| => WalkStart(fields, i)), size, align, flag)
    case VArray(c, n) => VArray(Seen(c), n)
    case _ => t
  }

  lemma {:induction false} SeenAlike(t: TypeInfo)
    requires WellFormed(t)
    ensures SizeOf(Seen(t)) == SizeOf(t) && AlignOf(Seen(t)) == AlignOf(t) && HoldsRef(Seen(t)) == HoldsRef(t)
    ensures Seen(t).NoSize? == t.NoSize?
  {
    match t
    case VArray(c, _) => SeenAlike(c);
    case _ =>
  }

  lemma {:induction false} WalkBehind(fields: seq<TypeInfo>, n: nat)
    requires n <= |fields| && FieldsOk(fields)
    ensures WalkEnd(fields, n) <= EndOf(fields, n)
  {
    if n > 0 {
      WalkBehind(fields, n - 1);
      AlignUpGrows(WalkEnd(fields, n - 1), EndOf(fields, n - 1), AlignOf(fields[n - 1]));
    }
  }

  lemma StartBehind(t: TypeInfo, i: nat)
    requires t.Record? && LaidOut(t) && i < |t.fields| && !t.fields[i].NoSize?
    ensures WalkStart(t.fields, i) <= t.offsets[i] && WalkStart(t.fields, i) + SizeOf(t.fields[i]) <= t.size
  {
    WalkBehind(t.fields, i);
    AlignUpGrows(WalkEnd(t.fields, i), EndOf(t.fields, i), AlignOf(t.fields[i]));
    FieldsInOrder(t, i);
  }

  lemma SeenPlacedIn(t: TypeInfo, i: nat)
    requires t.Record? && WellFormed(t) && i < |t.fields| && !t.fields[i].NoSize?
    ensures PlacedIn(Seen(t), i)
  {
    assert WellFormed(t.fields[i]);
    SeenAlike(t.fields[i]);
    WellFormedAlign(t.fields[i]);
    StartBehind(t, i);
    FieldsInOrder(t, i);
  }

  lemma {:induction false} SeenIsPlaced(t: TypeInfo)
    requires WellFormed(t)
    ensures Placed(Seen(t))
  {
    match t
    case Record(fields, _, _, _, _) =>
      WellFormedAlign(t);
      var s := Seen(t);
      forall i | 0 <= i < |s.fields| ensures Placed(s.fields[i]) && (s.fields[i].NoSize? || PlacedIn(s, i)) {
        assert WellFormed(fields[i]) && s.fields[i] == Seen(fields[i]);
        SeenIsPlaced(fields[i]);
        SeenAlike(fields[i]);
        if !fields[i].NoSize? {
          SeenPlacedIn(t, i);
        }
      }
      PlacedRecord(s);
    case VArray(c, _) => SeenIsPlaced(c);
    case _ =>
  }

  lemma SeenWithin(t: TypeInfo)
    requires WellFormed(t)
    ensures WordsWithin(Refs(Seen(t)), SizeOf(t)) && (Refs(Seen(t)) != iset{} ==> HoldsRef(t))
  {
    SeenIsPlaced(t);
    SeenAlike(t);
    RefsWithin(Seen(t));
  }

  lemma {:induction false} BareIsNothing(t: TypeInfo)
    requires WellFormed(t) && Bare(t)
    ensures SizeOf(t) == 0 && Refs(Seen(t)) == iset{}
  {
    if t.length > 0 {
      BareIsNothing(t.component);
      NothingRepeated(t.length);
      NothingShifted(SizeOf(Seen(t.component)), t.length);
    }
    AllElements(Seen(t));
  }

  lemma NothingShifted(size: nat, n: nat)
    ensures ElementRefs(iset{}, size, n) == iset{}
  {
    forall x ensures x !in ElementRefs(iset{}, size, n) {
      if x in ElementRefs(iset{}, size, n) {
        var _ := CountedElement(iset{}, size, n, x);
      }
    }
  }

  lemma {:induction false} NothingRepeated(n: nat)
    ensures Repeated(n, 0) == 0
  {
    if n > 0 {
      NothingRepeated(n - 1);
    }
  }

  // ---------------------------------------------------------------- TypeGCInfo

  /** TypeGCInfo::FillTypeGCInfo: one field or element that is not itself an array. */
  method FillTypeGCInfo(t: TypeInfo, bits: string, cur: nat) returns (bits': string, cur': nat)
    requires WellFormed(t) && !t.VArray? && Clear(bits, cur)
    requires AlignOf(t) > 0 && AlignUp(cur, AlignOf(t)) + SizeOf(t) <= PTR_SIZE * |bits|
    ensures Marks(bits, bits', Refs(Seen(t)), AlignUp(cur, AlignOf(t)))
    ensures cur' == AlignUp(cur, AlignOf(t)) + SizeOf(t)
    decreases t, 2
  {
    var start := AlignUp(cur, AlignOf(t));
    bits' := bits;
    SeenWithin(t);
    if HoldsRef(t) {
      HoldersAreWords(t);
      AlignedToWords(start);
      if t.Ref? {
        bits' := bits[start / PTR_SIZE := '1'];
      } else {
        var piece := GetGCTibStr(t);
        ReplaceMarks(bits, Refs(Seen(t)), SizeOf(t), start / PTR_SIZE, piece);
        bits' := Replace(bits, start / PTR_SIZE, piece);
      }
    }
    var size := GetTypeSize(t);
    cur' := start + size;
  }

  /** Elements follow each other without gaps. */
  lemma StaysAligned(start: nat, n: nat, size: nat, a: nat, at: nat)
    requires a > 0 && Aligned(start, a) && Aligned(size, a) && at == start + Repeated(n, size)
    ensures AlignUp(at, a) == at
  {
    MultipleOfAlign(n, size, a);
    AlignedSum(start, Repeated(n, size), a);
    AlignedAlready(at, a);
  }

  /** What has happened when the walk over an array has filled n elements. */
  ghost predicate Filled(c: TypeInfo, was: string, from: nat, bits: string, cur: nat, n: nat)
    requires WellFormed(c) && AlignOf(c) > 0
  {
    var start := AlignUp(from, AlignOf(c));
    && Marks(was, bits, ElementRefs(Refs(Seen(c)), SizeOf(c), n), start) && Clear(bits, cur)
    && AlignUp(cur, AlignOf(c)) == start + Repeated(n, SizeOf(c))
    && if n == 0 || Bare(c) then cur == from && bits == was else cur == AlignUp(cur, AlignOf(c))
  }

  lemma BareNext(c: TypeInfo, was: string, from: nat, bits: string, cur: nat, n: nat)
    requires WellFormed(c) && AlignOf(c) > 0 && Bare(c) && Filled(c, was, from, bits, cur, n)
    ensures Filled(c, was, from, bits, cur, n + 1)
  {
    var refs, start := Refs(Seen(c)), AlignUp(from, AlignOf(c));
    assert SizeOf(c) == 0 && refs == iset{} by {
      BareIsNothing(c);
    }
    assert Repeated(n + 1, 0) == Repeated(n, 0) == 0 by {
      NothingRepeated(n);
    }
    NothingShifted(0, n);
    NothingShifted(0, n + 1);
  }

  lemma FilledNext(c: TypeInfo, was: string, from: nat, bits: string, cur: nat, n: nat, bits': string, cur': nat)
    requires WellFormed(c) && AlignOf(c) > 0 && !Bare(c) && Filled(c, was, from, bits, cur, n)
    requires Marks(bits, bits', Refs(Seen(c)), AlignUp(cur, AlignOf(c))) && cur' == AlignUp(cur, AlignOf(c)) + SizeOf(c)
    ensures Filled(c, was, from, bits', cur', n + 1)
  {
    var refs, size, start, at := Refs(Seen(c)), SizeOf(c), AlignUp(from, AlignOf(c)), AlignUp(cur, AlignOf(c));
    assert Marks(was, bits', ElementRefs(refs, size, n + 1), start) by {
      MarksNext(was, bits, bits', refs, size, n, start, at);
    }
    assert Clear(bits', cur') by {
      SeenWithin(c);
      ClearOn(bits, cur, at);
      MarksStayInside(bits, bits', refs, at, size);
    }
    assert AlignUp(cur', AlignOf(c)) == cur' by {
      WellFormedAlign(c);
      StaysAligned(start, n + 1, size, AlignOf(c), cur');
    }
  }

  lemma ClearOn(bits: string, from: nat, to: nat)
    requires Clear(bits, from) && from <= to
    ensures Clear(bits, to)
  {
  }

  lemma FilledAll(t: TypeInfo, was: string, from: nat, bits: string, cur: nat)
    requires WellFormed(t) && t.VArray? && AlignOf(t) > 0 && Filled(t.component, was, from, bits, cur, t.length)
    ensures Marks(was, bits, Refs(Seen(t)), AlignUp(from, AlignOf(t)))
    ensures cur == ElementEnd(from, t) && (Bare(t) ==> bits == was)
  {
    SeenAlike(t.component);
    AllElements(Seen(t));
  }

  /** TypeGCInfo::FillArrayTypeGCInfo: each element is aligned and filled in turn. */
  method FillArrayTypeGCInfo(t: TypeInfo, bits: string, cur: nat) returns (bits': string, cur': nat)
    requires WellFormed(t) && t.VArray? && Clear(bits, cur)
    requires AlignOf(t) > 0 && AlignUp(cur, AlignOf(t)) + SizeOf(t) <= PTR_SIZE * |bits|
    ensures Marks(bits, bits', Refs(Seen(t)), AlignUp(cur, AlignOf(t)))
    ensures cur' == ElementEnd(cur, t) && (Bare(t) ==> bits' == bits)
    decreases t, 1
  {
    var c := t.component;
    bits', cur' := bits, cur;
    var n := 0;
    while n < t.length
      invariant n <= t.length && Filled(c, bits, cur, bits', cur', n)
    {
      ghost var mid, at := bits', cur';
      RepeatedGrows(n + 1, t.length, SizeOf(c));
      bits', cur' := FillElement(c, bits', cur');
      if Bare(c) {
        BareNext(c, bits, cur, mid, at, n);
      } else {
        FilledNext(c, bits, cur, mid, at, n, bits', cur');
      }
      n := n + 1;
    }
    FilledAll(t, bits, cur, bits', cur');
  }

  /** The choice between the two at each field and element. */
  method FillElement(t: TypeInfo, bits: string, cur: nat) returns (bits': string, cur': nat)
    requires WellFormed(t) && Clear(bits, cur)
    requires AlignOf(t) > 0 && AlignUp(cur, AlignOf(t)) + SizeOf(t) <= PTR_SIZE * |bits|
    ensures Marks(bits, bits', Refs(Seen(t)), AlignUp(cur, AlignOf(t)))
    ensures cur' == ElementEnd(cur, t) && (Bare(t) ==> bits' == bits)
    decreases t, 3
  {
    if t.VArray? {
      bits', cur' := FillArrayTypeGCInfo(t, bits, cur);
    } else {
      bits', cur' := FillTypeGCInfo(t, bits, cur);
    }
  }

  /** What has happened when the walk over a record has filled n fields. */
  ghost predicate FieldsFilled(t: TypeInfo, blank: string, bits: string, cur: nat, n: nat)
    requires t.Record? && WellFormed(t) && n <= |t.fields|
  {
    cur == WalkEnd(t.fields, n) && Clear(bits, cur) && Marks(blank, bits, FieldRefs(Seen(t), n), 0)
  }

  lemma FieldsFilledNext(t: TypeInfo, blank: string, bits: string, cur: nat, n: nat, bits': string)
    requires t.Record? && WellFormed(t) && n < |t.fields| && !t.fields[n].NoSize? && WellFormed(t.fields[n])
    requires FieldsFilled(t, blank, bits, cur, n)
    requires Marks(bits, bits', Refs(Seen(t.fields[n])), AlignUp(cur, AlignOf(t.fields[n])))
    requires Bare(t.fields[n]) ==> bits' == bits
    ensures FieldsFilled(t, blank, bits', ElementEnd(cur, t.fields[n]), n + 1)
  {
    var f, start := t.fields[n], AlignUp(cur, AlignOf(t.fields[n]));
    SeenAlike(f);
    SeenWithin(f);
    MarksJoin(blank, bits, bits', FieldRefs(Seen(t), n), Refs(Seen(f)), 0, start, start);
    MarksStayInside(bits, bits', Refs(Seen(f)), start, SizeOf(f));
  }

  /** The string GetGCTibStr starts from. */
  ghost predicate Blank(t: TypeInfo, bits: string)
    requires t.Record?
  {
    |bits| == (t.size + PTR_SIZE - 1) / PTR_SIZE && forall w :: 0 <= w < |bits| ==> bits[w] == '0'
  }

  lemma NoneFilled(t: TypeInfo, blank: string)
    requires t.Record? && WellFormed(t) && Blank(t, blank)
    ensures FieldsFilled(t, blank, blank, 0, 0)
  {
  }

  lemma FieldsFilledAll(t: TypeInfo, blank: string, bits: string, cur: nat)
    requires t.Record? && WellFormed(t) && Blank(t, blank) && FieldsFilled(t, blank, bits, cur, |t.fields|)
    ensures Shows(bits, Refs(Seen(t)), SizeOf(t))
  {
    AllFields(Seen(t));
    BlankMarked(blank, bits, Refs(Seen(t)), SizeOf(t));
  }

  lemma BlankMarked(blank: string, bits: string, refs: iset<int>, size: nat)
    requires Marks(blank, bits, refs, 0) && |blank| == (size + PTR_SIZE - 1) / PTR_SIZE
    requires forall w :: 0 <= w < |blank| ==> blank[w] == '0'
    ensures Shows(bits, refs, size)
  {
  }

  /** Its loop's body. */
  method FillField(t: TypeInfo, ghost blank: string, bits: string, cur: nat, n: nat) returns (bits': string, cur': nat)
    requires WellFormed(t) && t.Record? && n < |t.fields| && FieldsFilled(t, blank, bits, cur, n)
    requires |bits| == (t.size + PTR_SIZE - 1) / PTR_SIZE
    ensures FieldsFilled(t, blank, bits', cur', n + 1) && |bits'| == |bits|
    decreases t, 0
  {
    var f := t.fields[n];
    if f.NoSize? {
      bits', cur' := bits, cur;
    } else {
      assert WellFormed(f);
      StartBehind(t, n);
      bits', cur' := FillElement(f, bits, cur);
      FieldsFilledNext(t, blank, bits, cur, n, bits');
    }
  }

  /** TypeGCInfo::GetGCTibStr: it computes offsets anew, and its '1's are exactly the words where the
      layout has references by those offsets. */
  method GetGCTibStr(t: TypeInfo) returns (bits: string)
    requires WellFormed(t) && t.Record?
    ensures Shows(bits, Refs(Seen(t)), SizeOf(t))
    decreases t, 1
  {
    bits := seq((t.size + PTR_SIZE - 1) / PTR_SIZE, _ => '0');
    SeenWithin(t);
    if !t.hasRefField {
      return;
    }
    ghost var blank := bits;
    NoneFilled(t, blank);
    var cur, n := 0, 0;
    while n < |t.fields|
      invariant n <= |t.fields| && FieldsFilled(t, blank, bits, cur, n) && |bits| == |blank|
    {
      bits, cur := FillField(t, blank, bits, cur, n);
      n := n + 1;
    }
    FieldsFilledAll(t, blank, bits, cur);
  }
}
