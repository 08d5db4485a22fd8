/** Sizes, field offsets and the reference bitmap of runtime types.

    A `TypeInfo` carries what the runtime's object stores: alignment, instance size, field offsets
    and the has-reference flag.  Sizes are unbounded here; the runtime keeps them in 32 bits.
 */
module TypeLayout {

  const PTR_SIZE := 8

  datatype TypeInfo =
    | NoSize                                   // Nothing, Unit
    | Scalar(size: nat, align: nat)            // numbers, C pointers and functions, enums without fields
    | Ref                                      // classes, interfaces, raw arrays, closures
    | Record(fields: seq<TypeInfo>, offsets: seq<nat>, size: nat, align: nat, hasRefField: bool)
    | VArray(component: TypeInfo, length: nat)

  predicate IsAlignment(a: nat) { a == 1 || a == 2 || a == 4 || a == 8 }

  /** x is a multiple of a. */
  ghost predicate Aligned(x: nat, a: nat)
    requires a > 0
  {
    x == 0 || (x >= a && Aligned(x - a, a))
  }

  /** MRT_ALIGN: the least multiple of a that is not below x. */
  function AlignUp(x: nat, a: nat): (r: nat)
    requires a > 0
    ensures x <= r < x + a && Aligned(r, a)
  {
    if x == 0 then 0 else if x <= a then a else a + AlignUp(x - a, a)
  }

  lemma {:induction false} AlignedSum(x: nat, y: nat, a: nat)
    requires a > 0 && Aligned(x, a)
    ensures Aligned(x + y, a) <==> Aligned(y, a)
  {
    if x > 0 {
      AlignedSum(x - a, y, a);
    }
  }

  lemma {:induction false} AlignedAlready(x: nat, a: nat)
    requires a > 0 && Aligned(x, a)
    ensures AlignUp(x, a) == x
  {
    if x > a {
      AlignedAlready(x - a, a);
    }
  }

  /** GetAlign, and the reference's own size for references. */
  function AlignOf(t: TypeInfo): nat {
    match t
    case NoSize => 1
    case Scalar(_, a) => a
    case Ref => PTR_SIZE
    case Record(_, _, _, a, _) => a
    case VArray(c, _) => AlignOf(c)
  }

  /** n times `size`. */
  function Repeated(n: nat, size: nat): nat {
    if n == 0 then 0 else Repeated(n - 1, size) + size
  }

  /** The bytes a field of the type takes, by what is stored. */
  function SizeOf(t: TypeInfo): nat {
    match t
    case NoSize => 0
    case Scalar(n, _) => n
    case Ref => PTR_SIZE
    case Record(_, _, n, _, _) => n
    case VArray(c, n) => Repeated(n, SizeOf(c))
  }

  predicate HoldsRef(t: TypeInfo) {
    match t
    case NoSize => false
    case Scalar(_, _) => false
    case Ref => true
    case Record(_, _, _, _, h) => h
    case VArray(c, _) => HoldsRef(c)
  }

  // ---------------------------------------------------------------- the layout rule

  ghost predicate FieldsOk(fields: seq<TypeInfo>) {
    forall i {:trigger AlignOf(fields[i])} :: 0 <= i < |fields| ==> AlignOf(fields[i]) > 0
  }

  /** Where field n starts when the first n fields end at `end`. */
  function Place(end: nat, t: TypeInfo): nat
    requires AlignOf(t) > 0
  {
    if t.NoSize? then end else AlignUp(end, AlignOf(t))
  }

  /** The end of the first n fields. */
  ghost function EndOf(fields: seq<TypeInfo>, n: nat): nat
    requires n <= |fields| && FieldsOk(fields)
  {
    if n == 0 then 0 else Place(EndOf(fields, n - 1), fields[n - 1]) + SizeOf(fields[n - 1])
  }

  ghost function MaxAlign(fields: seq<TypeInfo>, n: nat): (a: nat)
    requires n <= |fields| && FieldsOk(fields)
    ensures a > 0
  {
    if n == 0 then 1
    else
      var a := MaxAlign(fields, n - 1);
      if AlignOf(fields[n - 1]) > a then AlignOf(fields[n - 1]) else a
  }

  /** The stored attributes are those the layout rule gives. */
  ghost predicate LaidOut(t: TypeInfo)
    requires t.Record?
  {
    && FieldsOk(t.fields) && |t.offsets| == |t.fields|
    && t.align == MaxAlign(t.fields, |t.fields|)
    && t.size == AlignUp(EndOf(t.fields, |t.fields|), t.align)
    && (t.hasRefField <==> exists i :: 0 <= i < |t.fields| && HoldsRef(t.fields[i]))
    && (forall i :: 0 <= i < |t.fields| && !t.fields[i].NoSize? ==>
          t.offsets[i] == Place(EndOf(t.fields, i), t.fields[i]))
  }

  ghost predicate WellFormed(t: TypeInfo) {
    match t
    case NoSize => true
    case Ref => true
    case Scalar(n, a) => IsAlignment(a) && Aligned(n, a)
    case Record(fields, _, _, _, _) =>
      && LaidOut(t)
      && forall i {:trigger WellFormed(fields[i])} :: 0 <= i < |fields| ==> WellFormed(fields[i])
    case VArray(c, _) => WellFormed(c)
  }

  lemma {:induction false} WellFormedAlign(t: TypeInfo)
    requires WellFormed(t)
    ensures IsAlignment(AlignOf(t)) && Aligned(SizeOf(t), AlignOf(t))
  {
    match t
    case Record(fields, _, _, _, _) =>
      forall i | 0 <= i < |fields| ensures IsAlignment(AlignOf(fields[i])) {
        assert WellFormed(fields[i]);
        WellFormedAlign(fields[i]);
      }
      MaxAlignBounds(fields, |fields|);
    case VArray(c, n) =>
      WellFormedAlign(c);
      MultipleOfAlign(n, SizeOf(c), AlignOf(c));
    case _ =>
  }

  lemma {:induction false} MultipleOfAlign(n: nat, size: nat, a: nat)
    requires a > 0 && Aligned(size, a)
    ensures Aligned(Repeated(n, size), a)
  {
    if n > 0 {
      MultipleOfAlign(n - 1, size, a);
      AlignedSum(Repeated(n - 1, size), size, a);
    }
  }

  lemma {:induction false} AlignUpGrows(x: nat, y: nat, a: nat)
    requires a > 0 && x <= y
    ensures AlignUp(x, a) <= AlignUp(y, a)
  {
    if x > a {
      AlignUpGrows(x - a, y - a, a);
    }
  }

  /** Fields are aligned, lie in order without overlapping, and end within the instance. */
  lemma FieldsInOrder(t: TypeInfo, i: nat)
    requires t.Record? && LaidOut(t) && i < |t.fields| && !t.fields[i].NoSize?
    ensures Aligned(t.offsets[i], AlignOf(t.fields[i]))
    ensures t.offsets[i] + SizeOf(t.fields[i]) <= t.size
    ensures forall j :: 0 <= j < i && !t.fields[j].NoSize? ==> t.offsets[j] + SizeOf(t.fields[j]) <= t.offsets[i]
    ensures Aligned(t.size, t.align) && AlignOf(t.fields[i]) <= t.align
  {
    EndsGrow(t.fields, i + 1, |t.fields|);
    assert AlignOf(t.fields[i]) <= t.align by {
      MaxAlignBounds(t.fields, |t.fields|);
    }
    forall j | 0 <= j < i && !t.fields[j].NoSize? ensures t.offsets[j] + SizeOf(t.fields[j]) <= t.offsets[i] {
      EndsGrow(t.fields, j + 1, i);
    }
  }

  lemma {:induction false} MaxAlignBounds(fields: seq<TypeInfo>, n: nat)
    requires n <= |fields| && FieldsOk(fields)
    ensures forall i :: 0 <= i < n ==> AlignOf(fields[i]) <= MaxAlign(fields, n)
    ensures MaxAlign(fields, n) == 1 || exists i :: 0 <= i < n && AlignOf(fields[i]) == MaxAlign(fields, n)
  {
    if n > 0 {
      MaxAlignBounds(fields, n - 1);
    }
  }

  lemma {:induction false} EndsGrow(fields: seq<TypeInfo>, i: nat, j: nat)
    requires i <= j <= |fields| && FieldsOk(fields)
    ensures EndOf(fields, i) <= EndOf(fields, j)
  {
    if i < j {
      EndsGrow(fields, i, j - 1);
    }
  }

  // ---------------------------------------------------------------- FillOffsets

  /** TypeInfoManager::FillOffsets: the stored layout of a type with these fields obeys the rule. */
  method FillOffsets(fields: seq<TypeInfo>) returns (t: TypeInfo)
    requires forall i {:trigger WellFormed(fields[i])} :: 0 <= i < |fields| ==> WellFormed(fields[i])
    ensures t.Record? && t.fields == fields && WellFormed(t)
  {
    forall i | 0 <= i < |fields| ensures AlignOf(fields[i]) > 0 {
      assert WellFormed(fields[i]);
      WellFormedAlign(fields[i]);
    }
    var align, offset, hasRefField := 1, 0, false;
    var offsets := seq(|fields|, _ => 0);
    var n := 0;
    while n < |fields|
      invariant n <= |fields| && |offsets| == |fields|
      invariant offset == EndOf(fields, n) && align == MaxAlign(fields, n)
      invariant hasRefField <==> exists i :: 0 <= i < n && HoldsRef(fields[i])
      invariant forall i :: 0 <= i < n && !fields[i].NoSize? ==> offsets[i] == Place(EndOf(fields, i), fields[i])
    {
      var f := fields[n];
      if !f.NoSize? {
        if HoldsRef(f) {
          hasRefField := true;
        }
        offset := AlignUp(offset, AlignOf(f));
        offsets := offsets[n := offset];
        align := if align > AlignOf(f) then align else AlignOf(f);
        var size := GetTypeSize(f);
        offset := offset + size;
      }
      n := n + 1;
    }
    t := Record(fields, offsets, AlignUp(offset, align), align, hasRefField);
  }

  // ---------------------------------------------------------------- GetTypeSize

  /** TypeInfoManager::GetTypeSize recomputes the size from the fields; it finds the size stored. */
  method GetTypeSize(t: TypeInfo) returns (size: nat)
    requires WellFormed(t)
    ensures size == SizeOf(t)
    decreases t, 1
  {
    match t {
      case NoSize => size := 0;
      case Scalar(n, _) => size := n;
      case Ref => size := PTR_SIZE;
      case Record(_, _, _, _, _) => size := RecordSize(t);
      case VArray(_, _) => size := ArraySize(t);
    }
  }

  /** Its case for tuples, structs and enums with fields. */
  method RecordSize(t: TypeInfo) returns (size: nat)
    requires t.Record? && WellFormed(t)
    ensures size == t.size
    decreases t, 0
  {
    var fields := t.fields;
    size := 0;
    var n := 0;
    while n < |fields|
      invariant n <= |fields| && size == EndOf(fields, n)
    {
      var f := fields[n];
      if !f.NoSize? {
        size := AlignUp(size, AlignOf(f));
        var fieldSize := GetTypeSize(f);
        size := size + fieldSize;
      }
      n := n + 1;
    }
    size := AlignUp(size, t.align);
  }

  /** Its case for arrays. */
  method ArraySize(t: TypeInfo) returns (size: nat)
    requires t.VArray? && WellFormed(t)
    ensures size == Repeated(t.length, SizeOf(t.component))
    decreases t, 0
  {
    var c := t.component;
    WellFormedAlign(c);
    var align := AlignOf(c);
    size := 0;
    var n := 0;
    while n < t.length
      invariant n <= t.length && size == Repeated(n, SizeOf(c))
    {
      MultipleOfAlign(n, SizeOf(c), align);
      AlignedAlready(size, align);
      size := AlignUp(size, align);
      var elementSize := GetTypeSize(c);
      size := size + elementSize;
      n := n + 1;
    }
    MultipleOfAlign(n, SizeOf(c), align);
    AlignedAlready(size, align);
    size := AlignUp(size, align);
  }
}
