/** When the offsets that the bitmap's walk computes anew are those that are stored.

    An array without elements is aligned by the layout rule and passed over by the walk, so the fields
    behind it can be taken for up to seven bytes further in front.
 */
module LayoutAgreement {
  import opened TypeLayout
  import opened RefBitmap

  /** Every field that stores references, at every depth, is where the walk takes it to be. */
  predicate Agrees(t: TypeInfo)
    requires WellFormed(t)
    decreases t
  {
    match t
    case Record(fields, offsets, _, _, _) =>
      forall i :: 0 <= i < |fields| && Stores(fields[i]) ==> WalkStart(fields, i) == offsets[i] && Agrees(fields[i])
    case VArray(c, n) => n > 0 ==> Agrees(c)
    case _ => true
  }

  // ---------------------------------------------------------------- the walk never runs ahead

  /** Field i's byte y is the instance's byte x: as stored, and as the walk takes it. */
  ghost predicate StoredAt(t: TypeInfo, i: nat, y: int, x: int)
    requires t.Record? && WellFormed(t)
  {
    i < |t.fields| && !t.fields[i].NoSize? && WellFormed(t.fields[i]) && x == t.offsets[i] + y
  }

  ghost predicate WalkedAt(t: TypeInfo, i: nat, y: int, x: int)
    requires t.Record? && WellFormed(t)
  {
    i < |t.fields| && !t.fields[i].NoSize? && WellFormed(t.fields[i]) && x == WalkStart(t.fields, i) + y
  }

  lemma SeenField(t: TypeInfo, x: int) returns (i: nat, y: int)
    requires t.Record? && WellFormed(t) && RefAt(Seen(t), x)
    ensures WalkedAt(t, i, y, x) && RefAt(Seen(t.fields[i]), y)
  {
    i := SomeField(Seen(t), x);
    y := x - WalkStart(t.fields, i);
    assert WellFormed(t.fields[i]);
    SeenAlike(t.fields[i]);
  }

  lemma RefField(t: TypeInfo, x: int) returns (i: nat, y: int)
    requires t.Record? && WellFormed(t) && RefAt(t, x)
    ensures StoredAt(t, i, y, x) && RefAt(t.fields[i], y)
  {
    i := SomeField(t, x);
    y := x - t.offsets[i];
    assert WellFormed(t.fields[i]);
  }

  lemma FieldRef(t: TypeInfo, i: nat, y: int, x: int)
    requires t.Record? && WellFormed(t) && StoredAt(t, i, y, x) && RefAt(t.fields[i], y)
    ensures RefAt(t, x)
  {
    assert FieldRefAt(t, i, x);
  }

  lemma FieldSeen(t: TypeInfo, i: nat, y: int, x: int)
    requires t.Record? && WellFormed(t) && WalkedAt(t, i, y, x) && RefAt(Seen(t.fields[i]), y)
    ensures RefAt(Seen(t), x)
  {
    SeenAlike(t.fields[i]);
    assert FieldRefAt(Seen(t), i, x);
  }

  /** Element j's byte y is the array's byte x. */
  ghost predicate ElementAt(t: TypeInfo, j: nat, y: int, x: int)
    requires t.VArray?
  {
    j < t.length && x == Repeated(j, SizeOf(t.component)) + y
  }

  lemma SeenElement(t: TypeInfo, x: int) returns (j: nat, y: int)
    requires t.VArray? && WellFormed(t) && RefAt(Seen(t), x)
    ensures ElementAt(t, j, y, x) && RefAt(Seen(t.component), y)
  {
    j := SomeElement(Seen(t), x);
    SeenAlike(t.component);
    y := x - Repeated(j, SizeOf(t.component));
  }

  lemma RefElement(t: TypeInfo, x: int) returns (j: nat, y: int)
    requires t.VArray? && RefAt(t, x)
    ensures ElementAt(t, j, y, x) && RefAt(t.component, y)
  {
    j := SomeElement(t, x);
    y := x - Repeated(j, SizeOf(t.component));
  }

  lemma ElementRef(t: TypeInfo, j: nat, y: int, x: int)
    requires t.VArray? && ElementAt(t, j, y, x) && RefAt(t.component, y)
    ensures RefAt(t, x)
  {
    assert ElementRefAt(t, j, x);
  }

  lemma ElementSeen(t: TypeInfo, j: nat, y: int, x: int)
    requires t.VArray? && WellFormed(t) && ElementAt(t, j, y, x) && RefAt(Seen(t.component), y)
    ensures RefAt(Seen(t), x)
  {
    SeenAlike(t.component);
    assert ElementRefAt(Seen(t), j, x);
  }

  /** For a reference where the walk sees one there is a reference there or further on. */
  lemma {:induction false} NeverAhead(t: TypeInfo, x: int) returns (z: int)
    requires WellFormed(t) && RefAt(Seen(t), x)
    ensures RefAt(t, z) && z >= x
    decreases t, 1
  {
    if t.Record? {
      z := NeverAheadInRecord(t, x);
    } else if t.VArray? {
      var j, y := SeenElement(t, x);
      var y' := NeverAhead(t.component, y);
      z := x + (y' - y);
      ElementRef(t, j, y', z);
    } else {
      z := x;
    }
  }

  lemma {:induction false} NeverAheadInRecord(t: TypeInfo, x: int) returns (z: int)
    requires t.Record? && WellFormed(t) && RefAt(Seen(t), x)
    ensures RefAt(t, z) && z >= x
    decreases t, 0
  {
    var i, y := SeenField(t, x);
    var y' := NeverAhead(t.fields[i], y);
    z := t.offsets[i] + y';
    FieldRef(t, i, y', z);
    StartBehind(t, i);
  }

  lemma SeenMeansStores(t: TypeInfo, x: int)
    requires WellFormed(t) && RefAt(Seen(t), x)
    ensures Stores(t)
  {
    var z := NeverAhead(t, x);
    RefMeansStores(t, z);
  }

  // ---------------------------------------------------------------- agreement is enough

  lemma AgreesAt(t: TypeInfo, i: nat)
    requires t.Record? && WellFormed(t) && Agrees(t) && i < |t.fields| && Stores(t.fields[i]) && WellFormed(t.fields[i])
    ensures WalkStart(t.fields, i) == t.offsets[i] && Agrees(t.fields[i])
  {
  }

  lemma {:induction false} SeenIsRef(t: TypeInfo, x: int)
    requires WellFormed(t) && Agrees(t) && RefAt(Seen(t), x)
    ensures RefAt(t, x)
    decreases t
  {
    if t.Record? {
      var i, y := SeenField(t, x);
      SeenMeansStores(t.fields[i], y);
      AgreesAt(t, i);
      SeenIsRef(t.fields[i], y);
      FieldRef(t, i, y, x);
    } else if t.VArray? {
      var j, y := SeenElement(t, x);
      SeenIsRef(t.component, y);
      ElementRef(t, j, y, x);
    }
  }

  lemma {:induction false} RefIsSeen(t: TypeInfo, x: int)
    requires WellFormed(t) && Agrees(t) && RefAt(t, x)
    ensures RefAt(Seen(t), x)
    decreases t
  {
    if t.Record? {
      var i, y := RefField(t, x);
      RefMeansStores(t.fields[i], y);
      AgreesAt(t, i);
      RefIsSeen(t.fields[i], y);
      FieldSeen(t, i, y, x);
    } else if t.VArray? {
      var j, y := RefElement(t, x);
      RefIsSeen(t.component, y);
      ElementSeen(t, j, y, x);
    }
  }

  // ---------------------------------------------------------------- and needed

  lemma {:induction false} WalkGrows(fields: seq<TypeInfo>, i: nat, j: nat)
    requires i <= j <= |fields| && FieldsOk(fields)
    ensures WalkEnd(fields, i) <= WalkEnd(fields, j)
  {
    if i < j {
      WalkGrows(fields, i, j - 1);
    }
  }

  lemma WalkInOrder(fields: seq<TypeInfo>, k: nat, i: nat)
    requires k < i < |fields| && FieldsOk(fields) && !fields[k].NoSize? && !Bare(fields[k])
    ensures WalkStart(fields, k) + SizeOf(fields[k]) <= WalkStart(fields, i)
  {
    WalkGrows(fields, k + 1, i);
  }

  /** From field i on, fields with references are where the walk takes them to be. */
  ghost predicate AgreesFrom(t: TypeInfo, i: nat)
    requires t.Record? && WellFormed(t)
  {
    forall k :: i <= k < |t.fields| && Stores(t.fields[k]) ==> WalkStart(t.fields, k) == t.offsets[k]
  }

  lemma Inside(t: TypeInfo, x: int)
    requires WellFormed(t)
    ensures RefAt(t, x) || RefAt(Seen(t), x) ==> 0 <= x < SizeOf(t)
  {
    WellFormedIsPlaced(t);
    RefsWithin(t);
    SeenWithin(t);
    assert RefAt(t, x) ==> x in Refs(t);
    assert RefAt(Seen(t), x) ==> x in Refs(Seen(t));
  }

  lemma SeenBehind(t: TypeInfo, i: nat, k: nat, y: int, x: int)
    requires t.Record? && WellFormed(t) && i < k && AgreesFrom(t, i + 1)
    requires WalkedAt(t, k, y, x) && RefAt(Seen(t.fields[k]), y) && !t.fields[i].NoSize?
    ensures x >= t.offsets[i] + SizeOf(t.fields[i])
  {
    SeenMeansStores(t.fields[k], y);
    Inside(t.fields[k], y);
    FieldsInOrder(t, k);
  }

  lemma SeenBefore(t: TypeInfo, k: nat, i: nat, y: int, x: int)
    requires t.Record? && WellFormed(t) && k < i < |t.fields| && !t.fields[i].NoSize?
    requires WalkedAt(t, k, y, x) && RefAt(Seen(t.fields[k]), y)
    ensures x < t.offsets[i]
  {
    Inside(t.fields[k], y);
    NotBare(t.fields[k], y);
    WalkInOrder(t.fields, k, i);
    StartBehind(t, i);
  }

  lemma NotBare(t: TypeInfo, x: int)
    requires WellFormed(t) && RefAt(Seen(t), x)
    ensures !Bare(t)
  {
    assert x in Refs(Seen(t));
    if Bare(t) {
      BareIsNothing(t);
    }
  }

  lemma SeenElsewhere(t: TypeInfo, i: nat, k: nat, y: int, x: int)
    requires t.Record? && WellFormed(t) && i < |t.fields| && i != k && AgreesFrom(t, i + 1)
    requires WalkedAt(t, k, y, x) && RefAt(Seen(t.fields[k]), y) && !t.fields[i].NoSize?
    ensures !(t.offsets[i] <= x < t.offsets[i] + SizeOf(t.fields[i]))
  {
    if k > i {
      SeenBehind(t, i, k, y, x);
    } else {
      SeenBefore(t, k, i, y, x);
    }
  }

  /** If later fields agree, what the walk sees in the place of field i belongs to field i. */
  lemma SeenBelongs(t: TypeInfo, i: nat, y: int, x: int)
    requires t.Record? && WellFormed(t) && AgreesFrom(t, i + 1) && WalkedAt(t, i, y, x)
    requires RefAt(Seen(t), x) && t.offsets[i] <= x < t.offsets[i] + SizeOf(t.fields[i])
    ensures RefAt(Seen(t.fields[i]), y)
  {
    var k, y' := SeenField(t, x);
    if k != i {
      SeenElsewhere(t, i, k, y', x);
    }
  }

  lemma OutsideOthers(t: TypeInfo, i: nat, k: nat, y: int, x: int)
    requires t.Record? && WellFormed(t) && i < |t.fields| && i != k && !t.fields[i].NoSize?
    requires StoredAt(t, k, y, x) && RefAt(t.fields[k], y)
    ensures !(t.offsets[i] <= x < t.offsets[i] + SizeOf(t.fields[i]))
  {
    Inside(t.fields[k], y);
    FieldsInOrder(t, if k > i then k else i);
  }

  lemma Belongs(t: TypeInfo, i: nat, y: int, x: int)
    requires t.Record? && WellFormed(t) && StoredAt(t, i, y, x)
    requires RefAt(t, x) && 0 <= y < SizeOf(t.fields[i])
    ensures RefAt(t.fields[i], y)
  {
    var k, y' := RefField(t, x);
    if k != i {
      OutsideOthers(t, i, k, y', x);
    }
  }

  lemma {:induction false} Last(refs: iset<int>, some: int, bound: nat) returns (m: int)
    requires some in refs && forall x :: x in refs ==> 0 <= x < bound
    ensures m in refs && forall x :: x in refs ==> x <= m
  {
    if bound - 1 in refs {
      m := bound - 1;
    } else {
      m := Last(refs, some, bound - 1);
    }
  }

  lemma LastRef(t: TypeInfo) returns (m: int)
    requires WellFormed(t) && Stores(t)
    ensures m in Refs(t) && forall x :: x in Refs(t) ==> x <= m
  {
    var x := StoresMeansRef(t);
    assert x in Refs(t);
    WellFormedIsPlaced(t);
    RefsWithin(t);
    m := Last(Refs(t), x, SizeOf(t));
  }

  lemma RefSeenInField(t: TypeInfo, i: nat, y: int, x: int, y': int)
    requires t.Record? && WellFormed(t) && AgreesFrom(t, i + 1) && StoredAt(t, i, y, x) && WalkedAt(t, i, y', x)
    requires Refs(Seen(t)) == Refs(t) && RefAt(t.fields[i], y)
    ensures RefAt(Seen(t.fields[i]), y')
  {
    Inside(t.fields[i], y);
    FieldRef(t, i, y, x);
    assert x in Refs(t);
    SeenBelongs(t, i, y', x);
  }

  lemma SamePlace(t: TypeInfo, i: nat)
    requires t.Record? && WellFormed(t) && i < |t.fields| && Stores(t.fields[i]) && AgreesFrom(t, i + 1)
    requires Refs(Seen(t)) == Refs(t) && WellFormed(t.fields[i])
    ensures WalkStart(t.fields, i) == t.offsets[i]
  {
    var f := t.fields[i];
    var m := LastRef(f);
    var x := t.offsets[i] + m;
    var y := x - WalkStart(t.fields, i);
    RefSeenInField(t, i, m, x, y);
    var z := NeverAhead(f, y);
    assert z in Refs(f);
    StartBehind(t, i);
  }

  lemma SeenIsRefOfField(t: TypeInfo, i: nat, y: int, x: int)
    requires t.Record? && WellFormed(t) && StoredAt(t, i, y, x) && WalkedAt(t, i, y, x)
    requires Refs(Seen(t)) == Refs(t) && RefAt(Seen(t.fields[i]), y)
    ensures RefAt(t.fields[i], y)
  {
    Inside(t.fields[i], y);
    FieldSeen(t, i, y, x);
    assert x in Refs(Seen(t));
    Belongs(t, i, y, x);
  }

  lemma SameField(t: TypeInfo, i: nat)
    requires t.Record? && WellFormed(t) && i < |t.fields| && Stores(t.fields[i]) && AgreesFrom(t, i)
    requires Refs(Seen(t)) == Refs(t)
    ensures WellFormed(t.fields[i]) && Refs(Seen(t.fields[i])) == Refs(t.fields[i])
  {
    var f := t.fields[i];
    assert WellFormed(f);
    forall y: int ensures RefAt(Seen(f), y) <==> RefAt(f, y) {
      if RefAt(f, y) {
        RefSeenInField(t, i, y, t.offsets[i] + y, y);
      }
      if RefAt(Seen(f), y) {
        SeenIsRefOfField(t, i, y, t.offsets[i] + y);
      }
    }
  }

  lemma {:induction false} SameFrom(t: TypeInfo, i: nat)
    requires t.Record? && WellFormed(t) && i <= |t.fields| && Refs(Seen(t)) == Refs(t)
    ensures AgreesFrom(t, i)
    decreases |t.fields| - i
  {
    if i < |t.fields| {
      SameFrom(t, i + 1);
      if Stores(t.fields[i]) {
        assert WellFormed(t.fields[i]);
        SamePlace(t, i);
      }
    }
  }

  lemma SameElement(t: TypeInfo)
    requires t.VArray? && WellFormed(t) && t.length > 0 && Refs(Seen(t)) == Refs(t)
    ensures Refs(Seen(t.component)) == Refs(t.component)
  {
    var c := t.component;
    forall x: int ensures RefAt(Seen(c), x) <==> RefAt(c, x) {
      Inside(c, x);
      if RefAt(c, x) {
        ElementRef(t, 0, x, x);
        assert x in Refs(t);
        var j, y := SeenElement(t, x);
        FirstElement(t, j, y, x);
      }
      if RefAt(Seen(c), x) {
        ElementSeen(t, 0, x, x);
        assert x in Refs(Seen(t));
        var j, y := RefElement(t, x);
        FirstElement(t, j, y, x);
      }
    }
  }

  lemma FirstElement(t: TypeInfo, j: nat, y: int, x: int)
    requires t.VArray? && WellFormed(t) && ElementAt(t, j, y, x) && x < SizeOf(t.component)
    requires RefAt(t.component, y) || RefAt(Seen(t.component), y)
    ensures y == x
  {
    Inside(t.component, y);
    LaterElement(j, SizeOf(t.component));
  }

  lemma LaterElement(j: nat, size: nat)
    ensures j > 0 ==> Repeated(j, size) >= size
  {
    if j > 0 {
      RepeatedGrows(1, j, size);
    }
  }

  lemma {:induction false} SameRefsAgree(t: TypeInfo)
    requires WellFormed(t) && Refs(Seen(t)) == Refs(t)
    ensures Agrees(t)
    decreases t
  {
    match t
    case Record(fields, offsets, _, _, _) =>
      SameFrom(t, 0);
      forall i | 0 <= i < |fields| && Stores(fields[i])
        ensures WellFormed(fields[i]) && WalkStart(fields, i) == offsets[i] && Agrees(fields[i])
      {
        SameField(t, i);
        SameRefsAgree(fields[i]);
      }
    case VArray(c, n) =>
      if n > 0 {
        SameElement(t);
        SameRefsAgree(c);
      }
    case _ =>
  }

  /** The walk sees the references of the stored layout exactly when every field that stores
      references is where the walk takes it to be. */
  lemma BitmapRightIffAgrees(t: TypeInfo)
    requires WellFormed(t)
    ensures Refs(Seen(t)) == Refs(t) <==> Agrees(t)
  {
    if Agrees(t) {
      forall x: int ensures x in Refs(Seen(t)) <==> x in Refs(t) {
        if RefAt(Seen(t), x) {
          SeenIsRef(t, x);
        }
        if RefAt(t, x) {
          RefIsSeen(t, x);
        }
      }
    }
    if Refs(Seen(t)) == Refs(t) {
      SameRefsAgree(t);
    }
  }

  // ---------------------------------------------------------------- with and without empty arrays

  lemma {:induction false} FilledIsNotBare(t: TypeInfo)
    requires !HasEmptyArray(t)
    ensures !Bare(t)
  {
    if t.VArray? {
      FilledIsNotBare(t.component);
    }
  }

  lemma {:induction false} WalkKeepsUp(fields: seq<TypeInfo>, n: nat)
    requires n <= |fields| && FieldsOk(fields) && forall i :: 0 <= i < |fields| ==> !HasEmptyArray(fields[i])
    ensures WalkEnd(fields, n) == EndOf(fields, n)
  {
    if n > 0 {
      WalkKeepsUp(fields, n - 1);
      FilledIsNotBare(fields[n - 1]);
    }
  }

  /** Types whose arrays all have elements agree. */
  lemma {:induction false} FilledArraysAgree(t: TypeInfo)
    requires WellFormed(t) && !HasEmptyArray(t)
    ensures Agrees(t)
    decreases t
  {
    match t
    case Record(fields, offsets, _, _, _) =>
      forall i | 0 <= i < |fields| && Stores(fields[i])
        ensures WellFormed(fields[i]) && WalkStart(fields, i) == offsets[i] && Agrees(fields[i])
      {
        assert WellFormed(fields[i]);
        WalkKeepsUp(fields, i);
        FilledArraysAgree(fields[i]);
      }
    case VArray(c, _) => FilledArraysAgree(c);
    case _ =>
  }

  /** A byte, an empty array of eight-byte numbers, a byte and a reference. */
  function GappedFields(): seq<TypeInfo> {
    [Scalar(1, 1), VArray(Scalar(8, 8), 0), Scalar(1, 1), Ref]
  }

  function Gapped(): TypeInfo {
    Record(GappedFields(), [0, 8, 8, 16], 24, 8, true)
  }

  lemma GappedEnds()
    ensures var f := GappedFields();
            FieldsOk(f) && EndOf(f, 1) == 1 && EndOf(f, 2) == 8 && EndOf(f, 3) == 9 && EndOf(f, 4) == 24 &&
            MaxAlign(f, 4) == 8
    ensures var f := GappedFields();
            WalkEnd(f, 1) == 1 && WalkEnd(f, 2) == 1 && WalkEnd(f, 3) == 2 && WalkStart(f, 3) == 8
  {
    var f := GappedFields();
    assert EndOf(f, 1) == 1 && WalkEnd(f, 1) == 1 && MaxAlign(f, 1) == 1;
    assert EndOf(f, 2) == 8 && WalkEnd(f, 2) == 1 && MaxAlign(f, 2) == 8;
    assert EndOf(f, 3) == 9 && WalkEnd(f, 3) == 2 && MaxAlign(f, 3) == 8;
  }

  lemma GappedIsWellFormed()
    ensures WellFormed(Gapped())
  {
    GappedEnds();
    var t, f := Gapped(), GappedFields();
    assert HoldsRef(f[3]);
    assert forall i {:trigger WellFormed(f[i])} :: 0 <= i < |f| ==> WellFormed(f[i]);
    assert t.size == AlignUp(EndOf(f, 4), 8);
    assert LaidOut(t);
  }

  /** The reference is at byte 16, and the walk takes it to be at byte 8. */
  lemma EmptyArrayMisplaces()
    ensures var t := Gapped(); WellFormed(t) && RefAt(t, 16) && RefAt(Seen(t), 8) && !Agrees(t)
  {
    GappedIsWellFormed();
    GappedEnds();
    var t := Gapped();
    assert FieldRefAt(t, 3, 16);
    assert Seen(Ref) == Ref && FieldRefAt(Seen(t), 3, 8);
    assert Stores(t.fields[3]) && WalkStart(t.fields, 3) != t.offsets[3];
  }
}
