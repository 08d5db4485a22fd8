/** The demangler reads back what the grammar writes. */
module DemangledTypes {
  import opened MangledTypes
  import opened MangledText
  import opened Demangler

  // The tables are written in parts, each small enough to check at a glance.

  function FloatsAndOthers(): seq<(string, string)> {
    [("u", "Unit"), ("n", "Nothing"), ("b", "Bool"), ("D", "Float16"), ("f", "Float32"), ("d", "Float64"),
     ("c", "Rune")]
  }

  function SignedTypes(): seq<(string, string)> {
    [("a", "Int8"), ("s", "Int16"), ("i", "Int32"), ("l", "Int64"), ("q", "IntNative")]
  }

  function UnsignedTypes(): seq<(string, string)> {
    [("h", "UInt8"), ("t", "UInt16"), ("j", "UInt32"), ("m", "UInt64"), ("r", "UIntNative")]
  }

  function PrimitiveTable(): seq<(string, string)> {
    FloatsAndOthers() + SignedTypes() + UnsignedTypes()
  }

  function ArithmeticOperators(): seq<(string, string)> {
    [("ix", "[]"), ("nt", "!"), ("ng", "-"), ("pw", "**"), ("ml", "*"), ("dv", "/"), ("rm", "%"), ("pl", "+")]
  }

  function ComparisonOperators(): seq<(string, string)> {
    [("lt", "<"), ("gt", ">"), ("le", "<="), ("ge", ">="), ("eq", "=="), ("ne", "!=")]
  }

  function BitOperators(): seq<(string, string)> {
    [("ls", "<<"), ("rs", ">>"), ("an", "&"), ("eo", "^"), ("or", "|"), ("cl", "()")]
  }

  function OperatorTable(): seq<(string, string)> {
    ArithmeticOperators() + ComparisonOperators() + BitOperators()
  }

  lemma {:induction false} JoinPrimitives(a: seq<(string, string)>, b: seq<(string, string)>)
    requires GoodPrimitives(a) && GoodPrimitives(b)
    ensures GoodPrimitives(a + b)
  {
    if a == [] {
      assert a + b == b;
    } else {
      assert (a + b)[1..] == a[1..] + b;
      JoinPrimitives(a[1..], b);
    }
  }

  lemma {:induction false} JoinOperators(a: seq<(string, string)>, b: seq<(string, string)>)
    requires GoodOperators(a) && GoodOperators(b)
    ensures GoodOperators(a + b)
  {
    if a == [] {
      assert a + b == b;
    } else {
      assert (a + b)[1..] == a[1..] + b;
      JoinOperators(a[1..], b);
    }
  }

  predicate PrimitiveEntry(e: (string, string)) {
    |e.0| == 1 && (IsLower(e.0[0]) || e.0[0] == 'D') && e.0[0] !in {'k', 'v'} && PlainText(e.1)
  }

  lemma {:induction false} EntriesMakePrimitives(table: seq<(string, string)>)
    requires forall i :: 0 <= i < |table| ==> PrimitiveEntry(table[i])
    ensures GoodPrimitives(table)
  {
    if table != [] {
      EntriesMakePrimitives(table[1..]);
    }
  }

  lemma {:induction false} EntriesMakeOperators(table: seq<(string, string)>)
    requires forall i :: 0 <= i < |table| ==> |table[i].0| == 2 && IsLower(table[i].0[0]) && IsLower(table[i].0[1])
    ensures GoodOperators(table)
  {
    if table != [] {
      EntriesMakeOperators(table[1..]);
    }
  }

  lemma GoodFloatsAndOthers()
    ensures GoodPrimitives(FloatsAndOthers())
  {
    EntriesMakePrimitives(FloatsAndOthers());
  }

  lemma GoodSignedTypes()
    ensures GoodPrimitives(SignedTypes())
  {
    EntriesMakePrimitives(SignedTypes());
  }

  lemma GoodUnsignedTypes()
    ensures GoodPrimitives(UnsignedTypes())
  {
    EntriesMakePrimitives(UnsignedTypes());
  }

  lemma GoodArithmeticOperators()
    ensures GoodOperators(ArithmeticOperators())
  {
    EntriesMakeOperators(ArithmeticOperators());
  }

  lemma GoodComparisonOperators()
    ensures GoodOperators(ComparisonOperators())
  {
    EntriesMakeOperators(ComparisonOperators());
  }

  lemma GoodBitOperators()
    ensures GoodOperators(BitOperators())
  {
    EntriesMakeOperators(BitOperators());
  }

  lemma PrimitivesAreGood()
    ensures GoodPrimitives(PrimitiveTable())
  {
    GoodFloatsAndOthers();
    GoodSignedTypes();
    GoodUnsignedTypes();
    JoinPrimitives(FloatsAndOthers(), SignedTypes());
    JoinPrimitives(FloatsAndOthers() + SignedTypes(), UnsignedTypes());
  }

  lemma OperatorsAreGood()
    ensures GoodOperators(OperatorTable())
  {
    GoodArithmeticOperators();
    GoodComparisonOperators();
    GoodBitOperators();
    JoinOperators(ArithmeticOperators(), ComparisonOperators());
    JoinOperators(ArithmeticOperators() + ComparisonOperators(), BitOperators());
  }

  /** Any type, encoded and followed by any text: if it is accepted it is read exactly to its end and shown,
      and otherwise rejected with nothing left. */
  method DemangleEncoded(t: Type, suffix: string, scope: string, packages: seq<(string, string)>)
    returns (ok: bool, text: string, rest: string)
    requires GoodPackages(packages) && Good(t, Tables(packages, PrimitiveTable(), OperatorTable()))
    ensures ok <==> Accepted(t, Tables(packages, PrimitiveTable(), OperatorTable()))
    ensures ok ==> text == Render(t, scope, Tables(packages, PrimitiveTable(), OperatorTable())) && rest == suffix
    ensures !ok ==> rest == ""
  {
    var tables := Tables(packages, PrimitiveTable(), OperatorTable());
    PrimitivesAreGood();
    OperatorsAreGood();
    ok, text, rest := DemangleIn(t, suffix, scope, tables);
  }

  /** The same for any tables the parser can rely on. */
  method DemangleIn(t: Type, suffix: string, scope: string, tables: Tables)
    returns (ok: bool, text: string, rest: string)
    requires GoodTables(tables) && Good(t, tables)
    ensures ok <==> Accepted(t, tables)
    ensures ok ==> text == Render(t, scope, tables) && rest == suffix
    ensures !ok ==> rest == ""
  {
    var name := Encode(t) + suffix;
    assert name[0..|Encode(t)|] == Encode(t);
    EncodingSpells(name, 0, t, tables);
    LenIs(t);
    var parser := new Parser(name, scope, tables);
    var di := parser.DemangleNextUnit(t);
    ok, text, rest := parser.valid, FullName(di, scope), name[parser.index..];
  }

  // ---------------------------------------------------------------- what is rejected

  /** A pointer to a type parameter, "PG_" for the first one, is rejected whatever follows it. */
  method PointerToParamIsRejected(n: nat, suffix: string, scope: string, tables: Tables) returns (ok: bool)
    requires GoodTables(tables)
    ensures !ok && Encode(Pointer(Param(n))) == "PG" + Number(n) && Encode(Pointer(Param(0))) == "PG_"
  {
    var accepted, _, _ := DemangleIn(Pointer(Param(n)), suffix, scope, tables);
    ok := accepted;
    assert Encode(Pointer(Param(n))) == "P" + ("G" + Number(n)) == "PG" + Number(n);
    assert Number(0) == "_";
  }

  /** A class named "<>" without type arguments, "CN02<>E", has nothing to show, and is rejected. */
  method NamelessIsRejected(suffix: string, scope: string, tables: Tables) returns (ok: bool)
    requires GoodTables(tables)
    ensures !ok && Encode(Decl(Class, NoPkg, "<>", false, [])) == "CN02<>E"
  {
    assert EncodeName("<>") == "2<>";
    var accepted, _, _ := DemangleIn(Decl(Class, NoPkg, "<>", false, []), suffix, scope, tables);
    ok := accepted;
  }

  // ---------------------------------------------------------------- VArrays

  lemma EncodeNotEmpty(t: Type)
    ensures Encode(t) != ""
  {
  }

  lemma LongerList(a: string, b: string, n: nat)
    requires |a| < |b|
    ensures |VArrayText(a, n)| < |VArrayText(b, n)|
  {
  }

  /** A VArray of e followed by other types up to an end mark: all of them are read and shown as if they were
      its element types.  It is read back, and what follows it left, if and only if there are none. */
  method DemangleVArrayOf(n: nat, e: Type, others: seq<Type>, suffix: string, scope: string, tables: Tables)
    returns (ok: bool, text: string, rest: string)
    requires GoodTables(tables) && AllGood([e] + others, tables)
    ensures ok <==> AllAccepted([e] + others, tables)
    ensures ok ==> text == VArrayText(Join(RenderAll([e] + others, scope, tables), ","), n) && rest == "E" + suffix
    ensures ok ==> (text == VArrayText(Render(e, scope, tables), n) <==> others == [])
    ensures ok ==> (rest == EncodeAll(others) + "E" + suffix <==> others == [])
  {
    var ts, p := [e] + others, 1 + |Number(n)|;
    var name := "V" + Number(n) + (EncodeAll(ts) + "E") + suffix;
    ghost var end := p + |EncodeAll(ts)|;
    VArrayParts(name, n, EncodeAll(ts), suffix, p, end);
    EncodingsSpell(name, p, ts, tables);
    LenAllIs(ts);
    var parser := new Parser(name, scope, tables);
    var di := parser.DemangleVArray(n, p, ts);
    ok, text, rest := parser.valid, FullName(di, scope), name[parser.index..];
    OnlyElement(n, e, others, ts, scope, tables);
  }

  lemma VArrayParts(name: string, n: nat, list: string, suffix: string, p: nat, end: nat)
    requires name == "V" + Number(n) + (list + "E") + suffix && p == 1 + |Number(n)| && end == p + |list|
    ensures name != "" && name[0] == 'V' && Starts(name, 1, Number(n)) && Starts(name, p, list + "E")
    ensures end <= |name| && name[end..] == "E" + suffix
  {
  }

  lemma OnlyElement(n: nat, e: Type, others: seq<Type>, ts: seq<Type>, scope: string, tables: Tables)
    requires ts == [e] + others
    ensures VArrayText(Join(RenderAll(ts, scope, tables), ","), n) == VArrayText(Render(e, scope, tables), n) <==>
            others == []
    ensures EncodeAll(others) == "" <==> others == []
  {
    assert ts[1..] == others;
    var shown, more := Render(e, scope, tables), RenderAll(others, scope, tables);
    assert RenderAll(ts, scope, tables) == [shown] + more;
    if others == [] {
      assert [shown] + more == [shown];
    } else {
      EncodeNotEmpty(others[0]);
      assert ([shown] + more)[1..] == more;
      LongerList(shown, Join([shown] + more, ","), n);
    }
  }

  /** In "F0uV2_liE" a function's two arguments, a VArray of three Int64 and an Int32, are shown as one: the
      parser is at the first argument. */
  method VArraySwallowsNext(scope: string, tables: Tables) returns (text: string, rest: string)
    requires GoodTables(tables) && Has(tables.primitives, "l") && Has(tables.primitives, "i")
    ensures text == "VArray<" + Lookup(tables.primitives, "l") + "," + Lookup(tables.primitives, "i") + ",$3>" &&
            rest == "E"
  {
    var name := "F0uV2_liE";
    var parser := new Parser(name, scope, tables);
    parser.index := 3;
    ghost var ts := [Prim('l'), Prim('i')];
    SwallowedSpelled(name, tables);
    var di := parser.DemangleVArray(3, 6, ts);
    text, rest := FullName(di, scope), name[parser.index..];
    SwallowedShown(scope, tables);
  }

  lemma SwallowedSpelled(name: string, tables: Tables)
    requires name == "F0uV2_liE" && Has(tables.primitives, "l") && Has(tables.primitives, "i")
    ensures Starts(name, 4, Number(3)) && |Number(3)| == 2 && SpellsAll(name, 6, [Prim('l'), Prim('i')], tables)
    ensures LenAll([Prim('l'), Prim('i')]) == 2
  {
    assert Number(3) == "2_" && name[4..6] == "2_";
    var ts := [Prim('l'), Prim('i')];
    assert ts[1..] == [Prim('i')] && ts[1..][1..] == [];
    assert Spells(name, 6, Prim('l'), tables) && Spells(name, 7, Prim('i'), tables);
    ListStands(name, 7, [Prim('i')], 8, [], tables);
    ListStands(name, 6, ts, 7, [Prim('i')], tables);
  }

  lemma SwallowedShown(scope: string, tables: Tables)
    ensures var ts := [Prim('l'), Prim('i')];
            && AllAccepted(ts, tables)
            && Join(RenderAll(ts, scope, tables), ",") ==
               Lookup(tables.primitives, "l") + "," + Lookup(tables.primitives, "i")
  {
    var ts := [Prim('l'), Prim('i')];
    assert ts[1..] == [Prim('i')] && ts[1..][1..] == [];
    var l, i := Lookup(tables.primitives, "l"), Lookup(tables.primitives, "i");
    assert RenderAll(ts[1..], scope, tables) == [i] && RenderAll(ts, scope, tables) == [l, i];
    assert [l, i][1..] == [i];
  }
}
