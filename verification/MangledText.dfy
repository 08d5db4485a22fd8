/** Where the encodings of types stand in a text: the parser's view of the grammar. */
module MangledText {
  import opened MangledTypes

  /** The text has `part` at position i. */
  ghost predicate Starts(s: string, i: nat, part: string) {
    i + |part| <= |s| && s[i..i + |part|] == part
  }

  lemma StartsParts(s: string, i: nat, a: string, b: string)
    requires Starts(s, i, a + b)
    ensures Starts(s, i, a) && Starts(s, i + |a|, b)
  {
    var whole := s[i..i + |a + b|];
    assert s[i..i + |a|] == whole[..|a|] == a;
    assert s[i + |a|..i + |a| + |b|] == whole[|a|..] == b;
  }

  lemma StartsChar(s: string, i: nat, part: string, k: nat)
    requires Starts(s, i, part) && k < |part|
    ensures i + k < |s| && s[i + k] == part[k]
  {
    assert s[i + k] == s[i..i + |part|][k];
  }

  ghost predicate CharAt(s: string, i: nat, c: char) { i < |s| && s[i] == c }

  // ---------------------------------------------------------------- lengths

  ghost function Len(t: Type): nat
    decreases t
  {
    match t
    case Prim(c) => if c == 'D' then 2 else 1
    case CString => 1
    case Tuple(n, es) => 1 + |Number(n)| + LenAll(es) + 1
    case Func(_, ret, args) => 2 + Len(ret) + LenAll(args) + 1
    case RawArray(n, e) => 1 + |Number(n)| + Len(e)
    case Pointer(e) => 1 + Len(e)
    case Param(n) => 1 + |Number(n)|
    case Decl(_, pkg, name, isGeneric, generics) =>
      2 + |EncodePkg(pkg)| + |EncodeName(name)| + (if isGeneric then 1 else 0) + LenAll(generics) + 1
  }

  ghost function LenAll(ts: seq<Type>): nat
    decreases ts
  {
    if ts == [] then 0 else Len(ts[0]) + LenAll(ts[1..])
  }

  // ---------------------------------------------------------------- what stands where

  /** The encoding of t stands at i. */
  ghost predicate Spells(s: string, i: nat, t: Type, tables: Tables)
    decreases t, 1
  {
    match t
    case Prim(c) => CharAt(s, i, c) && Has(tables.primitives, [c]) && (c == 'D' ==> CharAt(s, i + 1, 'h'))
    case CString => CharAt(s, i, 'k')
    case Tuple(n, es) => CharAt(s, i, 'T') && Starts(s, i + 1, Number(n)) &&
      SpellsAll(s, i + 1 + |Number(n)|, es, tables)
    case Func(isC, ret, args) =>
      && CharAt(s, i, 'F') && CharAt(s, i + 1, if isC then 'C' else '0')
      && Spells(s, i + 2, ret, tables) && SpellsAll(s, i + 2 + Len(ret), args, tables)
    case RawArray(n, e) => CharAt(s, i, 'A') && Starts(s, i + 1, Number(n)) && Spells(s, i + 1 + |Number(n)|, e, tables)
    case Pointer(e) => CharAt(s, i, 'P') && Spells(s, i + 1, e, tables)
    case Param(n) => CharAt(s, i, 'G') && Starts(s, i + 1, Number(n))
    case Decl(_, _, _, _, _) => SpellsDecl(s, i, t, tables)
  }

  ghost predicate SpellsDecl(s: string, i: nat, t: Type, tables: Tables)
    requires t.Decl?
    decreases t, 0
  {
    && CharAt(s, i, KindChar(t.kind)) && CharAt(s, i + 1, 'N') && GoodPkg(t.pkg, tables)
    && Starts(s, i + 2, EncodePkg(t.pkg))
    && (var p := i + 2 + |EncodePkg(t.pkg)|;
        var q := p + |EncodeName(t.name)|;
        PlainName(t.name) && Starts(s, p, EncodeName(t.name)) &&
        if t.isGeneric then CharAt(s, q, 'I') && SpellsAll(s, q + 1, t.generics, tables)
        else t.generics == [] && CharAt(s, q, 'E'))
  }

  /** The encodings of ts and an end mark stand at i. */
  ghost predicate SpellsAll(s: string, i: nat, ts: seq<Type>, tables: Tables)
    decreases ts
  {
    if ts == [] then CharAt(s, i, 'E')
    else Spells(s, i, ts[0], tables) && SpellsAll(s, i + Len(ts[0]), ts[1..], tables)
  }

  // ---------------------------------------------------------------- encodings are spelled

  lemma {:induction false} LenIs(t: Type)
    ensures Len(t) == |Encode(t)|
    decreases t
  {
    match t
    case Tuple(_, es) => LenAllIs(es);
    case Func(_, ret, args) => LenIs(ret); LenAllIs(args);
    case RawArray(_, e) => LenIs(e);
    case Pointer(e) => LenIs(e);
    case Decl(_, _, _, _, generics) => LenAllIs(generics);
    case _ =>
  }

  lemma {:induction false} LenAllIs(ts: seq<Type>)
    ensures LenAll(ts) == |EncodeAll(ts)|
    decreases ts
  {
    if ts != [] {
      LenIs(ts[0]);
      LenAllIs(ts[1..]);
    }
  }

  lemma {:induction false} EncodingSpells(s: string, i: nat, t: Type, tables: Tables)
    requires Good(t, tables) && Starts(s, i, Encode(t))
    ensures Spells(s, i, t, tables)
    decreases t, 1
  {
    if t.Tuple? {
      TupleSpells(s, i, t, tables);
    } else if t.Func? {
      FuncSpells(s, i, t, tables);
    } else if t.RawArray? {
      ArraySpells(s, i, t, tables);
    } else if t.Pointer? {
      PointerSpells(s, i, t, tables);
    } else if t.Decl? {
      DeclSpells(s, i, t, tables);
    } else {
      LeafSpells(s, i, t, tables);
    }
  }

  lemma {:induction false} TupleSpells(s: string, i: nat, t: Type, tables: Tables)
    requires t.Tuple? && Good(t, tables) && Starts(s, i, Encode(t))
    ensures Spells(s, i, t, tables)
    decreases t, 0
  {
    var p := i + 1 + |Number(t.arity)|;
    Regroup("T" + Number(t.arity), EncodeAll(t.elems), "E");
    NumberParts(s, i, 'T', t.arity, EncodeAll(t.elems) + "E", Encode(t), p);
    EncodingsSpell(s, p, t.elems, tables);
  }

  lemma {:induction false} FuncSpells(s: string, i: nat, t: Type, tables: Tables)
    requires t.Func? && Good(t, tables) && Starts(s, i, Encode(t))
    ensures Spells(s, i, t, tables)
    decreases t, 0
  {
    var p := i + 2 + Len(t.ret);
    LenIs(t.ret);
    FuncParts(s, i, t, p);
    EncodingSpells(s, i + 2, t.ret, tables);
    EncodingsSpell(s, p, t.args, tables);
  }

  lemma {:induction false} ArraySpells(s: string, i: nat, t: Type, tables: Tables)
    requires t.RawArray? && Good(t, tables) && Starts(s, i, Encode(t))
    ensures Spells(s, i, t, tables)
    decreases t, 0
  {
    var p := i + 1 + |Number(t.dim)|;
    NumberParts(s, i, 'A', t.dim, Encode(t.elem), Encode(t), p);
    EncodingSpells(s, p, t.elem, tables);
  }

  lemma {:induction false} PointerSpells(s: string, i: nat, t: Type, tables: Tables)
    requires t.Pointer? && Good(t, tables) && Starts(s, i, Encode(t))
    ensures Spells(s, i, t, tables)
    decreases t, 0
  {
    StartsChar(s, i, Encode(t), 0);
    StartsParts(s, i, "P", Encode(t.target));
    EncodingSpells(s, i + 1, t.target, tables);
  }

  lemma {:induction false} DeclSpells(s: string, i: nat, t: Type, tables: Tables)
    requires t.Decl? && Good(t, tables) && Starts(s, i, Encode(t))
    ensures Spells(s, i, t, tables)
    decreases t, 0
  {
    var p := i + 2 + |EncodePkg(t.pkg)|;
    var q := p + |EncodeName(t.name)|;
    var r := if t.isGeneric then q + 1 else q;
    DeclParts(s, i, t, p, q, r);
    EncodingsSpell(s, r, t.generics, tables);
    DeclStands(s, i, t, p, q, r, tables);
  }

  lemma DeclStands(s: string, i: nat, t: Type, p: nat, q: nat, r: nat, tables: Tables)
    requires t.Decl? && p == i + 2 + |EncodePkg(t.pkg)| && q == p + |EncodeName(t.name)|
    requires r == (if t.isGeneric then q + 1 else q) && (t.isGeneric || t.generics == [])
    requires CharAt(s, i, KindChar(t.kind)) && CharAt(s, i + 1, 'N') && GoodPkg(t.pkg, tables) && PlainName(t.name)
    requires Starts(s, i + 2, EncodePkg(t.pkg)) && Starts(s, p, EncodeName(t.name)) &&
             (t.isGeneric ==> CharAt(s, q, 'I'))
    requires SpellsAll(s, r, t.generics, tables)
    ensures SpellsDecl(s, i, t, tables)
  {
  }

  lemma LeafSpells(s: string, i: nat, t: Type, tables: Tables)
    requires (t.Prim? || t.CString? || t.Param?) && Good(t, tables) && Starts(s, i, Encode(t))
    ensures Spells(s, i, t, tables)
  {
    StartsChar(s, i, Encode(t), 0);
    if t.Prim? && t.c == 'D' {
      StartsChar(s, i, Encode(t), 1);
    }
    if t.Param? {
      StartsParts(s, i, "G", Number(t.n));
    }
  }

  lemma NumberParts(s: string, i: nat, c: char, n: nat, rest: string, whole: string, p: nat)
    requires whole == [c] + Number(n) + rest && Starts(s, i, whole) && p == i + 1 + |Number(n)|
    ensures CharAt(s, i, c) && Starts(s, i + 1, Number(n)) && Starts(s, p, rest)
  {
    Regroup([c], Number(n), rest);
    StartsParts(s, i, [c], Number(n) + rest);
    StartsChar(s, i, [c], 0);
    StartsParts(s, i + 1, Number(n), rest);
  }

  lemma Regroup(a: string, b: string, c: string)
    ensures a + b + c == a + (b + c)
  {
  }

  lemma FuncParts(s: string, i: nat, t: Type, p: nat)
    requires t.Func? && Starts(s, i, Encode(t)) && p == i + 2 + |Encode(t.ret)|
    ensures CharAt(s, i, 'F') && CharAt(s, i + 1, if t.isC then 'C' else '0')
    ensures Starts(s, i + 2, Encode(t.ret)) && Starts(s, p, EncodeAll(t.args) + "E")
  {
    var prefix, list := if t.isC then "FC" else "F0", EncodeAll(t.args) + "E";
    Regroup(prefix + Encode(t.ret), EncodeAll(t.args), "E");
    Regroup(prefix, Encode(t.ret), list);
    StartsParts(s, i, prefix, Encode(t.ret) + list);
    StartsChar(s, i, prefix, 0);
    StartsChar(s, i, prefix, 1);
    StartsParts(s, i + 2, Encode(t.ret), list);
  }

  lemma DeclParts(s: string, i: nat, t: Type, p: nat, q: nat, r: nat)
    requires t.Decl? && Starts(s, i, Encode(t)) && p == i + 2 + |EncodePkg(t.pkg)| && q == p + |EncodeName(t.name)|
    requires r == if t.isGeneric then q + 1 else q
    ensures CharAt(s, i, KindChar(t.kind)) && CharAt(s, i + 1, 'N')
    ensures Starts(s, i + 2, EncodePkg(t.pkg)) && Starts(s, p, EncodeName(t.name)) &&
            (t.isGeneric ==> CharAt(s, q, 'I'))
    ensures Starts(s, r, EncodeAll(t.generics) + "E")
  {
    var k, pkg, name := [KindChar(t.kind)], EncodePkg(t.pkg), EncodeName(t.name);
    var g, list := if t.isGeneric then "I" else "", EncodeAll(t.generics) + "E";
    JoinSix(k, pkg, name, g, EncodeAll(t.generics));
    FiveParts(s, i, k + "N", pkg, name, g, list, i + 2, p, q, r);
    StartsChar(s, i, k + "N", 0);
    StartsChar(s, i, k + "N", 1);
    if t.isGeneric {
      StartsChar(s, q, g, 0);
    }
  }

  lemma FiveParts(s: string, i: nat, a: string, b: string, c: string, d: string, e: string, pb: nat, pc: nat, pd: nat,
                  pe: nat)
    requires Starts(s, i, a + (b + (c + (d + e)))) && pb == i + |a| && pc == pb + |b| && pd == pc + |c| &&
             pe == pd + |d|
    ensures Starts(s, i, a) && Starts(s, pb, b) && Starts(s, pc, c) && Starts(s, pd, d) && Starts(s, pe, e)
  {
    StartsParts(s, i, a, b + (c + (d + e)));
    StartsParts(s, pb, b, c + (d + e));
    StartsParts(s, pc, c, d + e);
    StartsParts(s, pd, d, e);
  }

  lemma JoinSix(k: string, pkg: string, name: string, g: string, list: string)
    ensures k + "N" + pkg + name + g + list + "E" == k + "N" + (pkg + (name + (g + (list + "E"))))
  {
  }

  lemma {:induction false} EncodingsSpell(s: string, i: nat, ts: seq<Type>, tables: Tables)
    requires AllGood(ts, tables) && Starts(s, i, EncodeAll(ts) + "E")
    ensures SpellsAll(s, i, ts, tables)
    decreases ts
  {
    if ts == [] {
      StartsChar(s, i, EncodeAll(ts) + "E", 0);
    } else {
      var rest, j := ts[1..], i + Len(ts[0]);
      LenIs(ts[0]);
      Regroup(Encode(ts[0]), EncodeAll(rest), "E");
      StartsParts(s, i, Encode(ts[0]), EncodeAll(rest) + "E");
      EncodingSpells(s, i, ts[0], tables);
      EncodingsSpell(s, j, rest, tables);
      ListStands(s, i, ts, j, rest, tables);
    }
  }

  lemma ListStands(s: string, i: nat, ts: seq<Type>, j: nat, rest: seq<Type>, tables: Tables)
    requires ts != [] && Spells(s, i, ts[0], tables) && j == i + Len(ts[0]) && rest == ts[1..] &&
             SpellsAll(s, j, rest, tables)
    ensures SpellsAll(s, i, ts, tables)
  {
  }

  // ---------------------------------------------------------------- first characters

  predicate IsHead(c: char, tables: Tables) {
    Has(tables.primitives, [c]) || c in {'k', 'T', 'F', 'A', 'P', 'G', 'C', 'R', 'N'}
  }

  lemma HeadIsPlain(c: char, tables: Tables)
    requires GoodTables(tables) && IsHead(c, tables)
    ensures !IsDigit(c) && c !in {'E', 'H', 'I', 'K', '_', '$', 'v', 'U', '\0'}
  {
    if Has(tables.primitives, [c]) {
      PrimitiveCode(tables.primitives, c);
    }
  }

  lemma SpellsHead(s: string, i: nat, t: Type, tables: Tables)
    requires GoodTables(tables) && Spells(s, i, t, tables)
    ensures i < |s| && IsHead(s[i], tables) && Len(t) > 0 && (IsLower(s[i]) ==> Len(t) == 1)
  {
    if t.Prim? {
      PrimitiveCode(tables.primitives, t.c);
    }
  }

  /** A pointer's target is recognised as a type from its first characters, unless it is a type parameter. */
  lemma TargetHead(s: string, i: nat, t: Type, tables: Tables)
    requires GoodTables(tables) && Spells(s, i, t, tables)
    ensures i < |s|
    ensures !t.Param? <==>
              || Has(tables.primitives, [s[i]]) || s[i] in {'C', 'R', 'N', 'T', 'P', 'A', 'k'}
              || (s[i] == 'F' && i + 1 < |s| && (s[i + 1] == '0' || s[i + 1] == 'C'))
  {
    if t.Prim? {
      PrimitiveCode(tables.primitives, t.c);
    }
    if t.Param? && Has(tables.primitives, [s[i]]) {
      PrimitiveCode(tables.primitives, s[i]);
    }
  }

  lemma ListHead(s: string, i: nat, ts: seq<Type>, tables: Tables)
    requires GoodTables(tables) && SpellsAll(s, i, ts, tables)
    ensures i < |s| && if ts == [] then s[i] == 'E' else IsHead(s[i], tables)
    ensures ts != [] && IsLower(s[i]) ==> SpellsAll(s, i + 1, ts[1..], tables)
  {
    if ts != [] {
      SpellsHead(s, i, ts[0], tables);
    }
  }

  lemma {:induction false} ListEnd(s: string, i: nat, ts: seq<Type>, tables: Tables)
    requires SpellsAll(s, i, ts, tables)
    ensures CharAt(s, i + LenAll(ts), 'E')
    decreases ts
  {
    if ts != [] {
      ListEnd(s, i + Len(ts[0]), ts[1..], tables);
    }
  }

  lemma ListTail(s: string, i: nat, ts: seq<Type>, j: nat, rest: seq<Type>, tables: Tables)
    requires SpellsAll(s, i, ts, tables) && ts != [] && j == i + Len(ts[0]) && rest == ts[1..]
    ensures SpellsAll(s, j, rest, tables) && i + LenAll(ts) == j + LenAll(rest)
  {
  }

  /** In a list of types there is nothing to take for an operator's name. */
  lemma NoOperator(s: string, i: nat, ts: seq<Type>, tables: Tables)
    requires GoodTables(tables) && SpellsAll(s, i, ts, tables) && ts != []
    ensures i + 2 < |s| && Has(tables.operators, s[i..i + 2]) ==> s[i + 2] !in {'I', 'H', 'K'}
    ensures i < |s| && !IsDigit(s[i]) && s[i] !in {'E', 'H', '_', '$', 'v'}
  {
    ListHead(s, i, ts, tables);
    HeadIsPlain(s[i], tables);
    if i + 2 < |s| && Has(tables.operators, s[i..i + 2]) {
      OperatorCode(tables.operators, s[i..i + 2]);
      assert s[i..i + 2][0] == s[i] && s[i..i + 2][1] == s[i + 1];
      var rest := ts[1..];
      ListHead(s, i + 1, rest, tables);
      if rest != [] {
        ListHead(s, i + 2, rest[1..], tables);
        if rest[1..] != [] {
          HeadIsPlain(s[i + 2], tables);
        }
      }
    }
  }
}
