/** Mangled names of types: the grammar, and the text each type is shown as. */
module MangledTypes {

  datatype Pkg = NoPkg | Named(name: string) | Standard(code: string)

  datatype Kind = Class | Struct | Enum

  datatype Type =
    | Prim(c: char)
    | CString
    | Tuple(arity: nat, elems: seq<Type>)
    | Func(isC: bool, ret: Type, args: seq<Type>)
    | RawArray(dim: nat, elem: Type)
    | Pointer(target: Type)
    | Param(n: nat)
    | Decl(kind: Kind, pkg: Pkg, name: string, isGeneric: bool, generics: seq<Type>)

  // ---------------------------------------------------------------- characters and numbers

  predicate IsDigit(c: char) { '0' <= c <= '9' }

  predicate IsLower(c: char) { 'a' <= c <= 'z' }

  /** The code-to-name tables: standard packages, primitive types, operators. */
  datatype Tables = Tables(packages: seq<(string, string)>, primitives: seq<(string, string)>,
                           operators: seq<(string, string)>)

  function Lookup(table: seq<(string, string)>, code: string): string {
    if table == [] then "" else if table[0].0 == code then table[0].1 else Lookup(table[1..], code)
  }

  predicate Has(table: seq<(string, string)>, code: string) { Lookup(table, code) != "" }

  predicate PlainText(s: string) { s != "" && s[0] != '<' }

  ghost predicate GoodPackages(table: seq<(string, string)>) {
    table != [] ==> |table[0].0| == 2 && !IsDigit(table[0].0[0]) && table[0].1 != "" && GoodPackages(table[1..])
  }

  ghost predicate GoodPrimitives(table: seq<(string, string)>) {
    table != [] ==>
      && |table[0].0| == 1 && (IsLower(table[0].0[0]) || table[0].0[0] == 'D') && table[0].0[0] !in {'k', 'v'}
      && PlainText(table[0].1) && GoodPrimitives(table[1..])
  }

  ghost predicate GoodOperators(table: seq<(string, string)>) {
    table != [] ==> |table[0].0| == 2 && IsLower(table[0].0[0]) && IsLower(table[0].0[1]) && GoodOperators(table[1..])
  }

  /** What the parser relies on: which characters the codes are made of. */
  ghost predicate GoodTables(tables: Tables) {
    GoodPackages(tables.packages) && GoodPrimitives(tables.primitives) && GoodOperators(tables.operators)
  }

  lemma {:induction false} PackageCode(table: seq<(string, string)>, code: string)
    requires GoodPackages(table) && Has(table, code)
    ensures |code| == 2 && !IsDigit(code[0])
  {
    if table[0].0 != code {
      PackageCode(table[1..], code);
    }
  }

  lemma {:induction false} PrimitiveCode(table: seq<(string, string)>, c: char)
    requires GoodPrimitives(table) && Has(table, [c])
    ensures (IsLower(c) || c == 'D') && c !in {'k', 'v'} && PlainText(Lookup(table, [c]))
  {
    if table[0].0 != [c] {
      PrimitiveCode(table[1..], c);
    }
  }

  lemma {:induction false} OperatorCode(table: seq<(string, string)>, code: string)
    requires GoodOperators(table) && Has(table, code)
    ensures |code| == 2 && IsLower(code[0]) && IsLower(code[1])
  {
    if table[0].0 != code {
      OperatorCode(table[1..], code);
    }
  }

  function DigitChar(d: nat): (c: char)
    requires d < 10
    ensures IsDigit(c) && (c == '0' <==> d == 0)
  {
    ('0' as int + d) as char
  }

  function Decimal(n: nat): (s: string)
    ensures s != [] && forall i :: 0 <= i < |s| ==> IsDigit(s[i])
    ensures n > 0 ==> s[0] != '0'
  {
    if n < 10 then [DigitChar(n)] else Decimal(n / 10) + [DigitChar(n % 10)]
  }

  /** atoi, on digits. */
  function Atoi(s: string): nat {
    if s == [] then 0
    else 10 * Atoi(s[..|s| - 1]) + if IsDigit(s[|s| - 1]) then s[|s| - 1] as int - '0' as int else 0
  }

  lemma {:induction false} AtoiDecimal(n: nat)
    ensures Atoi(Decimal(n)) == n
  {
    if n >= 10 {
      var s := Decimal(n / 10);
      AtoiDecimal(n / 10);
      assert (s + [DigitChar(n % 10)])[..|s|] == s;
    }
  }

  /** The place of a character in the base-62 alphabet; 63 if it has none.  The search runs one past the
      alphabet, to the terminating zero. */
  function DigitOf(c: char): nat {
    if '0' <= c <= '9' then c as int - '0' as int
    else if 'A' <= c <= 'Z' then c as int - 'A' as int + 10
    else if 'a' <= c <= 'z' then c as int - 'a' as int + 36
    else if c == '\0' then 62
    else 63
  }

  function Base62Char(d: nat): (c: char)
    requires d < 62
    ensures DigitOf(c) == d && c != '_'
  {
    if d < 10 then ('0' as int + d) as char
    else if d < 36 then ('A' as int + (d - 10)) as char
    else ('a' as int + (d - 36)) as char
  }

  function Base62(n: nat): (s: string)
    ensures s != [] && forall i :: 0 <= i < |s| ==> s[i] != '_' && DigitOf(s[i]) < 62
  {
    if n < 62 then [Base62Char(n)] else Base62(n / 62) + [Base62Char(n % 62)]
  }

  function ValueOf(s: string): nat {
    if s == [] then 0 else 62 * ValueOf(s[..|s| - 1]) + DigitOf(s[|s| - 1])
  }

  lemma {:induction false} ValueOfBase62(n: nat)
    ensures ValueOf(Base62(n)) == n
  {
    if n >= 62 {
      var s := Base62(n / 62);
      ValueOfBase62(n / 62);
      assert (s + [Base62Char(n % 62)])[..|s|] == s;
    }
  }

  /** A mangling number: nothing for 0, the predecessor in base 62 otherwise, and an underscore. */
  function NumberDigits(n: nat): string {
    if n == 0 then "" else Base62(n - 1)
  }

  function Number(n: nat): string {
    NumberDigits(n) + "_"
  }

  // ---------------------------------------------------------------- encoding

  /** The parser can tell where its length ends. */
  predicate PlainName(s: string) {
    s != "" && !IsDigit(s[0])
  }

  ghost predicate GoodPkg(p: Pkg, tables: Tables) {
    match p
    case NoPkg => true
    case Named(s) => PlainName(s)
    case Standard(code) => Has(tables.packages, code)
  }

  ghost predicate Good(t: Type, tables: Tables)
    decreases t
  {
    match t
    case Prim(c) => Has(tables.primitives, [c])
    case CString => true
    case Tuple(_, es) => AllGood(es, tables)
    case Func(_, ret, args) => Good(ret, tables) && AllGood(args, tables)
    case RawArray(_, e) => Good(e, tables)
    case Pointer(e) => Good(e, tables)
    case Param(_) => true
    case Decl(_, pkg, name, isGeneric, generics) =>
      && GoodPkg(pkg, tables) && PlainName(name)
      && AllGood(generics, tables) && (!isGeneric ==> generics == [])
  }

  ghost predicate AllGood(ts: seq<Type>, tables: Tables)
    decreases ts
  {
    ts != [] ==> Good(ts[0], tables) && AllGood(ts[1..], tables)
  }

  function KindChar(k: Kind): char {
    match k case Class => 'C' case Struct => 'R' case Enum => 'N'
  }

  function EncodeName(s: string): string { Decimal(|s|) + s }

  function EncodePkg(p: Pkg): string {
    match p
    case NoPkg => "0"
    case Named(s) => EncodeName(s)
    case Standard(code) => code
  }

  function Encode(t: Type): string
    decreases t
  {
    match t
    case Prim(c) => if c == 'D' then "Dh" else [c]
    case CString => "k"
    case Tuple(n, es) => "T" + Number(n) + EncodeAll(es) + "E"
    case Func(isC, ret, args) => (if isC then "FC" else "F0") + Encode(ret) + EncodeAll(args) + "E"
    case RawArray(n, e) => "A" + Number(n) + Encode(e)
    case Pointer(e) => "P" + Encode(e)
    case Param(n) => "G" + Number(n)
    case Decl(kind, pkg, name, isGeneric, generics) =>
      [KindChar(kind)] + "N" + EncodePkg(pkg) + EncodeName(name) + (if isGeneric then "I" else "") +
        EncodeAll(generics) + "E"
  }

  function EncodeAll(ts: seq<Type>): string
    decreases ts
  {
    if ts == [] then "" else Encode(ts[0]) + EncodeAll(ts[1..])
  }

  // ---------------------------------------------------------------- rendering

  function Join(ts: seq<string>, delimiter: string): string {
    if ts == [] then "" else if |ts| == 1 then ts[0] else ts[0] + delimiter + Join(ts[1..], delimiter)
  }

  /** Type arguments in angle brackets, if there is anything to show. */
  function Angle(s: string): string { if s == "" then "" else "<" + s + ">" }

  /** A name given in angle brackets is shown without them. */
  function Identifier(s: string): string {
    if |s| >= 2 && s[0] == '<' && s[|s| - 1] == '>' then s[1..|s| - 1] else s
  }

  /** Module separators; one at the very end is left as it is. */
  function ShowPkg(s: string): string {
    seq(|s|, i requires 0 <= i < |s| => if s[i] == '$' && i + 1 < |s| then '/' else s[i])
  }

  function PkgText(p: Pkg, tables: Tables): string {
    match p
    case NoPkg => ""
    case Named(s) => ShowPkg(s)
    case Standard(code) => ShowPkg(Lookup(tables.packages, code))
  }

  function Qualified(pkg: string, scope: string, id: string): string {
    if pkg != "" && id != "" then pkg + scope + id else pkg + id
  }

  /** A VArray of n elements, with the texts read for its element type. */
  function VArrayText(list: string, n: nat): string {
    "VArray" + if list == "" then "" else "<" + list + (if n == 0 then "" else ",$" + Decimal(n)) + ">"
  }

  function Brackets(n: nat): string { if n == 0 then "" else "[]" + Brackets(n - 1) }

  function Render(t: Type, scope: string, tables: Tables): string
    decreases t
  {
    match t
    case Prim(c) => Lookup(tables.primitives, [c])
    case CString => "CString"
    case Tuple(_, es) => "Tuple" + Angle(Join(RenderAll(es, scope, tables), ","))
    case Func(_, ret, args) => "(" + Join(RenderAll(args, scope, tables), ", ") + ")" + " -> " +
      Render(ret, scope, tables)
    case RawArray(n, e) => "RawArray" + Angle(Render(e, scope, tables)) + Brackets(n)
    case Pointer(e) => "CPointer" + Angle(Render(e, scope, tables))
    case Param(n) => "T" + Decimal(n)
    case Decl(_, pkg, name, _, generics) =>
      Qualified(PkgText(pkg, tables), scope,
                Identifier(Identifier(name) + Angle(Join(RenderAll(generics, scope, tables), ","))))
  }

  function RenderAll(ts: seq<Type>, scope: string, tables: Tables): seq<string>
    decreases ts
  {
    if ts == [] then [] else [Render(ts[0], scope, tables)] + RenderAll(ts[1..], scope, tables)
  }

  /** There is something to show of a declaration's name and type arguments; the parser rejects it otherwise. */
  predicate Shown(name: string, generics: seq<Type>, tables: Tables) {
    Identifier(name) + Angle(Join(RenderAll(generics, "", tables), ",")) != ""
  }

  /** The parser accepts the type's encoding: nowhere in it is a pointer to a type parameter, which the parser
      does not take for a type, or a declaration of which there is nothing to show. */
  predicate Accepted(t: Type, tables: Tables)
    decreases t
  {
    match t
    case Prim(_) => true
    case CString => true
    case Tuple(_, es) => AllAccepted(es, tables)
    case Func(_, ret, args) => Accepted(ret, tables) && AllAccepted(args, tables)
    case RawArray(_, e) => Accepted(e, tables)
    case Pointer(e) => !e.Param? && Accepted(e, tables)
    case Param(_) => true
    case Decl(_, _, name, _, generics) => AllAccepted(generics, tables) && Shown(name, generics, tables)
  }

  predicate AllAccepted(ts: seq<Type>, tables: Tables)
    decreases ts
  {
    ts == [] || (Accepted(ts[0], tables) && AllAccepted(ts[1..], tables))
  }

  lemma IdentifierEmpty(id: string, s: string)
    ensures Identifier(id + Angle(s)) == "" <==> s == "" && (id == "" || id == "<>")
  {
  }

  /** Whether a type is shown as nothing does not depend on the scope operator. */
  lemma {:induction false} EmptyAnyScope(t: Type, a: string, b: string, tables: Tables)
    ensures Render(t, a, tables) == "" <==> Render(t, b, tables) == ""
    decreases t
  {
    if t.Decl? {
      AllEmptyAnyScope(t.generics, a, b, tables);
      IdentifierEmpty(Identifier(t.name), Join(RenderAll(t.generics, a, tables), ","));
      IdentifierEmpty(Identifier(t.name), Join(RenderAll(t.generics, b, tables), ","));
    }
  }

  lemma {:induction false} AllEmptyAnyScope(ts: seq<Type>, a: string, b: string, tables: Tables)
    ensures Join(RenderAll(ts, a, tables), ",") == "" <==> Join(RenderAll(ts, b, tables), ",") == ""
    decreases ts
  {
    if ts != [] {
      EmptyAnyScope(ts[0], a, b, tables);
    }
  }

  lemma ShownAnyScope(name: string, generics: seq<Type>, scope: string, tables: Tables)
    ensures Shown(name, generics, tables) <==>
            Identifier(name) + Angle(Join(RenderAll(generics, scope, tables), ",")) != ""
  {
    AllEmptyAnyScope(generics, "", scope, tables);
  }

  // ---------------------------------------------------------------- joining

  lemma {:induction false} JoinAppend(ts: seq<string>, x: string, delimiter: string)
    ensures Join(ts + [x], delimiter) == if ts == [] then x else Join(ts, delimiter) + delimiter + x
  {
    if |ts| > 1 {
      assert (ts + [x])[1..] == ts[1..] + [x];
      JoinAppend(ts[1..], x, delimiter);
    } else if |ts| == 1 {
      assert (ts + [x])[1..] == [x];
    }
  }

  /** Each text with a delimiter behind it. */
  function Delimited(ts: seq<string>, delimiter: string): string {
    if ts == [] then "" else Delimited(ts[..|ts| - 1], delimiter) + ts[|ts| - 1] + delimiter
  }

  lemma {:induction false} DelimitedJoin(a: seq<string>, b: seq<string>, delimiter: string)
    requires b != []
    ensures Delimited(a, delimiter) + Join(b, delimiter) == Join(a + b, delimiter)
  {
    if a == [] {
      assert a + b == b;
    } else {
      var n := |a| - 1;
      DelimitedJoin(a[..n], [a[n]] + b, delimiter);
      assert a[..n] + ([a[n]] + b) == a + b;
      assert ([a[n]] + b)[1..] == b;
    }
  }

  lemma {:induction false} DelimitedMore(a: seq<string>, b: seq<string>, delimiter: string)
    ensures Delimited(a + b, delimiter) == Delimited(a, delimiter) + Delimited(b, delimiter)
  {
    if b == [] {
      assert a + b == a;
    } else {
      var n := |b| - 1;
      assert (a + b)[..|a + b| - 1] == a + b[..n];
      DelimitedMore(a, b[..n], delimiter);
    }
  }
}
