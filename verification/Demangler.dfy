/** The demangler: a recursive-descent parser over a cursor and a validity flag. */
module Demangler {
  import opened MangledTypes
  import opened MangledText
  import opened MangledNumbers

  datatype TypeKind =
    | NAME | PRIMITIVE | CSTRING | CLASS | STRUCT | ENUM | RAW_ARRAY | TUPLE | CPOINTER | FUNCTION
    | COMMON_DECL | FUNCTION_DECL | FUNCTION_PARAMETER_TYPES | LAMBDA_FUNCTION | GENERIC_TYPES

  /** DemangleInfo. */
  datatype Info = Info(kind: TypeKind, pkg: string, args: string, constraints: string, generics: string,
                       params: string, text: string)

  function Plain(text: string, kind: TypeKind): Info { Info(kind, "", "", "", "", "", text) }

  predicate IsFunctionLike(k: TypeKind) { k == FUNCTION_DECL || k == LAMBDA_FUNCTION || k == FUNCTION }

  function ArgTypesName(di: Info, argsNum: nat): string {
    if di.args == "" then (if IsFunctionLike(di.kind) then "()" else "")
    else if IsFunctionLike(di.kind) then "(" + di.args + ")"
    else if argsNum != 0 then "<" + di.args + ",$" + Decimal(argsNum) + ">"
    else "<" + di.args + ">"
  }

  /** DemangleInfo::GetFullName. */
  function FullName(di: Info, scope: string, argsNum: nat := 0): string {
    if di.kind == FUNCTION then ArgTypesName(di, 0) + " -> " + di.text
    else
      var id := Identifier(di.text);
      (if IsFunctionLike(di.kind) || di.kind == COMMON_DECL then id else Qualified(di.pkg, scope, id))
      + di.generics + ArgTypesName(di, argsNum) + di.constraints
  }

  lemma ArrayName(args: string, dims: string, scope: string)
    ensures FullName(Plain("RawArray", RAW_ARRAY).(args := args, constraints := dims), scope) ==
            "RawArray" + Angle(args) + dims
  {
  }

  lemma VArrayName(args: string, n: nat, scope: string)
    ensures var generics := ArgTypesName(Plain("", GENERIC_TYPES).(args := args), n);
            FullName(Plain("VArray", TUPLE).(generics := generics), scope) == VArrayText(args, n)
  {
    assert Identifier("VArray") == "VArray";
  }

  lemma ParamName(digits: string, scope: string)
    ensures FullName(Plain("T" + digits, GENERIC_TYPES), scope) == "T" + digits
  {
    assert Identifier("T" + digits) == "T" + digits;
  }

  lemma FuncName(ret: string, args: string, scope: string)
    ensures FullName(Plain(ret, FUNCTION).(args := args), scope) == "(" + args + ")" + " -> " + ret
  {
  }

  lemma TupleName(generics: string, scope: string)
    ensures FullName(Plain("Tuple", TUPLE).(generics := generics), scope) == "Tuple" + generics
  {
  }

  lemma PointerName(generics: string, scope: string)
    ensures FullName(Plain("CPointer", CPOINTER).(generics := generics), scope) == "CPointer" + generics
  {
  }

  lemma NameFull(id: string, generics: string, scope: string)
    ensures FullName(Plain(id, NAME).(generics := generics), scope) == Identifier(id) + generics
  {
  }

  function Identifiers(ids: seq<string>): seq<string> {
    if ids == [] then [] else [Identifier(ids[0])] + Identifiers(ids[1..])
  }

  lemma {:induction false} IdentifiersAt(ids: seq<string>)
    ensures |Identifiers(ids)| == |ids| && forall i :: 0 <= i < |ids| ==> Identifiers(ids)[i] == Identifier(ids[i])
  {
    if ids != [] {
      IdentifiersAt(ids[1..]);
    }
  }

  const MAX_ARGS_SIZE := 16
  const FILE_HASH_LEN := 13

  lemma DelimitedNext(ts: seq<string>, k: nat, delimiter: string)
    requires k < |ts|
    ensures Delimited(ts[..k + 1], delimiter) == Delimited(ts[..k], delimiter) + ts[k] + delimiter
  {
    assert ts[..k + 1][..k] == ts[..k];
  }

  /** All slots are emptied into one text, each with a delimiter behind it. */
  method FlushSlots(arr: array<string>, delimiter: string) returns (r: string)
    modifies arr
    ensures r == Delimited(old(arr[..]), delimiter)
  {
    ghost var was := arr[..];
    r := "";
    for k := 0 to arr.Length
      invariant r == Delimited(was[..k], delimiter) && forall i :: k <= i < arr.Length ==> arr[i] == was[i]
    {
      DelimitedNext(was, k, delimiter);
      r := r + arr[k] + delimiter;
      arr[k] := "";
    }
    assert was[..arr.Length] == was;
  }

  /** The sixteen-slot buffer of DemangleArgTypes, and the text flushed from it. */
  class Slots {
    const arr: array<string>
    var count: nat
    var result: string
    ghost var flushed: nat

    /** The texts so far: the first `flushed` are in `result`, the others in the slots. */
    ghost predicate Holds(texts: seq<string>, delimiter: string)
      reads this, arr
    {
      && arr.Length == MAX_ARGS_SIZE && count == |texts| && flushed % MAX_ARGS_SIZE == 0
      && flushed <= count <= flushed + MAX_ARGS_SIZE && (count > 0 ==> flushed < count)
      && result == Delimited(texts[..flushed], delimiter) && arr[..count - flushed] == texts[flushed..]
    }

    constructor ()
      ensures fresh(arr) && arr.Length == MAX_ARGS_SIZE && count == 0 && flushed == 0 && result == ""
    {
      arr := new string[MAX_ARGS_SIZE](_ => "");
      count, result, flushed := 0, "", 0;
    }

    method Flush(delimiter: string)
      requires arr.Length == MAX_ARGS_SIZE
      modifies `result, arr
      ensures result == old(result) + Delimited(old(arr[..]), delimiter)
    {
      var texts := FlushSlots(arr, delimiter);
      result := result + texts;
    }

    method Add(text: string, delimiter: string, ghost texts: seq<string>)
      requires Holds(texts, delimiter)
      modifies this, arr
      ensures Holds(texts + [text], delimiter)
    {
      var j := count % MAX_ARGS_SIZE;
      if j == 0 && count != 0 {
        FlushAll(delimiter, texts);
        assert texts[..flushed] == texts;
      }
      Store(j, text, delimiter, texts);
    }

    method FlushAll(delimiter: string, ghost texts: seq<string>)
      requires Holds(texts, delimiter) && count == flushed + MAX_ARGS_SIZE
      modifies this, arr
      ensures arr.Length == MAX_ARGS_SIZE && count == flushed == |texts| && result == Delimited(texts, delimiter)
      ensures flushed == old(flushed) + MAX_ARGS_SIZE
    {
      assert arr[..] == arr[..count - flushed];
      Flush(delimiter);
      DelimitedMore(texts[..flushed], texts[flushed..], delimiter);
      TakeDrop(texts, flushed);
      flushed := count;
    }

    method Store(j: nat, text: string, delimiter: string, ghost texts: seq<string>)
      requires arr.Length == MAX_ARGS_SIZE && count == |texts| && flushed % MAX_ARGS_SIZE == 0 && flushed <= count
      requires j == count - flushed < MAX_ARGS_SIZE && arr[..j] == texts[flushed..]
      requires result == Delimited(texts[..flushed], delimiter)
      modifies this, arr
      ensures Holds(texts + [text], delimiter)
    {
      ghost var held := arr[..j];
      count := count + 1;
      arr[j] := text;
      assert (texts + [text])[..flushed] == texts[..flushed];
      assert arr[..j + 1] == held + [text];
    }

    /** What is flushed and what is left, joined. */
    method Text(delimiter: string, ghost texts: seq<string>) returns (text: string)
      requires Holds(texts, delimiter)
      ensures text == Join(texts, delimiter)
    {
      if count == 0 {
        return result;
      }
      var remaining := (count - 1) % MAX_ARGS_SIZE + 1;
      var tail := JoinSlots(arr, remaining, delimiter);
      JoinedParts(texts, flushed, delimiter);
      text := result + tail;
    }
  }

  method JoinHeld(arr: array<string>, i: nat, scope: string) returns (text: string)
    requires arr.Length == MAX_ARGS_SIZE
    ensures i <= MAX_ARGS_SIZE ==> text == Join(arr[..i], scope)
    ensures i == MAX_ARGS_SIZE + 1 ==> text == ""
  {
    text := JoinSlots(arr, i % (MAX_ARGS_SIZE + 1), scope);
  }

  /** Where the first i names of a nested declaration are: in the slots, and once there are seventeen joined
      in the flushed text. */
  ghost predicate ScopesHeld(slots: seq<string>, result: string, all: seq<string>, i: nat, scope: string) {
    && |slots| == MAX_ARGS_SIZE && i <= |all|
    && (i <= MAX_ARGS_SIZE ==> result == "" && slots[..i] == all[..i])
    && (i == MAX_ARGS_SIZE + 1 ==> result == Join(all[..MAX_ARGS_SIZE], scope))
  }

  lemma {:induction false} DelimitedIsJoin(ts: seq<string>, delimiter: string)
    requires ts != []
    ensures Delimited(ts, delimiter) == Join(ts, delimiter) + delimiter
  {
    var n := |ts| - 1;
    DelimitedJoin(ts[..n], [ts[n]], delimiter);
    assert ts[..n] + [ts[n]] == ts;
  }

  /** The names held so far, joined. */
  method FlushScopes(arr: array<string>, result: string, scope: string) returns (r: string)
    requires arr.Length == MAX_ARGS_SIZE
    modifies arr
    ensures r == result + Join(old(arr[..]), scope)
  {
    DelimitedIsJoin(arr[..], scope);
    var texts := FlushSlots(arr, scope);
    r := result + texts;
    r := r[..|r| - |scope|];
  }

  /** A name goes into the slot of its number; before every sixteenth the slots are flushed. */
  method HoldScope(arr: array<string>, i: nat, result: string, text: string, scope: string, ghost all: seq<string>)
    returns (r: string)
    requires arr.Length == MAX_ARGS_SIZE
    modifies arr
    ensures i < |all| <= MAX_ARGS_SIZE + 1 && text == all[i] && ScopesHeld(old(arr[..]), result, all, i, scope) ==>
              ScopesHeld(arr[..], r, all, i + 1, scope)
  {
    var j := i % MAX_ARGS_SIZE;
    r := result;
    ghost var was := arr[..];
    if j == 0 && i != 0 {
      r := FlushScopes(arr, result, scope);
    }
    arr[j] := text;
    if i < |all| <= MAX_ARGS_SIZE + 1 && text == all[i] && ScopesHeld(was, result, all, i, scope) {
      if i < MAX_ARGS_SIZE {
        assert arr[..i + 1] == was[..i] + [text] == all[..i + 1];
      } else {
        assert was[..MAX_ARGS_SIZE] == was;
      }
    }
  }

  lemma MoveOne(done: seq<string>, x: string, rest: seq<string>)
    ensures done + [x] + rest == done + ([x] + rest)
  {
  }

  lemma TakeDrop(s: seq<string>, k: nat)
    requires k <= |s|
    ensures s[..k] + s[k..] == s
  {
  }

  lemma JoinedParts(ts: seq<string>, k: nat, delimiter: string)
    requires k < |ts|
    ensures Delimited(ts[..k], delimiter) + Join(ts[k..], delimiter) == Join(ts, delimiter)
  {
    DelimitedJoin(ts[..k], ts[k..], delimiter);
    TakeDrop(ts, k);
  }

  /** GetArgTypesFullName. */
  method JoinSlots(arr: array<string>, n: nat, delimiter: string) returns (text: string)
    requires n <= arr.Length
    ensures text == Join(arr[..n], delimiter)
  {
    if n == 0 {
      return "";
    }
    text := arr[0];
    for i := 1 to n
      invariant text == Join(arr[..i], delimiter)
    {
      JoinAppend(arr[..i], arr[i], delimiter);
      assert arr[..i] + [arr[i]] == arr[..i + 1];
      text := text + (delimiter + arr[i]);
    }
  }

  datatype Outcome = AtEnd | Failed | More

  class Parser {
    const name: string
    const scope: string
    const tables: Tables
    var index: nat
    var valid: bool

    constructor (name: string, scope: string, tables: Tables)
      ensures this.name == name && this.scope == scope && this.tables == tables && index == 0 && valid
    {
      this.name, this.scope, this.tables := name, scope, tables;
      index, valid := 0, true;
    }

    function Cur(): char
      reads this
    {
      if index < |name| then name[index] else '\0'
    }

    function Peek(k: nat): char
      reads this
    {
      if index + k < |name| then name[index + k] else '\0'
    }

    function Two(): string
      reads this
    {
      if index + 2 <= |name| then name[index..index + 2] else ""
    }

    predicate NotEnd()
      reads this
    {
      index < |name| && name[index] != 'E'
    }

    predicate IsOperatorName()
      reads this
    {
      index + 2 < |name| && Has(tables.operators, Two()) && Peek(2) in {'I', 'H', 'K'}
    }

    predicate IsQualifiedType()
      reads this
    {
      index < |name| &&
      ((Cur() == 'D' && Peek(1) == 'h') || (Cur() == 'F' && (Peek(1) == '0' || Peek(1) == 'C')) ||
       Has(tables.primitives, [Cur()]) ||
       Cur() in {'C', 'R', 'N', 'T', 'P', 'A', 'k', 'V'})
    }

    /** Failure puts the cursor at the end. */
    method Reject() returns (di: Info)
      requires index <= |name|
      modifies this
      ensures !valid && index == |name|
    {
      valid := false;
      index := |name|;
      di := Plain(name, NAME);
    }

    /** On the expected character the cursor moves on; otherwise the parse fails. */
    method SkipChar(c: char)
      requires index <= |name|
      modifies this
      ensures old(index) <= index <= |name| && (old(index) < |name| ==> index > old(index))
      ensures if old(Cur()) == c && old(index) < |name| then index == old(index) + 1 && valid == old(valid)
              else !valid && index == |name|
    {
      if index >= |name| || name[index] != c {
        var _ := Reject();
      } else {
        index := index + 1;
      }
    }

    method SkipOptionalChar(c: char)
      requires index <= |name|
      modifies this
      ensures index == (if old(index) < |name| && old(Cur()) == c then old(index) + 1 else old(index)) &&
              valid == old(valid)
    {
      if index < |name| && name[index] == c {
        index := index + 1;
      }
    }

    method SkipString(pattern: string)
      requires index <= |name| && pattern != ""
      modifies this
      ensures old(index) <= index <= |name| && (old(index) < |name| ==> index > old(index))
      ensures old(valid) && Starts(name, old(index), pattern) ==> valid && index == old(index) + |pattern|
      ensures old(valid) && !valid ==> index == |name|
    {
      var i := 0;
      while i < |pattern|
        invariant i <= |pattern| && index == old(index) + i <= |name| && valid == old(valid)
        invariant i > 0 ==> valid
      {
        if Starts(name, old(index), pattern) {
          StartsChar(name, old(index), pattern, i);
        }
        SkipChar(pattern[i]);
        if !valid {
          return;
        }
        i := i + 1;
      }
    }

    /** DemangleLength. */
    method DemangleLength() returns (n: nat)
      requires index <= |name|
      modifies this
      ensures old(index) <= index <= |name| && (valid && old(index) < |name| ==> index > old(index))
      ensures (old(index) == |name| ==> !valid) && (n > 0 ==> valid)
      ensures old(index) < |name| && old(Cur()) != '0' && DigitRun(name, old(index)) > 0 ==>
                valid && index == old(index) + DigitRun(name, old(index)) && n == Atoi(name[old(index)..index])
    {
      if index >= |name| {
        var _ := Reject();
        return 0;
      }
      if name[index] == '0' {
        index := index + 1;
        return 0;
      }
      ghost var start := index;
      var numStr := "";
      valid := false;
      while index < |name| && IsDigit(name[index])
        invariant start <= index <= |name| && numStr == name[start..index] && (valid <==> index > start)
        invariant DigitRun(name, start) == index - start + DigitRun(name, index)
      {
        numStr := numStr + [name[index]];
        index := index + 1;
        valid := true;
      }
      return Atoi(numStr);
    }

    /** DemangleStringName: a length and that many characters. */
    method DemangleStringName(ghost want: string) returns (s: string)
      requires index <= |name|
      modifies this
      ensures old(index) <= index <= |name|
      ensures if valid then index > old(index) else index == |name|
      ensures PlainName(want) && Starts(name, old(index), EncodeName(want)) ==>
                valid && s == want && index == old(index) + |EncodeName(want)|
    {
      ghost var start := index;
      if PlainName(want) && Starts(name, start, EncodeName(want)) {
        NameLength(name, start, want, Decimal(|want|), start + |Decimal(|want|)|);
      }
      var n := DemangleLength();
      if n == 0 || n > |name| - index {
        var _ := Reject();
        return "";
      }
      s := name[index..index + n];
      index := index + n;
    }

    /** The characters up to an underscore, which is skipped; failure if there is none. */
    method ReadToUnderscore() returns (content: string)
      requires index <= |name|
      modifies this
      ensures old(index) <= index <= |name|
      ensures var stop := Underscore(name, old(index));
              if stop < |name| then valid == old(valid) && index == stop + 1 && content == name[old(index)..stop]
              else !valid && index == |name| && content == ""
    {
      ghost var start := index;
      content := "";
      while true
        invariant start <= index <= |name| && content == name[start..index] && valid == old(valid)
        invariant Underscore(name, index) == Underscore(name, start)
        decreases |name| - index
      {
        if index >= |name| {
          var _ := Reject();
          return "";
        }
        var c := name[index];
        index := index + 1;
        if c == '_' {
          return;
        }
        content := content + [c];
      }
    }

    /** DemangleManglingNumber: base-62 digits up to an underscore. */
    method DemangleManglingNumber(ghost want: nat) returns (n: nat)
      requires index <= |name|
      modifies this
      ensures old(index) <= index <= |name|
      ensures Starts(name, old(index), Number(want)) ==>
                valid == old(valid) && n == want && index == old(index) + |Number(want)|
      ensures !valid && old(valid) ==> index == |name|
    {
      if Starts(name, index, Number(want)) {
        UpToUnderscore(name, index, want, NumberDigits(want), index + |NumberDigits(want)|);
      }
      var content := ReadToUnderscore();
      if content == "" {
        return 0;
      }
      var value, good := BaseValue(content);
      if !good {
        var _ := Reject();
        return 0;
      }
      return value + 1;
    }

    // -------------------------------------------------------------- packages and counters

    method DemangleFileNameNumber()
      requires index <= |name|
      modifies this
      ensures old(index) <= index <= |name|
    {
      var content := "";
      while |content| < FILE_HASH_LEN
        invariant old(index) <= index <= |name| && |content| <= FILE_HASH_LEN
        decreases FILE_HASH_LEN - |content|
      {
        if index >= |name| {
          var _ := Reject();
          return;
        }
        var c := name[index];
        index := index + 1;
        if c == '$' {
          return;
        }
        content := content + [c];
      }
      if exists k :: 0 <= k < |content| && DigitOf(content[k]) == 63 {
        var _ := Reject();
      }
    }

    method DemangleFileName()
      requires index <= |name|
      modifies this
      ensures old(index) <= index <= |name|
    {
      SkipChar('U');
      DemangleFileNameNumber();
    }

    method SkipLocalCounter()
      requires index <= |name|
      modifies this
      ensures old(index) <= index <= |name|
      ensures old(Cur()) != 'K' ==> index == old(index) && valid == old(valid)
    {
      if index < |name| && name[index] == 'K' {
        SkipChar('K');
        var _ := DemangleManglingNumber(0);
      }
    }

    /** DemanglePackageName. */
    method DemanglePackageName(ghost want: Pkg, ghost expected: bool) returns (pkg: string)
      requires index <= |name| && (expected ==> valid && PkgAhead(index, want))
      modifies this
      ensures old(index) <= index <= |name|
      ensures expected ==> valid && index == old(index) + |EncodePkg(want)| && pkg == PkgText(want, tables)
    {
      ghost var next := index + |EncodePkg(want)|;
      assert expected ==> BeforeName(next);
      var none;
      pkg, none := ReadPackage(want, expected);
      if none {
        return "";
      }
      if Cur() == 'U' {
        DemangleFileName();
      }
      pkg := ShowPkg(pkg);
    }

    method ReadPackage(ghost want: Pkg, ghost expected: bool) returns (pkg: string, none: bool)
      requires index <= |name| && (expected ==> valid && PkgAhead(index, want))
      modifies this
      ensures old(index) <= index <= |name|
      ensures expected ==>
                && valid && index == old(index) + |EncodePkg(want)| && none == want.NoPkg?
                && (want.Named? ==> pkg == want.name) && (want.Standard? ==> pkg == Lookup(tables.packages, want.code))
    {
      if index >= |name| {
        var _ := Reject();
        return "", true;
      }
      if expected {
        PkgHead(index, want);
      }
      pkg, none := "", false;
      if Has(tables.packages, Two()) {
        pkg := Lookup(tables.packages, Two());
        index := if index + 2 <= |name| then index + 2 else |name|;
      } else if !IsDigit(name[index]) {
        var _ := Reject();
        return "", true;
      }
      if Cur() == '0' {
        index := index + 1;
        return "", true;
      }
      if pkg == "" {
        pkg := DemangleStringName(if want.Named? then want.name else "");
      }
    }

    /** A package and behind it the length of a name stand at i. */
    ghost predicate PkgAhead(i: nat, want: Pkg) {
      && GoodTables(tables) && GoodPkg(want, tables) && Starts(name, i, EncodePkg(want))
      && BeforeName(i + |EncodePkg(want)|)
    }

    /** A name's length follows. */
    ghost predicate BeforeName(i: nat) {
      i < |name| && IsDigit(name[i]) && name[i] != '0'
    }

    lemma PkgHead(i: nat, want: Pkg)
      requires PkgAhead(i, want)
      ensures i < |name|
      ensures want.NoPkg? ==> name[i] == '0'
      ensures want.Named? ==> IsDigit(name[i]) && name[i] != '0'
      ensures want.Standard? ==> i + 2 <= |name| && name[i..i + 2] == want.code && Has(tables.packages, want.code)
      ensures !want.Standard? ==> !Has(tables.packages, if i + 2 <= |name| then name[i..i + 2] else "")
    {
      var two := if i + 2 <= |name| then name[i..i + 2] else "";
      if !want.Standard? && Has(tables.packages, two) {
        PackageCode(tables.packages, two);
        assert two[0] == name[i];
      }
      if want.Standard? {
        PackageCode(tables.packages, want.code);
      }
      StartsChar(name, i, EncodePkg(want), 0);
    }

    // -------------------------------------------------------------- units

    /** The encoding of t stands at i. */
    ghost predicate Ahead(i: nat, t: Type) { GoodTables(tables) && Spells(name, i, t, tables) }

    /** The encodings of ts and an end mark stand at i. */
    ghost predicate ListAhead(i: nat, ts: seq<Type>) { GoodTables(tables) && SpellsAll(name, i, ts, tables) }

    ghost function Show(t: Type): string { Render(t, scope, tables) }

    ghost function ShowAll(ts: seq<Type>): seq<string> { RenderAll(ts, scope, tables) }

    /** Exactly the encoding at i was consumed, and the type is shown. */
    ghost predicate Got(i: nat, t: Type, j: nat, di: Info) {
      j == i + Len(t) && FullName(di, scope) == Show(t)
    }

    /** The type at i was read and shown if the parser accepts it, and rejected otherwise. */
    ghost predicate Answered(i: nat, t: Type, j: nat, di: Info, ok: bool) {
      if Accepted(t, tables) then ok && Got(i, t, j, di) else !ok
    }

    /** DemangleNextUnit: a call moves the cursor on, or fails with the cursor at the end.  The encoding of any
        type, whatever follows it, is consumed exactly and shown if it is accepted, and rejected otherwise. */
    method DemangleNextUnit(ghost want: Type) returns (di: Info)
      requires index <= |name|
      modifies this
      ensures old(index) <= index <= |name| && if valid then index > old(index) else index == |name|
      ensures old(valid) && Ahead(old(index), want) ==> Answered(old(index), want, index, di, valid)
      decreases |name| - index, 2
    {
      di := DemangleByPrefix(want);
      if !valid {
        di := Reject();
      }
    }

    method DemangleByPrefix(ghost want: Type) returns (di: Info)
      requires index <= |name|
      modifies this
      ensures old(index) <= index <= |name| && (valid ==> index > old(index))
      ensures old(valid) && Ahead(old(index), want) ==> Answered(old(index), want, index, di, valid)
      decreases |name| - index, 1
    {
      if Ahead(index, want) {
        SpellsHead(name, index, want, tables);
        HeadIsPlain(name[index], tables);
        UnitKind(index, want);
      }
      if index >= |name| {
        di := Reject();
        return;
      }
      var c := name[index];
      if c == 'C' || c == 'R' || c == 'N' {
        di := DemangleClass(if c == 'C' then CLASS else if c == 'R' then STRUCT else ENUM, want);
      } else if c == 'F' && Peek(1) == '0' {
        di := DemangleFunction("F0", want);
      } else if c == 'F' && Peek(1) == 'C' {
        di := DemangleFunction("FC", want);
      } else if c == 'T' {
        di := DemangleTuple(want);
      } else if c == 'P' {
        di := DemangleCPointer(want);
      } else if c == 'A' {
        di := DemangleRawArray(want);
      } else if c == 'V' {
        di := DemangleVArray(0, 0, []);
      } else if c == 'k' {
        SkipChar('k');
        di := Plain("CString", CSTRING);
      } else if c == 'G' {
        di := DemangleGenericType(want);
      } else if c == 'F' || c == '_' {
        di := Reject();
      } else if IsDigit(c) {
        var s := DemangleStringName("");
        di := Plain(s, NAME);
      } else if Has(tables.primitives, [c]) {
        di := DemanglePrimitive(want);
      } else if IsOperatorName() {
        di := Plain(Lookup(tables.operators, Two()), NAME);
        index := index + 2;
      } else {
        di := Reject();
      }
    }

    /** The first characters say which kind of type it is. */
    lemma UnitKind(i: nat, t: Type)
      requires Ahead(i, t)
      ensures i < |name|
      ensures match name[i]
              case 'C' => t.Decl? case 'R' => t.Decl? case 'N' => t.Decl?
              case 'F' => t.Func? && i + 1 < |name| && name[i + 1] == if t.isC then 'C' else '0'
              case 'T' => t.Tuple? case 'P' => t.Pointer? case 'A' => t.RawArray?
              case 'k' => t.CString? case 'G' => t.Param?
              case _ => t.Prim? && name[i] == t.c && Has(tables.primitives, [t.c]) && (IsLower(t.c) || t.c == 'D')
    {
      if t.Prim? {
        PrimitiveCode(tables.primitives, t.c);
      }
      assert t.Decl? ==> SpellsDecl(name, i, t, tables);
    }

    method DemanglePrimitive(ghost want: Type) returns (di: Info)
      requires index < |name| && Has(tables.primitives, [name[index]])
      modifies this
      ensures old(index) < index <= |name|
      ensures old(valid) && want.Prim? && Ahead(old(index), want) ==> valid && Got(old(index), want, index, di)
    {
      if want.Prim? && Ahead(index, want) {
        PrimitiveCode(tables.primitives, want.c);
      }
      var c := name[index];
      if c == 'D' && Peek(1) == 'h' {
        SkipChar('D');
        SkipChar('h');
      } else {
        SkipChar(c);
      }
      di := Plain(Lookup(tables.primitives, [c]), PRIMITIVE);
    }

    method DemangleGenericType(ghost want: Type) returns (di: Info)
      requires index < |name| && name[index] == 'G'
      modifies this
      ensures old(index) < index <= |name|
      ensures old(valid) && want.Param? && Ahead(old(index), want) ==> valid && Got(old(index), want, index, di)
    {
      ghost var i, expected := index, valid && want.Param? && Ahead(index, want);
      ghost var k := if want.Param? then want.n else 0;
      if expected {
        ParamAhead(i, want);
      }
      SkipChar('G');
      var n := DemangleManglingNumber(k);
      di := Plain("T" + Decimal(n), GENERIC_TYPES);
      if expected {
        ParamGot(i, want, index, n, di);
      }
    }

    lemma ParamGot(i: nat, want: Type, end: nat, n: nat, di: Info)
      requires want.Param? && end == i + 1 + |Number(want.n)| && n == want.n &&
               di == Plain("T" + Decimal(n), GENERIC_TYPES)
      ensures Got(i, want, end, di)
    {
      ParamName(Decimal(n), scope);
    }

    lemma ParamAhead(i: nat, want: Type)
      requires want.Param? && Spells(name, i, want, tables)
      ensures Starts(name, i + 1, Number(want.n))
    {
    }

    method DemangleTuple(ghost want: Type) returns (di: Info)
      requires index < |name| && name[index] == 'T'
      modifies this
      ensures old(index) < index <= |name|
      ensures old(valid) && want.Tuple? && Ahead(old(index), want) ==> Answered(old(index), want, index, di, valid)
      decreases |name| - index, 0
    {
      ghost var i, expected := index, valid && want.Tuple? && Ahead(index, want);
      ghost var arity, elems := if want.Tuple? then want.arity else 0, if want.Tuple? then want.elems else [];
      ghost var p := i + 1 + |Number(arity)|;
      ghost var e := p + LenAll(elems);
      if expected {
        TupleAhead(i, want, p, e);
      }
      SkipChar('T');
      var _ := DemangleManglingNumber(arity);
      assert expected ==> index == p;
      var generic := DemangleGenericTypes(elems);
      assert expected && valid ==> index == e;
      di := Plain("Tuple", TUPLE).(generics := Angle(generic));
      SkipChar('E');
    }

    lemma TupleAhead(i: nat, want: Type, p: nat, e: nat)
      requires want.Tuple? && Ahead(i, want) && p == i + 1 + |Number(want.arity)| && e == p + LenAll(want.elems)
      ensures Starts(name, i + 1, Number(want.arity)) && ListAhead(p, want.elems) && CharAt(name, e, 'E')
      ensures Got(i, want, e + 1, Plain("Tuple", TUPLE).(generics := Angle(Join(ShowAll(want.elems), ","))))
    {
      ListEnd(name, p, want.elems, tables);
      TupleName(Angle(Join(ShowAll(want.elems), ",")), scope);
    }

    method DemangleRawArray(ghost want: Type) returns (di: Info)
      requires index < |name| && name[index] == 'A'
      modifies this
      ensures old(index) < index <= |name|
      ensures old(valid) && want.RawArray? && Ahead(old(index), want) ==> Answered(old(index), want, index, di, valid)
      decreases |name| - index, 0
    {
      ghost var i, expected := index, valid && want.RawArray? && Ahead(index, want);
      ghost var dims, e := if want.RawArray? then want.dim else 0, if want.RawArray? then want.elem else want;
      ghost var p := i + 1 + |Number(dims)|;
      if expected {
        ArrayAhead(i, want, p);
      }
      SkipChar('A');
      var dim := DemangleManglingNumber(dims);
      assert expected ==> index == p;
      var elem := DemangleNextUnit(e);
      di := Plain("RawArray", RAW_ARRAY).(args := FullName(elem, scope), constraints := Brackets(dim));
    }

    lemma ArrayAhead(i: nat, want: Type, p: nat)
      requires want.RawArray? && Ahead(i, want) && p == i + 1 + |Number(want.dim)|
      ensures Starts(name, i + 1, Number(want.dim)) && Ahead(p, want.elem)
      ensures Got(i, want, p + Len(want.elem),
                  Plain("RawArray", RAW_ARRAY).(args := Show(want.elem), constraints := Brackets(want.dim)))
    {
      ArrayName(Show(want.elem), Brackets(want.dim), scope);
    }

    /** The length of a VArray at i and behind it the encodings of ts and an end mark, from p on. */
    ghost predicate VArrayAhead(i: nat, n: nat, p: nat, ts: seq<Type>) {
      Starts(name, i + 1, Number(n)) && p == i + 1 + |Number(n)| && ListAhead(p, ts)
    }

    /** DemangleVArray: the encoding has no end mark of its own, so every type up to the next end mark is read
        and shown as an element type. */
    method DemangleVArray(ghost n: nat, ghost p: nat, ghost wants: seq<Type>) returns (di: Info)
      requires index < |name| && name[index] == 'V'
      modifies this
      ensures old(index) < index <= |name|
      ensures old(valid) && VArrayAhead(old(index), n, p, wants) ==>
                if AllAccepted(wants, tables)
                then
                  && valid && index == p + LenAll(wants)
                  && FullName(di, scope) == VArrayText(Join(ShowAll(wants), ","), n)
                else !valid
      decreases |name| - index, 0
    {
      ghost var expected := valid && VArrayAhead(index, n, p, wants);
      SkipChar('V');
      var num := DemangleManglingNumber(n);
      assert expected ==> valid && index == p && num == n;
      var generic := DemangleGenericTypes(wants);
      di := Plain("VArray", TUPLE).(generics := ArgTypesName(Plain("", GENERIC_TYPES).(args := generic), num));
      VArrayName(generic, num, scope);
    }

    /** A pointer's target must be recognisable as a type from its first characters; a type parameter is not. */
    method DemangleCPointer(ghost want: Type) returns (di: Info)
      requires index < |name| && name[index] == 'P'
      modifies this
      ensures old(index) < index <= |name|
      ensures old(valid) && want.Pointer? && Ahead(old(index), want) ==> Answered(old(index), want, index, di, valid)
      decreases |name| - index, 0
    {
      ghost var i, expected := index, valid && want.Pointer? && Ahead(index, want);
      ghost var e := if want.Pointer? then want.target else want;
      if expected {
        PointerAhead(i, want, i + 1);
      }
      SkipChar('P');
      assert expected ==> index == i + 1;
      var target := DemangleType(e);
      assert expected && valid ==> index == i + 1 + Len(e) && target == Show(e);
      di := Plain("CPointer", CPOINTER).(generics := Angle(target));
    }

    lemma PointerAhead(i: nat, want: Type, p: nat)
      requires want.Pointer? && Ahead(i, want) && p == i + 1
      ensures Ahead(p, want.target) && (QualifiedAt(p) <==> !want.target.Param?)
      ensures Got(i, want, p + Len(want.target), Plain("CPointer", CPOINTER).(generics := Angle(Show(want.target))))
    {
      TargetHead(name, p, want.target, tables);
      PointerName(Angle(Show(want.target)), scope);
    }

    ghost predicate QualifiedAt(i: nat) {
      i < |name| && (Has(tables.primitives, [name[i]]) || name[i] in {'C', 'R', 'N', 'T', 'P', 'A', 'k'} ||
                     (name[i] == 'F' && i + 1 < |name| && (name[i + 1] == '0' || name[i + 1] == 'C')))
    }

    method DemangleType(ghost want: Type) returns (args: string)
      requires index <= |name|
      modifies this
      ensures old(index) <= index <= |name|
      ensures old(valid) && Ahead(old(index), want) ==> (valid <==> !want.Param? && Accepted(want, tables))
      ensures old(valid) && Ahead(old(index), want) && valid ==> index == old(index) + Len(want) && args == Show(want)
      decreases |name| - index, 3
    {
      args := "";
      if Ahead(index, want) {
        TargetHead(name, index, want, tables);
        SpellsHead(name, index, want, tables);
      }
      if IsQualifiedType() {
        var cur := DemangleNextUnit(want);
        if valid {
          args := FullName(cur, scope);
          return;
        }
      }
      valid := false;
    }

    /** F0 and FC: the return type, then the arguments. */
    method DemangleFunction(prefix: string, ghost want: Type) returns (di: Info)
      requires index < |name| && (prefix == "F0" || prefix == "FC")
      modifies this
      ensures old(index) < index <= |name|
      ensures old(valid) && want.Func? && Ahead(old(index), want) && (prefix == "FC" <==> want.isC) ==>
                Answered(old(index), want, index, di, valid)
      decreases |name| - index, 0
    {
      ghost var i, expected := index, valid && want.Func? && Ahead(index, want) && (prefix == "FC" <==> want.isC);
      ghost var r, wants := if want.Func? then want.ret else want, if want.Func? then want.args else [];
      ghost var p := i + 2 + Len(r);
      ghost var e := p + LenAll(wants);
      if expected {
        FuncAhead(i, want, prefix, p, e);
      }
      SkipString(prefix);
      var ret := DemangleNextUnit(r);
      assert expected ==> if Accepted(r, tables) then valid && index == p else index == |name|;
      var args := DemangleArgTypes(", ", wants);
      assert expected ==> if Accepted(want, tables) then valid && index == e else index == |name|;
      di := Plain(FullName(ret, scope), FUNCTION).(args := args);
      SkipChar('E');
    }

    lemma FuncAhead(i: nat, want: Type, prefix: string, p: nat, e: nat)
      requires want.Func? && Ahead(i, want) && prefix == (if want.isC then "FC" else "F0")
      requires p == i + 2 + Len(want.ret) && e == p + LenAll(want.args)
      ensures Starts(name, i, prefix) && Ahead(i + 2, want.ret) && ListAhead(p, want.args) && CharAt(name, e, 'E')
      ensures Got(i, want, e + 1, Plain(Show(want.ret), FUNCTION).(args := Join(ShowAll(want.args), ", ")))
    {
      assert name[i..i + 2] == prefix;
      ListEnd(name, p, want.args, tables);
      FuncName(Show(want.ret), Join(ShowAll(want.args), ", "), scope);
    }

    // -------------------------------------------------------------- lists of types

    /** How far a list has been read: `done` are shown, `rest` are still ahead. */
    ghost predicate ReadingList(end: nat, ts: seq<Type>, i: nat, done: seq<string>, rest: seq<Type>) {
      ListAhead(i, rest) && done + ShowAll(rest) == ShowAll(ts) && i + LenAll(rest) == end
    }

    lemma ReadNext(end: nat, ts: seq<Type>, i: nat, done: seq<string>, rest: seq<Type>, j: nat, text: string)
      requires ReadingList(end, ts, i, done, rest) && rest != [] && j == i + Len(rest[0]) && text == Show(rest[0])
      ensures ReadingList(end, ts, j, done + [text], rest[1..])
    {
      var later := rest[1..];
      ListTail(name, i, rest, j, later, tables);
      ShowFirst(rest, later, text);
      MoveOne(done, text, ShowAll(later));
    }

    lemma ShowFirst(ts: seq<Type>, rest: seq<Type>, text: string)
      requires ts != [] && rest == ts[1..] && text == Show(ts[0])
      ensures ShowAll(ts) == [text] + ShowAll(rest)
    {
    }

    /** The next type of a list. */
    method DemangleListed(ghost end: nat, ghost wants: seq<Type>, ghost done: seq<string>, ghost rest: seq<Type>)
      returns (text: string)
      requires index <= |name|
      modifies this
      ensures old(index) <= index <= |name| && if valid then index > old(index) else index == |name|
      ensures old(valid) && rest != [] && ReadingList(end, wants, old(index), done, rest) ==>
                if Accepted(rest[0], tables) then
                  valid && ReadingList(end, wants, index, done + [text], rest[1..])
                else !valid
      decreases |name| - index, 3
    {
      ghost var i, expected := index, valid && rest != [] && ReadingList(end, wants, index, done, rest);
      ghost var next := if rest == [] then CString else rest[0];
      assert expected ==> Ahead(i, next);
      var cur := DemangleNextUnit(next);
      text := FullName(cur, scope);
      if expected && valid {
        ReadNext(end, wants, i, done, rest, index, text);
      }
    }

    lemma ReadAll(end: nat, ts: seq<Type>, i: nat, done: seq<string>, rest: seq<Type>)
      requires ReadingList(end, ts, i, done, rest) && rest == []
      ensures i == end && done == ShowAll(ts)
    {
      assert done + ShowAll([]) == done;
    }

    /** The loops over a list go on exactly while there is a type. */
    lemma ListGoesOn(ts: seq<Type>)
      requires ListAhead(index, ts)
      ensures ts == [] ==> !NotEnd()
      ensures ts != [] ==> NotEnd() && !IsDigit(Cur()) && Cur() !in {'H', '_', '$', 'v'} && !IsOperatorName()
    {
      ListHead(name, index, ts, tables);
      if ts != [] {
        NoOperator(name, index, ts, tables);
      }
    }

    /** DemangleGenericTypes: types up to an end mark, a name, a function or an operator. */
    method DemangleGenericTypes(ghost wants: seq<Type>) returns (text: string)
      requires index <= |name|
      modifies this
      ensures old(index) <= index <= |name|
      ensures old(valid) && ListAhead(old(index), wants) ==>
                if AllAccepted(wants, tables) then
                  valid && index == old(index) + LenAll(wants) && text == Join(ShowAll(wants), ",")
                else !valid && index == |name|
      decreases |name| - index, 4
    {
      ghost var end, expected := index + LenAll(wants), valid && ListAhead(index, wants);
      ghost var done: seq<string>, rest := [], wants;
      text := "";
      var first := true;
      while NotEnd() && !IsDigit(Cur()) && Cur() != 'H' && !IsOperatorName()
        invariant old(index) <= index <= |name| && (first <==> done == []) && text == Join(done, ",")
        invariant expected ==> valid && ReadingList(end, wants, index, done, rest)
        invariant expected ==> (AllAccepted(rest, tables) <==> AllAccepted(wants, tables))
        decreases |name| - index
      {
        if expected {
          ListGoesOn(rest);
        }
        var next := DemangleListed(end, wants, done, rest);
        if !valid {
          break;
        }
        JoinAppend(done, next, ",");
        text := (if first then text else text + ",") + next;
        first := false;
        done, rest := done + [next], if rest == [] then [] else rest[1..];
      }
      if expected && valid {
        ListGoesOn(rest);
        ReadAll(end, wants, index, done, rest);
      }
    }

    /** DemangleArgTypes: although only sixteen texts are held at a time, all are joined in order. */
    method DemangleArgTypes(delimiter: string, ghost wants: seq<Type>) returns (result: string)
      requires index <= |name|
      modifies this
      ensures old(index) <= index <= |name|
      ensures old(valid) && ListAhead(old(index), wants) ==>
                if AllAccepted(wants, tables)
                then valid && index == old(index) + LenAll(wants) && result == Join(ShowAll(wants), delimiter)
                else !valid && index == |name|
      decreases |name| - index, 5
    {
      ghost var end, expected := index + LenAll(wants), valid && ListAhead(index, wants);
      ghost var done: seq<string>, rest := [], wants;
      if expected {
        ListGoesOn(wants);
      }
      if index + 1 == |name| && name[index] == 'v' {
        SkipChar('v');
        return "";
      }
      var slots := new Slots();
      while NotEnd()
        invariant old(index) <= index <= |name| && slots.Holds(done, delimiter) && fresh(slots) && fresh(slots.arr)
        invariant expected ==> valid && ReadingList(end, wants, index, done, rest)
        invariant expected ==> (AllAccepted(rest, tables) <==> AllAccepted(wants, tables))
        decreases |name| - index
      {
        if expected {
          ListGoesOn(rest);
        }
        var stop, text := DemangleArg(end, wants, done, rest);
        if stop {
          break;
        }
        if !valid {
          return "";
        }
        slots.Add(text, delimiter, done);
        done, rest := done + [text], if rest == [] then [] else rest[1..];
      }
      if expected {
        ListGoesOn(rest);
        ReadAll(end, wants, index, done, rest);
      }
      result := slots.Text(delimiter, done);
    }

    /** One argument; generic constraints are separated by underscores. */
    method DemangleArg(ghost end: nat, ghost wants: seq<Type>, ghost done: seq<string>, ghost rest: seq<Type>)
      returns (stop: bool, text: string)
      requires NotEnd()
      modifies this
      ensures old(index) <= index <= |name| && (stop || index > old(index)) && (!stop && !valid ==> index == |name|)
      ensures old(valid) && rest != [] && ReadingList(end, wants, old(index), done, rest) ==> !stop
      ensures old(valid) && rest != [] && ReadingList(end, wants, old(index), done, rest) ==>
                if Accepted(rest[0], tables) then
                  valid && ReadingList(end, wants, index, done + [text], rest[1..])
                else !valid
      decreases |name| - index, 4
    {
      if rest != [] && ReadingList(end, wants, index, done, rest) {
        ListGoesOn(rest);
      }
      SkipOptionalChar('_');
      if Cur() == '$' {
        return true, "";
      }
      stop := false;
      text := DemangleListed(end, wants, done, rest);
    }

    /** DemangleFunctionParameterTypes: "v" for none, or types up to an end mark or a name. */
    method DemangleFunctionParameterTypes(ghost wants: seq<Type>) returns (text: string)
      requires index <= |name|
      modifies this
      ensures old(index) <= index <= |name|
      ensures old(valid) && ListAhead(old(index), wants) ==>
                if AllAccepted(wants, tables) then
                  valid && index == old(index) + LenAll(wants) && text == Join(ShowAll(wants), ", ")
                else !valid && index == |name|
      ensures old(index) < |name| && old(Cur()) == 'v' ==> text == "" && index == old(index) + 1 && valid == old(valid)
      decreases |name| - index, 4
    {
      ghost var end, expected := index + LenAll(wants), valid && ListAhead(index, wants);
      ghost var done: seq<string>, rest := [], wants;
      if expected {
        ListGoesOn(wants);
      }
      text := "";
      if NotEnd() && Cur() == 'v' {
        index := index + 1;
        return;
      }
      var first := true;
      while NotEnd() && !IsDigit(Cur())
        invariant old(index) <= index <= |name| && (first <==> done == []) && text == Join(done, ", ")
        invariant expected ==> valid && ReadingList(end, wants, index, done, rest)
        invariant expected ==> (AllAccepted(rest, tables) <==> AllAccepted(wants, tables))
        decreases |name| - index
      {
        if expected {
          ListGoesOn(rest);
        }
        var next := DemangleListed(end, wants, done, rest);
        if !valid {
          break;
        }
        JoinAppend(done, next, ", ");
        text := (if first then text else text + ", ") + next;
        first := false;
        done, rest := done + [next], if rest == [] then [] else rest[1..];
      }
      if expected && valid {
        ListGoesOn(rest);
        ReadAll(end, wants, index, done, rest);
      }
    }

    // -------------------------------------------------------------- declarations

    /** A name, its type arguments and an end mark stand at i; k is just past the name, e at the end mark. */
    ghost predicate NameAhead(i: nat, id: string, isGeneric: bool, wants: seq<Type>, k: nat, e: nat) {
      && GoodTables(tables) && PlainName(id) && Starts(name, i, EncodeName(id)) && k == i + |EncodeName(id)|
      && (if isGeneric then CharAt(name, k, 'I') && SpellsAll(name, k + 1, wants, tables) && e == k + 1 + LenAll(wants)
          else wants == [] && k < |name| && (name[k] == 'E' || IsDigit(name[k])) && e == k)
    }

    /** Plain names, one behind the other, stand from i to p. */
    ghost predicate NamesAhead(i: nat, ids: seq<string>, p: nat)
      decreases |ids|
    {
      if ids == [] then i == p
      else PlainName(ids[0]) && Starts(name, i, EncodeName(ids[0])) && NamesAhead(i + |EncodeName(ids[0])|, ids[1..], p)
    }

    lemma NamesHead(i: nat, ids: seq<string>, p: nat, k: nat)
      requires GoodTables(tables) && ids != [] && NamesAhead(i, ids, p) && BeforeName(p) &&
               k == i + |EncodeName(ids[0])|
      ensures NameAhead(i, ids[0], false, [], k, k) && NotEndAt(i)
    {
      NameDigits(i, ids[0]);
      if ids[1..] != [] {
        NameDigits(k, ids[1]);
      }
    }

    lemma NameDigits(i: nat, id: string)
      requires PlainName(id) && Starts(name, i, EncodeName(id))
      ensures BeforeName(i)
    {
      StartsParts(name, i, Decimal(|id|), id);
      StartsChar(name, i, Decimal(|id|), 0);
    }

    ghost function ShowName(id: string, wants: seq<Type>): string {
      Identifier(id) + Angle(Join(ShowAll(wants), ","))
    }

    lemma NameHead(i: nat, id: string, isGeneric: bool, wants: seq<Type>, k: nat, e: nat)
      requires NameAhead(i, id, isGeneric, wants, k, e)
      ensures BeforeName(i) && NotEndAt(i) && i < k < |name| && (isGeneric ==> CharAt(name, e, 'E'))
    {
      NameDigits(i, id);
      if isGeneric {
        ListEnd(name, k + 1, wants, tables);
      }
    }

    ghost predicate NotEndAt(i: nat) { i < |name| && name[i] !in {'E', 'L', 'X'} }

    lemma DigitsAreNoOperator()
      requires GoodTables(tables) && index < |name| && IsDigit(name[index])
      ensures !IsOperatorName()
    {
      if IsOperatorName() {
        OperatorCode(tables.operators, Two());
      }
    }

    /** An operator, or a name and perhaps an accessor of a property. */
    method DemangleDeclName(ghost id: string, ghost k: nat, ghost expected: bool) returns (di: Info)
      requires NotEnd()
      requires expected ==>
                 valid && GoodTables(tables) && PlainName(id) && Starts(name, index, EncodeName(id)) &&
                 BeforeName(index)
      requires expected ==>
                 k == index + |EncodeName(id)| && k < |name| && (name[k] == 'I' || name[k] == 'E' || IsDigit(name[k]))
      modifies this
      ensures old(index) < index <= |name|
      ensures expected ==> valid && index == k && di == Plain(id, NAME)
    {
      if expected {
        DigitsAreNoOperator();
      }
      if IsOperatorName() {
        di := Plain(Lookup(tables.operators, Two()), NAME);
        index := index + 2;
      } else {
        var s := DemangleStringName(id);
        di := Plain(s, NAME);
        assert |Two()| == 2 ==> Two()[0] == name[index];
        if Two() == "ps" || Two() == "pg" {
          di := di.(text := di.text + (if Two() == "ps" then "::set" else "::get"));
          index := index + 2;
        }
      }
    }

    /** The type arguments of a declaration, if there are any. */
    method DemangleDeclGenerics(isClass: bool, ghost wants: seq<Type>, ghost expected: bool) returns (generics: string)
      requires index <= |name|
      requires expected ==> valid && isClass && CharAt(name, index, 'I') && ListAhead(index + 1, wants)
      modifies this
      ensures old(index) <= index <= |name|
      ensures old(Cur()) != 'I' ==> index == old(index) && valid == old(valid) && generics == ""
      ensures expected ==>
                if AllAccepted(wants, tables)
                then valid && index == old(index) + 1 + LenAll(wants) && generics == Angle(Join(ShowAll(wants), ","))
                else !valid && index == |name|
      decreases |name| - index, 4
    {
      generics := "";
      if Cur() == 'I' {
        SkipChar('I');
        var generic := DemangleGenericTypes(wants);
        generics := Angle(generic);
        if !isClass {
          SkipOptionalChar('E');
        }
      }
    }

    /** One name of a nested declaration, with what may follow it. */
    method DemangleNestedName(isClass: bool, ghost id: string, ghost isGeneric: bool, ghost wants: seq<Type>,
                              ghost k: nat, ghost e: nat, ghost expected: bool)
      returns (di: Info, kind: TypeKind, outcome: Outcome)
      requires NotEnd() && (expected ==> valid && isClass && NameAhead(index, id, isGeneric, wants, k, e))
      modifies this
      ensures old(index) < index <= |name| && (outcome.Failed? ==> !valid) && (!outcome.More? ==> index == |name|)
      ensures expected ==>
                outcome.More? && kind == COMMON_DECL &&
                if AllAccepted(wants, tables)
                then valid && index == e && di == Plain(id, NAME).(generics := Angle(Join(ShowAll(wants), ",")))
                else !valid && index == |name|
      decreases |name| - index, 5
    {
      if expected {
        NameHead(index, id, isGeneric, wants, k, e);
      }
      kind := COMMON_DECL;
      di := DemangleDeclName(id, k, expected);
      assert expected ==> valid && index == k;
      if index >= |name| {
        return di, kind, AtEnd;
      }
      SkipLocalCounter();
      if !valid {
        var _ := Reject();
        return di, kind, Failed;
      }
      var generics := DemangleDeclGenerics(isClass, wants, expected && isGeneric);
      di := di.(generics := generics);
      if Cur() == 'H' {
        SkipChar('H');
        kind := FUNCTION_DECL;
        var types := DemangleFunctionParameterTypes([]);
        di := di.(params := types);
        SkipOptionalChar('E');
      }
      outcome := More;
    }

    /** The texts of the names of a nested declaration, the last one with its type arguments. */
    ghost function ScopeTexts(front: seq<string>, id: string, wants: seq<Type>): seq<string> {
      Identifiers(front) + [ShowName(id, wants)]
    }

    /** Plain names from i on, then one with its type arguments at p, and an end mark at e. */
    ghost predicate NestedAhead(i: nat, front: seq<string>, p: nat, id: string, isGeneric: bool, wants: seq<Type>,
                                k: nat, e: nat) {
      NamesAhead(i, front, p) && LastAhead(p, id, isGeneric, wants, k, e)
    }

    ghost predicate LastAhead(p: nat, id: string, isGeneric: bool, wants: seq<Type>, k: nat, e: nat) {
      NameAhead(p, id, isGeneric, wants, k, e) && CharAt(name, e, 'E')
    }

    ghost function NestedText(front: seq<string>, id: string, wants: seq<Type>): string {
      Join(if |front| == MAX_ARGS_SIZE then Identifiers(front) else ScopeTexts(front, id, wants), scope)
    }

    /** i names of a nested declaration have been read. */
    ghost predicate NestedSoFar(front: seq<string>, p: nat, e: nat, i: nat)
      reads this
    {
      valid && i <= |front| + 1 && if i <= |front| then NamesAhead(index, front[i..], p) else index == e
    }

    /** There is a next name as long as not all have been read. */
    lemma NestedNext(front: seq<string>, p: nat, id: string, isGeneric: bool, wants: seq<Type>, k: nat, e: nat, i: nat)
      requires LastAhead(p, id, isGeneric, wants, k, e) && NestedSoFar(front, p, e, i)
      ensures i <= |front| <==> NotEnd()
      ensures i <= |front| ==> NotEndAt(index)
      ensures i == |front| ==> index == p
    {
      NameHead(p, id, isGeneric, wants, k, e);
      if i < |front| {
        NamesHead(index, front[i..], p, index + |EncodeName(front[i])|);
      }
    }

    /** A plain name, and what is left behind it. */
    lemma NestedFront(front: seq<string>, p: nat, i: nat, at: nat)
      requires GoodTables(tables) && i < |front| && NamesAhead(index, front[i..], p) && BeforeName(p)
      requires at == index + |EncodeName(front[i])|
      ensures NameAhead(index, front[i], false, [], at, at) && NamesAhead(at, front[i + 1..], p)
    {
      var rest := front[i..];
      assert rest[1..] == front[i + 1..];
      NamesHead(index, rest, p, at);
    }

    lemma ScopeTextAt(front: seq<string>, id: string, wants: seq<Type>, i: nat)
      requires i <= |front|
      ensures |ScopeTexts(front, id, wants)| == |front| + 1
      ensures ScopeTexts(front, id, wants)[i] == if i < |front| then ShowName(front[i], []) else ShowName(id, wants)
    {
      IdentifiersAt(front);
    }

    /** What the next name is, and where it ends. */
    lemma NestedTarget(front: seq<string>, p: nat, id: string, isGeneric: bool, wants: seq<Type>, k: nat, e: nat,
                       i: nat)
      returns (nextId: string, nextGeneric: bool, nextWants: seq<Type>, nextK: nat, end: nat)
      requires LastAhead(p, id, isGeneric, wants, k, e) && NestedSoFar(front, p, e, i) && NotEnd()
      ensures i <= |front| && NameAhead(index, nextId, nextGeneric, nextWants, nextK, end)
      ensures if i < |front| then NamesAhead(end, front[i + 1..], p) else end == e
      ensures |ScopeTexts(front, id, wants)| == |front| + 1 &&
              ScopeTexts(front, id, wants)[i] == ShowName(nextId, nextWants)
      ensures nextWants == if i < |front| then [] else wants
    {
      NestedNext(front, p, id, isGeneric, wants, k, e, i);
      ScopeTextAt(front, id, wants, i);
      if i < |front| {
        NameHead(p, id, isGeneric, wants, k, e);
        nextK := index + |EncodeName(front[i])|;
        NestedFront(front, p, i, nextK);
        nextId, nextGeneric, nextWants, end := front[i], false, [], nextK;
      } else {
        nextId, nextGeneric, nextWants, nextK, end := id, isGeneric, wants, k, e;
      }
    }

    lemma NestedJoined(front: seq<string>, id: string, wants: seq<Type>, slots: seq<string>, result: string,
                       tail: string)
      requires |front| <= MAX_ARGS_SIZE && |slots| == MAX_ARGS_SIZE
      requires ScopesHeld(slots, result, ScopeTexts(front, id, wants), |front| + 1, scope)
      requires tail == if |front| == MAX_ARGS_SIZE then "" else Join(slots[..|front| + 1], scope)
      ensures result + tail == NestedText(front, id, wants)
    {
      var all := ScopeTexts(front, id, wants);
      IdentifiersAt(front);
      assert all[..|front| + 1] == all;
      assert |front| == MAX_ARGS_SIZE ==> all[..MAX_ARGS_SIZE] == Identifiers(front);
    }

    /** The next name has been read, up to `end`. */
    lemma NestedMoved(front: seq<string>, p: nat, e: nat, i: nat, next: nat, end: nat)
      requires i <= |front| && next == i + 1 && valid && index == end
      requires if i < |front| then NamesAhead(end, front[next..], p) else end == e
      ensures NestedSoFar(front, p, e, next)
    {
    }

    /** One name of a nested declaration, as it is shown. */
    method DemangleScope(isClass: bool, isParamInit: bool, ghost front: seq<string>, ghost p: nat, ghost id: string,
                         ghost isGeneric: bool, ghost wants: seq<Type>, ghost k: nat, ghost e: nat, ghost i: nat,
                         ghost expected: bool)
      returns (text: string, params: string, kind: TypeKind, outcome: Outcome)
      requires NotEnd()
      requires expected ==>
                 isClass && !isParamInit && LastAhead(p, id, isGeneric, wants, k, e) && NestedSoFar(front, p, e, i)
      modifies this
      ensures old(index) < index <= |name| && (outcome.Failed? ==> !valid) && (!outcome.More? ==> index == |name|)
      ensures expected ==> outcome.More? && kind == COMMON_DECL && i <= |front|
      ensures expected ==> (valid <==> i < |front| || AllAccepted(wants, tables)) && (!valid ==> index == |name|)
      ensures expected && valid ==> params == "" && NestedSoFar(front, p, e, i + 1)
      ensures expected && valid ==>
                i < |ScopeTexts(front, id, wants)| == |front| + 1 && text == ScopeTexts(front, id, wants)[i]
      decreases |name| - index, 6
    {
      ghost var next, nextId, nextGeneric, nextWants, nextK, end := i + 1, id, isGeneric, wants, k, e;
      if expected {
        nextId, nextGeneric, nextWants, nextK, end := NestedTarget(front, p, id, isGeneric, wants, k, e, i);
      }
      var cur;
      cur, kind, outcome := DemangleNestedName(isClass, nextId, nextGeneric, nextWants, nextK, end, expected);
      params := cur.params;
      text := FullName(cur, scope);
      if expected && valid {
        NameFull(nextId, Angle(Join(ShowAll(nextWants), ",")), scope);
        NestedMoved(front, p, e, i, next, end);
      }
      if outcome.More? && isParamInit && NotEnd() && params != "" {
        text := text + "(" + params + ")";
      }
    }

    /** The next name goes to the others. */
    method TakeScope(isClass: bool, isParamInit: bool, ghost front: seq<string>, ghost p: nat, ghost id: string,
                     ghost isGeneric: bool, ghost wants: seq<Type>, ghost k: nat, ghost e: nat, ghost expected: bool,
                     arr: array<string>, i: nat, result: string)
      returns (r: string, params: string, kind: TypeKind, outcome: Outcome)
      requires NotEnd() && arr.Length == MAX_ARGS_SIZE
      requires expected ==>
                 isClass && !isParamInit && |front| <= MAX_ARGS_SIZE && LastAhead(p, id, isGeneric, wants, k, e)
      requires expected ==>
                 NestedSoFar(front, p, e, i) && ScopesHeld(arr[..], result, ScopeTexts(front, id, wants), i, scope)
      modifies this, arr
      ensures old(index) < index <= |name| && (!outcome.More? ==> index == |name|)
      ensures expected ==> outcome.More? && kind == COMMON_DECL && i <= |front|
      ensures expected ==> (valid <==> i < |front| || AllAccepted(wants, tables)) && (!valid ==> index == |name|)
      ensures expected && valid ==> params == "" && NestedSoFar(front, p, e, i + 1)
      ensures expected && valid ==> ScopesHeld(arr[..], r, ScopeTexts(front, id, wants), i + 1, scope)
      decreases |name| - index, 7
    {
      var text;
      text, params, kind, outcome := DemangleScope(isClass, isParamInit, front, p, id, isGeneric, wants, k, e, i,
                                                   expected);
      r := result;
      if outcome == AtEnd {
        arr[i % MAX_ARGS_SIZE] := text;
      } else if outcome == More {
        r := HoldScope(arr, i, result, text, scope, ScopeTexts(front, id, wants));
      }
    }

    /** DemangleNestedDecls: names up to an end mark, joined by the scope operator.  Of seventeen, the last is
        dropped. */
    method DemangleNestedDecls(isClass: bool, isParamInit: bool, ghost front: seq<string>, ghost p: nat,
                               ghost id: string, ghost isGeneric: bool, ghost wants: seq<Type>, ghost k: nat,
                               ghost e: nat)
      returns (di: Info)
      requires index <= |name|
      modifies this
      ensures old(index) <= index <= |name|
      ensures old(valid) && isClass && !isParamInit && |front| <= MAX_ARGS_SIZE &&
              NestedAhead(old(index), front, p, id, isGeneric, wants, k, e) ==>
                if AllAccepted(wants, tables) then
                  valid && index == e && di == Plain(NestedText(front, id, wants), COMMON_DECL)
                else !valid
      decreases |name| - index, 8
    {
      ghost var start, accepted, failed := index, AllAccepted(wants, tables), false;
      ghost var expected := valid && isClass && !isParamInit && |front| <= MAX_ARGS_SIZE &&
                            NestedAhead(index, front, p, id, isGeneric, wants, k, e);
      ghost var all := ScopeTexts(front, id, wants);
      IdentifiersAt(front);
      var i, result, kind, params := 0, "", COMMON_DECL, "";
      var arr := new string[MAX_ARGS_SIZE](_ => "");
      while NotEnd()
        invariant start <= index <= |name|
        invariant expected && failed ==> !valid && index == |name| && !accepted
        invariant expected && !failed ==> NestedSoFar(front, p, e, i) && kind == COMMON_DECL && params == ""
        invariant expected && !failed ==> ScopesHeld(arr[..], result, all, i, scope) && (i > |front| ==> accepted)
        decreases |name| - index
      {
        kind := COMMON_DECL;
        if expected {
          NestedNext(front, p, id, isGeneric, wants, k, e, i);
        }
        if Cur() == 'L' || Cur() == 'X' {
          var ok;
          ok, kind := DemangleLambdaOrExtend(arr, i % MAX_ARGS_SIZE);
          if !ok {
            di := Plain(name, NAME);
            return;
          }
          i := i + 1;
          continue;
        }
        var ps, outcome;
        result, ps, kind, outcome := TakeScope(isClass, isParamInit, front, p, id, isGeneric, wants, k, e, expected,
                                               arr, i, result);
        if outcome == Failed {
          di := Reject();
          return;
        }
        i := i + 1;
        if outcome == AtEnd {
          break;
        }
        params, failed := ps, !valid;
      }
      if expected && !failed {
        NestedNext(front, p, id, isGeneric, wants, k, e, i);
      }
      var tail := JoinHeld(arr, i, scope);
      if expected && !failed {
        NestedJoined(front, id, wants, arr[..], result, tail);
      }
      di := Plain(result + tail, kind).(params := params);
    }

    /** A lambda's number, or an extended type, inside a declaration. */
    method DemangleLambdaOrExtend(arr: array<string>, j: nat) returns (ok: bool, kind: TypeKind)
      requires index < |name| && j < arr.Length
      modifies this, arr
      ensures old(index) < index <= |name|
      decreases |name| - index, 4
    {
      var isLambda := Cur() == 'L';
      index := index + 1;
      if isLambda {
        var n := DemangleManglingNumber(0);
        arr[j] := "lambda." + Decimal(n);
        return true, LAMBDA_FUNCTION;
      }
      ok, kind := IsQualifiedType(), COMMON_DECL;
      if !ok {
        var _ := Reject();
        return;
      }
      var cur := DemangleNextUnit(CString);
      arr[j] := Identifier(cur.text);
      if Cur() == 'U' {
        DemangleFileName();
      }
      SkipLocalCounter();
    }

    /** The parts of a declared type's encoding: its package at i + 2, its name at p, its end mark at e. */
    lemma DeclAhead(i: nat, want: Type, pkg: nat) returns (p: nat, k: nat, e: nat)
      requires want.Decl? && Ahead(i, want) && pkg == i + 2
      ensures CharAt(name, i + 1, 'N') && PkgAhead(pkg, want.pkg) && p == pkg + |EncodePkg(want.pkg)|
      ensures NestedAhead(p, [], p, want.name, want.isGeneric, want.generics, k, e) && e + 1 == i + Len(want)
    {
      assert SpellsDecl(name, i, want, tables);
      p := pkg + |EncodePkg(want.pkg)|;
      k := p + |EncodeName(want.name)|;
      e := k + (if want.isGeneric then 1 else 0) + LenAll(want.generics);
      DeclName(want, p, k, e);
      NameHead(p, want.name, want.isGeneric, want.generics, k, e);
    }

    lemma DeclName(want: Type, p: nat, k: nat, e: nat)
      requires want.Decl? && GoodTables(tables) && PlainName(want.name) && Starts(name, p, EncodeName(want.name))
      requires k == p + |EncodeName(want.name)| && e == k + (if want.isGeneric then 1 else 0) + LenAll(want.generics)
      requires if want.isGeneric then CharAt(name, k, 'I') && SpellsAll(name, k + 1, want.generics, tables)
               else want.generics == [] && CharAt(name, k, 'E')
      ensures LastAhead(p, want.name, want.isGeneric, want.generics, k, e)
    {
      if want.isGeneric {
        ListEnd(name, k + 1, want.generics, tables);
      }
    }

    lemma NameShown(want: Type, text: string)
      requires want.Decl? && text == NestedText([], want.name, want.generics)
      ensures text == ShowName(want.name, want.generics)
      ensures Accepted(want, tables) <==> AllAccepted(want.generics, tables) && text != ""
    {
      assert ScopeTexts([], want.name, want.generics) == [ShowName(want.name, want.generics)];
      ShownAnyScope(want.name, want.generics, scope, tables);
    }

    /** DemangleCommonDecl, one character into a type or at the start of a declaration. */
    method DemangleCommonDecl(isClass: bool, ghost want: Type, ghost p: nat, ghost k: nat, ghost e: nat,
                              ghost expected: bool)
      returns (di: Info)
      requires index <= |name|
      requires expected ==> valid && isClass && want.Decl? && CharAt(name, index, 'N') && PkgAhead(index + 1, want.pkg)
      requires expected ==>
                 p == index + 1 + |EncodePkg(want.pkg)| &&
                 NestedAhead(p, [], p, want.name, want.isGeneric, want.generics, k, e)
      modifies this
      ensures old(index) <= index <= |name|
      ensures expected ==> (valid <==> Accepted(want, tables))
      ensures expected && valid ==> index == e
      ensures expected && valid ==>
                di == Plain(ShowName(want.name, want.generics), COMMON_DECL).(pkg := PkgText(want.pkg, tables))
      decreases |name| - index, 9
    {
      ghost var d := if want.Decl? then want else Decl(Class, NoPkg, "", false, []);
      if expected {
        NameShown(want, NestedText([], want.name, want.generics));
      }
      var isInit := Cur() != 'N';
      if isInit {
        SkipString("GV");
      } else {
        SkipChar('N');
      }
      if !valid {
        di := Reject();
        return;
      }
      var pkg := DemanglePackageName(d.pkg, expected);
      di := DemangleNestedDecls(isClass, false, [], p, d.name, d.isGeneric, d.generics, k, e);
      di := di.(pkg := pkg);
      if !valid || di.text == "" {
        di := Reject();
        return;
      }
      if di.kind == FUNCTION_DECL {
        di := di.(args := di.params);
      }
      if isInit {
        di := di.(kind := COMMON_DECL);
      }
    }

    method DemangleClass(kind: TypeKind, ghost want: Type) returns (di: Info)
      requires index < |name| && kind in {CLASS, STRUCT, ENUM}
      modifies this
      ensures old(index) < index <= |name|
      ensures old(valid) && want.Decl? && Ahead(old(index), want) ==> Answered(old(index), want, index, di, valid)
      decreases |name| - index, 0
    {
      ghost var i, expected := index, valid && want.Decl? && Ahead(index, want);
      ghost var p, k, e := 0, 0, 0;
      if expected {
        p, k, e := DeclAhead(i, want, i + 2);
      }
      index := index + 1;
      di := DemangleCommonDecl(true, want, p, k, e, expected);
      di := di.(kind := kind);
      if expected {
        DeclGot(i, want, e, kind);
      }
      if Cur() == 'E' {
        SkipChar('E');
      }
    }

    lemma DeclGot(i: nat, want: Type, e: nat, kind: TypeKind)
      requires want.Decl? && kind in {CLASS, STRUCT, ENUM} && e + 1 == i + Len(want)
      ensures Got(i, want, e + 1, Plain(ShowName(want.name, want.generics), kind).(pkg := PkgText(want.pkg, tables)))
    {
    }
  }
}
