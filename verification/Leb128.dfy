/** The variable-length integers of the exception tables (section 7.6 of DWARF 5), as the table reader
    decodes them. */
module Leb128 {
  import opened Streams

  const TWO64 := 0x1_0000_0000_0000_0000
  const TWO63 := 0x8000_0000_0000_0000

  // ---------------------------------------------------------------- encodings

  function EncodeU(v: nat): seq<byte> {
    if v < 128 then [v] else [v % 128 + 128] + EncodeU(v / 128)
  }

  function EncodeS(v: int): seq<byte>
    decreases if v < 0 then -v else v
  {
    if -64 <= v < 64 then [v % 128] else [v % 128 + 128] + EncodeS(v / 128)
  }

  /** An encoding of n bytes starts at pos: the first n - 1 have the high bit set, the last has not. */
  ghost predicate Encoded(data: seq<byte>, pos: nat, n: nat)
    ensures Encoded(data, pos, n) ==> pos + n <= |data|
    decreases n
  {
    n > 0 && pos < |data| && if data[pos] < 128 then n == 1 else Encoded(data, pos + 1, n - 1)
  }

  /** The number an encoding stands for, unsigned and signed. */
  ghost function ValueU(data: seq<byte>, pos: nat, n: nat): nat
    requires Encoded(data, pos, n)
    decreases n
  {
    if n == 1 then data[pos] else data[pos] - 128 + 128 * ValueU(data, pos + 1, n - 1)
  }

  ghost function ValueS(data: seq<byte>, pos: nat, n: nat): int
    requires Encoded(data, pos, n)
    decreases n
  {
    if n == 1 then (if data[pos] < 64 then data[pos] else data[pos] - 128)
    else data[pos] - 128 + 128 * ValueS(data, pos + 1, n - 1)
  }

  lemma AtRest(data: seq<byte>, pos: nat, bytes: seq<byte>)
    requires At(data, pos, bytes) && bytes != []
    ensures pos < |data| && data[pos] == bytes[0] && At(data, pos + 1, bytes[1..])
  {
    assert data[pos] == data[pos..pos + |bytes|][0];
    assert data[pos + 1..pos + |bytes|] == data[pos..pos + |bytes|][1..];
  }

  lemma {:induction false} EncodedU(data: seq<byte>, pos: nat, v: nat)
    requires At(data, pos, EncodeU(v))
    ensures Encoded(data, pos, |EncodeU(v)|) && ValueU(data, pos, |EncodeU(v)|) == v
    decreases v
  {
    AtRest(data, pos, EncodeU(v));
    if v >= 128 {
      assert EncodeU(v)[1..] == EncodeU(v / 128);
      EncodedU(data, pos + 1, v / 128);
    }
  }

  lemma {:induction false} EncodedS(data: seq<byte>, pos: nat, v: int)
    requires At(data, pos, EncodeS(v))
    ensures Encoded(data, pos, |EncodeS(v)|) && ValueS(data, pos, |EncodeS(v)|) == v
    decreases if v < 0 then -v else v
  {
    AtRest(data, pos, EncodeS(v));
    if !(-64 <= v < 64) {
      assert EncodeS(v)[1..] == EncodeS(v / 128);
      EncodedS(data, pos + 1, v / 128);
    }
  }

  /** x times 128 to the k. */
  function Digit(k: nat, x: nat): (d: nat)
    ensures x > 0 ==> d > 0
  {
    if k == 0 then x else 128 * Digit(k - 1, x)
  }

  function Scale(k: nat): (s: nat)
    ensures s > 0
  {
    Digit(k, 1)
  }

  lemma {:induction false} DigitSum(k: nat, x: nat, y: nat)
    ensures Digit(k, x + y) == Digit(k, x) + Digit(k, y)
  {
    if k > 0 {
      DigitSum(k - 1, x, y);
    }
  }

  lemma {:induction false} DigitUp(k: nat, x: nat)
    ensures Digit(k, 128 * x) == Digit(k + 1, x)
  {
    if k > 0 {
      DigitUp(k - 1, x);
    }
  }

  lemma {:induction false} DigitRoom(k: nat, x: nat)
    requires x < 128
    ensures Digit(k, x) + Scale(k) <= Scale(k + 1)
  {
    if k > 0 {
      DigitRoom(k - 1, x);
    }
  }

  lemma {:induction false} LengthU(v: nat, k: nat)
    requires v < Scale(k) && k > 0
    ensures 0 < |EncodeU(v)| <= k
  {
    if v >= 128 {
      assert k > 1 && v / 128 < Scale(k - 1);
      LengthU(v / 128, k - 1);
    }
  }

  lemma {:induction false} LengthS(v: int, k: nat)
    requires k > 0 && -64 * Scale(k - 1) <= v < 64 * Scale(k - 1)
    ensures 0 < |EncodeS(v)| <= k
    decreases k
  {
    if !(-64 <= v < 64) {
      assert k > 1;
      assert Scale(k - 1) == 128 * Scale(k - 2);
      LengthS(v / 128, k - 1);
    }
  }

  // ---------------------------------------------------------------- the unsigned reader

  const TWO31 := 0x8000_0000
  const TWO32 := 0x1_0000_0000

  /** Seven bits shifted left by 7 * k as a 32-bit int, then widened to 64 bits. */
  function IntShift(x: nat, k: nat): nat
    requires x < 128 && k < 5
  {
    var w := Digit(k, x) % TWO32;
    if w < TWO31 then w else w + TWO64 - TWO32
  }

  lemma SmallScales()
    ensures Scale(0) == 1 && Scale(1) == 128 && Scale(2) == 0x4000 && Scale(3) == 0x20_0000 && Scale(4) == 0x1000_0000
  {
  }

  lemma ShiftExact(x: nat, k: nat)
    requires x < 128 && k < 4
    ensures IntShift(x, k) == Digit(k, x)
  {
    SmallScales();
    DigitRoom(k, x);
  }

  lemma FifthShift(x: nat, low: nat)
    requires x < 128 && low < Scale(4)
    ensures low + IntShift(x, 4) == low + Digit(4, x) <==> low + Digit(4, x) < TWO31
  {
    SmallScales();
    assert Digit(1, x) == 128 * x && Digit(2, x) == 0x4000 * x;
    assert Digit(3, x) == 0x20_0000 * x && Digit(4, x) == 0x1000_0000 * x;
  }

  /** After k bytes, `value` holds their digits and the others are still to come. */
  ghost predicate ReadSoFar(data: seq<byte>, pos: nat, n: nat, k: nat, value: nat, v: nat) {
    k < n && Encoded(data, pos + k, n - k) && value < Scale(k) && v == value + Digit(k, ValueU(data, pos + k, n - k))
  }

  lemma AddDigit(data: seq<byte>, pos: nat, n: nat, k: nat, value: nat, v: nat)
    requires ReadSoFar(data, pos, n, k, value, v) && data[pos + k] >= 128
    ensures ReadSoFar(data, pos, n, k + 1, value + Digit(k, data[pos + k] - 128), v)
  {
    var x, rest := data[pos + k] - 128, ValueU(data, pos + k + 1, n - k - 1);
    assert pos + k + 1 == pos + (k + 1) && n - k - 1 == n - (k + 1);
    DigitRoom(k, x);
    DigitSum(k, x, 128 * rest);
    DigitUp(k, rest);
  }

  /** EHTable::ReadULEB128, on encodings of up to five bytes; beyond, the shift is undefined.  The bits
      joined never overlap, so joining is addition.  The shift is done on an int, so the value read is
      the one encoded exactly when it is below 2^31. */
  method ReadULEB128(data: seq<byte>, pos: nat, ghost n: nat) returns (value: nat, pos': nat)
    requires n <= 5 && Encoded(data, pos, n)
    ensures pos' == pos + n
    ensures value == ValueU(data, pos, n) <==> ValueU(data, pos, n) < TWO31
  {
    ghost var v := ValueU(data, pos, n);
    value := 0;
    var k := 0;
    while data[pos + k] >= 128
      invariant ReadSoFar(data, pos, n, k, value, v)
      decreases n - k
    {
      AddDigit(data, pos, n, k, value, v);
      ShiftExact(data[pos + k] - 128, k);
      value := value + IntShift(data[pos + k] - 128, k);
      k := k + 1;
    }
    var x := data[pos + k];
    if k < 4 {
      ShiftExact(x, k);
      BelowScale4(value, x, k);
    } else {
      FifthShift(x, value);
    }
    value := value + IntShift(x, k);
    pos' := pos + k + 1;
  }

  lemma BelowScale4(value: nat, x: nat, k: nat)
    requires k < 4 && value < Scale(k) && x < 128
    ensures value + Digit(k, x) < TWO31
  {
    SmallScales();
    DigitRoom(k, x);
  }

  /** What was encoded below 2^31 is read back, with the cursor just past it. */
  method ReadBackU(data: seq<byte>, pos: nat, ghost v: nat) returns (value: nat, pos': nat)
    requires v < TWO31 && At(data, pos, EncodeU(v))
    ensures value == v && pos' == pos + |EncodeU(v)|
  {
    EncodedU(data, pos, v);
    SmallScales();
    assert Scale(5) == 128 * Scale(4);
    LengthU(v, 5);
    value, pos' := ReadULEB128(data, pos, |EncodeU(v)|);
  }

  // ---------------------------------------------------------------- the signed reader

  function ToInt64(x: nat): int
    requires x < TWO64
  {
    if x < TWO63 then x else x - TWO64
  }

  /** The two's complement reading of the low 64 bits of any integer. */
  ghost function Wrap64(v: int): int {
    ToInt64(v % TWO64)
  }

  lemma {:induction false} SignedFromUnsigned(data: seq<byte>, pos: nat, n: nat)
    requires Encoded(data, pos, n)
    ensures ValueS(data, pos, n) == ValueU(data, pos, n) - if data[pos + n - 1] >= 64 then Scale(n) else 0
    ensures ValueU(data, pos, n) < Scale(n)
    decreases n
  {
    if n > 1 {
      SignedFromUnsigned(data, pos + 1, n - 1);
    }
  }

  /** u is the low 64 bits of `full`. */
  ghost predicate IsLow64(u: nat, full: nat) {
    u == full % TWO64
  }

  method Add64(u: nat, d: nat, ghost full: nat) returns (u': nat)
    requires IsLow64(u, full)
    ensures IsLow64(u', full + d)
  {
    u' := (u + d) % TWO64;
  }

  lemma LargeScales()
    ensures Scale(9) == TWO63 && Scale(10) == 64 * TWO64
  {
    SmallScales();
    assert Scale(5) == 0x8_0000_0000 && Scale(6) == 0x400_0000_0000;
    assert Scale(7) == 0x2_0000_0000_0000 && Scale(8) == 0x100_0000_0000_0000;
  }

  lemma {:induction false} ScalesGrow(i: nat, j: nat)
    requires i <= j
    ensures Scale(i) <= Scale(j)
  {
    if i < j {
      ScalesGrow(i, j - 1);
    }
  }

  /** The sign extension turns the unsigned reading into the signed one. */
  lemma SignExtension(full: nat, n: nat, negative: bool)
    requires 0 < n <= 10 && full < Scale(n)
    ensures var u := full % TWO64;
            var e := if n < 10 && negative then u + TWO64 - Scale(n) else u;
            Scale(if n < 10 then n else 0) <= TWO64 && 0 <= e < TWO64 &&
            ToInt64(e) == Wrap64(full - if negative then Scale(n) else 0)
  {
    LargeScales();
    if n < 10 {
      ScalesGrow(n, 9);
      SmallMod(full);
      if negative {
        SmallMod(full - Scale(n) + TWO64);
        assert (full - Scale(n)) % TWO64 == (full - Scale(n) + TWO64) % TWO64;
      }
    }
  }

  lemma SmallMod(x: nat)
    requires x < TWO64
    ensures x % TWO64 == x
  {
  }

  /** The loop of ReadSLEB128. */
  method ReadDigits(data: seq<byte>, pos: nat, ghost n: nat) returns (u: nat, k: nat)
    requires Encoded(data, pos, n)
    ensures k == n && IsLow64(u, ValueU(data, pos, n))
  {
    ghost var v := ValueU(data, pos, n);
    ghost var full: nat := 0;
    u, k := 0, 0;
    while data[pos + k] >= 128
      invariant ReadSoFar(data, pos, n, k, full, v) && IsLow64(u, full)
      decreases n - k
    {
      var d := Digit(k, data[pos + k] - 128);
      AddDigit(data, pos, n, k, full, v);
      u := Add64(u, d, full);
      full := full + d;
      k := k + 1;
    }
    var d := Digit(k, data[pos + k]);
    u := Add64(u, d, full);
    k := k + 1;
  }

  /** EHTable::ReadSLEB128 (the branch for systems other than Apple's), on encodings of up to ten bytes.
      It does not move the cursor: the offset it reads is relative to where the offset stands. */
  method ReadSLEB128(data: seq<byte>, pos: nat, ghost n: nat) returns (value: int)
    requires n <= 10 && Encoded(data, pos, n)
    ensures value == Wrap64(ValueS(data, pos, n))
  {
    SignedFromUnsigned(data, pos, n);
    var u, k := ReadDigits(data, pos, n);
    value := Extend(u, k, data[pos + k - 1], ValueU(data, pos, n));
  }

  method Extend(u: nat, k: nat, last: byte, ghost v: nat) returns (value: int)
    requires 0 < k <= 10 && v < Scale(k) && IsLow64(u, v)
    ensures value == Wrap64(v - if last >= 64 then Scale(k) else 0)
  {
    SignExtension(v, k, last >= 64);
    if 7 * k < 64 && last >= 64 {
      value := ToInt64(u + TWO64 - Scale(k));
    } else {
      value := ToInt64(u);
    }
  }

  /** Every 64-bit value is read back from its encoding. */
  method ReadBackS(data: seq<byte>, pos: nat, ghost v: int) returns (value: int)
    requires -TWO63 <= v < TWO63 && At(data, pos, EncodeS(v))
    ensures value == v
  {
    EncodedS(data, pos, v);
    LargeScales();
    LengthS(v, 10);
    value := ReadSLEB128(data, pos, |EncodeS(v)|);
    WrapInRange(v);
  }

  lemma WrapInRange(v: int)
    requires -TWO63 <= v < TWO63
    ensures Wrap64(v) == v
  {
    if v < 0 {
      SmallMod(v + TWO64);
      assert v % TWO64 == (v + TWO64) % TWO64;
    }
  }
}
