/** The stack maps' variable-length integers: a tag of four bits and up to eight nibbles of payload, packed
    without regard to byte boundaries. */
module VarIntStream {
  import opened Streams

  const MAX_VALID_VALUE := 11

  type nibble = x: int | 0 <= x < 16

  /** The stream as nibbles, low half of each byte first. */
  ghost predicate AsNibbles(data: seq<byte>, nibs: seq<nibble>) {
    |nibs| == 2 * |data| && forall i :: 0 <= i < |data| ==> ByteAt(data, nibs, i)
  }

  predicate ByteAt(data: seq<byte>, nibs: seq<nibble>, i: nat)
    requires i < |data| && |nibs| == 2 * |data|
  {
    data[i] == (nibs[2 * i] as int) + 16 * (nibs[2 * i + 1] as int)
  }

  /** The little-endian value of n nibbles. */
  ghost function Nibbles(nibs: seq<nibble>, c: nat, n: nat): nat
    requires c + n <= |nibs|
    decreases n
  {
    if n == 0 then 0 else nibs[c] + 16 * Nibbles(nibs, c + 1, n - 1)
  }

  /** How many nibbles of payload a tag announces. */
  function Payload(tag: nat): nat {
    if tag <= MAX_VALID_VALUE then 0
    else if tag == 12 then 2
    else if tag == 13 then 4
    else if tag == 14 then 6
    else 8
  }

  /** x times 16 to the k. */
  function Lift(k: nat, x: nat): nat {
    if k == 0 then x else 16 * Lift(k - 1, x)
  }

  lemma {:induction false} SplitNibbles(nibs: seq<nibble>, c: nat, k: nat, m: nat)
    requires k <= m && c + m <= |nibs|
    ensures Nibbles(nibs, c, m) == Nibbles(nibs, c, k) + Lift(k, Nibbles(nibs, c + k, m - k))
    ensures Nibbles(nibs, c, k) < Lift(k, 1)
    decreases k
  {
    if k > 0 {
      SplitNibbles(nibs, c + 1, k - 1, m - 1);
    }
  }

  // ---------------------------------------------------------------- reading through a 64-bit word

  /** The little-endian value of n bytes. */
  function Word(data: seq<byte>, addr: nat, n: nat): nat
    requires addr + n <= |data|
    decreases n
  {
    if n == 0 then 0 else data[addr] + 256 * Word(data, addr + 1, n - 1)
  }

  lemma {:induction false} WordIsNibbles(data: seq<byte>, nibs: seq<nibble>, addr: nat, c: nat, n: nat)
    requires AsNibbles(data, nibs) && addr + n <= |data| && c == 2 * addr
    ensures Word(data, addr, n) == Nibbles(nibs, c, 2 * n)
    decreases n
  {
    if n > 0 {
      WordIsNibbles(data, nibs, addr + 1, c + 2, n - 1);
      assert ByteAt(data, nibs, addr);
      assert Nibbles(nibs, c + 1, 2 * n - 1) == nibs[c + 1] + 16 * Nibbles(nibs, c + 2, 2 * n - 2);
    }
  }

  /** 2 to the power of 4 * w, for the payload sizes. */
  function Mask(w: nat): nat {
    if w == 2 then 0x100 else if w == 4 then 0x1_0000 else if w == 6 then 0x100_0000 else 0x1_0000_0000
  }

  lemma LiftIsMask(w: nat, x: nat)
    requires w == 2 || w == 4 || w == 6 || w == 8
    ensures Lift(w, x) == Mask(w) * x
  {
    var l1, l2 := 16 * x, 0x100 * x;
    assert Lift(1, x) == l1 && Lift(2, x) == l2;
    var l3, l4 := 16 * l2, 0x100 * l2;
    assert Lift(3, x) == l3 && Lift(4, x) == l4;
    var l5, l6 := 16 * l4, 0x100 * l4;
    assert Lift(5, x) == l5 && Lift(6, x) == l6;
    var l7, l8 := 16 * l6, 0x100 * l6;
    assert Lift(7, x) == l7 && Lift(8, x) == l8;
  }

  lemma TakeLow8(low: nat, x: nat)
    requires low < 0x100
    ensures (low + 0x100 * x) % 0x100 == low
  {
  }

  lemma TakeLow16(low: nat, x: nat)
    requires low < 0x1_0000
    ensures (low + 0x1_0000 * x) % 0x1_0000 == low
  {
  }

  lemma TakeLow24(low: nat, x: nat)
    requires low < 0x100_0000
    ensures (low + 0x100_0000 * x) % 0x100_0000 == low
  {
  }

  lemma TakeLow32(low: nat, x: nat)
    requires low < 0x1_0000_0000
    ensures (low + 0x1_0000_0000 * x) % 0x1_0000_0000 == low
  {
  }

  lemma TakeLow(low: nat, x: nat, w: nat)
    requires (w == 2 || w == 4 || w == 6 || w == 8) && low < Mask(w)
    ensures (low + Mask(w) * x) % Mask(w) == low
  {
    if w == 2 {
      TakeLow8(low, x);
    } else if w == 4 {
      TakeLow16(low, x);
    } else if w == 6 {
      TakeLow24(low, x);
    } else {
      TakeLow32(low, x);
    }
  }

  lemma MaskTakes(nibs: seq<nibble>, c: nat, w: nat, m: nat)
    requires (w == 2 || w == 4 || w == 6 || w == 8) && w <= m && c + m <= |nibs|
    ensures Nibbles(nibs, c, m) % Mask(w) == Nibbles(nibs, c, w)
  {
    var low, x := Nibbles(nibs, c, w), Nibbles(nibs, c + w, m - w);
    SplitNibbles(nibs, c, w, m);
    LiftIsMask(w, x);
    LiftIsMask(w, 1);
    TakeLow(low, x, w);
  }

  lemma DropNibble(nibs: seq<nibble>, c: nat, m: nat)
    requires m > 0 && c + m <= |nibs|
    ensures Nibbles(nibs, c, m) / 16 == Nibbles(nibs, c + 1, m - 1)
  {
  }

  /** EhFrameInfo::ReadVarInt.  The address and the half-byte flag are together one nibble cursor c: the tag
      and its payload are read at the cursor, and the cursor ends just past them.  A payload is taken out
      of a 64-bit load, so eight bytes must be readable. */
  method ReadVarInt(data: seq<byte>, addr: nat, validPos: nat, ghost nibs: seq<nibble>, ghost c: nat)
    returns (res: nat, addr': nat, validPos': nat)
    requires validPos <= 1 && addr < |data| && AsNibbles(data, nibs) && c == 2 * addr + validPos
    requires nibs[c] > MAX_VALID_VALUE ==> addr + validPos + 8 <= |data|
    ensures validPos' <= 1 && 2 * addr' + validPos' == c + 1 + Payload(nibs[c])
    ensures res == if nibs[c] <= MAX_VALID_VALUE then nibs[c] else Nibbles(nibs, c + 1, Payload(nibs[c]))
  {
    assert ByteAt(data, nibs, addr);
    res := if validPos == 0 then data[addr] % 16 else data[addr] / 16 % 16;
    addr' := if validPos == 1 then addr + 1 else addr;
    validPos' := if validPos == 1 then 0 else 1;
    if res <= MAX_VALID_VALUE {
      return;
    }
    var w := Payload(res);
    res := ReadPayload(data, addr', validPos', w, nibs, c + 1);
    addr' := addr' + w / 2;
  }

  method ReadPayload(data: seq<byte>, addr: nat, validPos: nat, w: nat, ghost nibs: seq<nibble>, ghost c: nat)
    returns (res: nat)
    requires validPos <= 1 && addr + 8 <= |data| && (w == 2 || w == 4 || w == 6 || w == 8)
    requires AsNibbles(data, nibs) && c == 2 * addr + validPos
    ensures res == Nibbles(nibs, c, w)
  {
    ghost var even := 2 * addr;
    WordIsNibbles(data, nibs, addr, even, 8);
    var word := Word(data, addr, 8);
    if validPos == 1 {
      DropNibble(nibs, even, 16);
      word := word / 16;
    }
    MaskTakes(nibs, c, w, 16 - validPos);
    res := word % Mask(w);
  }

  // ---------------------------------------------------------------- the stream decodes what was encoded

  /** A value and the payload size it is written with. */
  datatype Item = Item(value: nat, w: nat)

  predicate Fits(x: Item) {
    if x.w == 0 then x.value <= MAX_VALID_VALUE
    else (x.w == 2 || x.w == 4 || x.w == 6 || x.w == 8) && x.value < Mask(x.w)
  }

  function Digits(v: nat, w: nat): seq<nibble>
    decreases w
  {
    if w == 0 then [] else [v % 16] + Digits(v / 16, w - 1)
  }

  function Tag(w: nat): nibble {
    if w == 2 then 12 else if w == 4 then 13 else if w == 6 then 14 else 15
  }

  function EncodeItem(x: Item): seq<nibble>
    requires Fits(x)
  {
    if x.w == 0 then [x.value] else [Tag(x.w)] + Digits(x.value, x.w)
  }

  predicate AllFit(xs: seq<Item>) {
    forall i :: 0 <= i < |xs| ==> Fits(xs[i])
  }

  function EncodeItems(xs: seq<Item>): seq<nibble>
    requires AllFit(xs)
  {
    if xs == [] then [] else EncodeItem(xs[0]) + EncodeItems(xs[1..])
  }

  function Values(xs: seq<Item>): seq<nat> {
    if xs == [] then [] else [xs[0].value] + Values(xs[1..])
  }

  lemma {:induction false} DigitsRead(nibs: seq<nibble>, c: nat, v: nat, w: nat)
    requires v < Lift(w, 1) && At(nibs, c, Digits(v, w))
    ensures |Digits(v, w)| == w && Nibbles(nibs, c, w) == v
    decreases w
  {
    if w > 0 {
      AtParts(nibs, c, [v % 16], Digits(v / 16, w - 1));
      DigitsRead(nibs, c + 1, v / 16, w - 1);
      assert nibs[c] == nibs[c..c + 1][0];
    }
  }

  lemma ItemRead(nibs: seq<nibble>, c: nat, x: Item)
    requires Fits(x) && At(nibs, c, EncodeItem(x))
    ensures c < |nibs| && Payload(nibs[c]) == x.w && |EncodeItem(x)| == 1 + x.w
    ensures x.w == 0 ==> nibs[c] == x.value <= MAX_VALID_VALUE
    ensures x.w > 0 ==> nibs[c] > MAX_VALID_VALUE && c + 1 + x.w <= |nibs| && Nibbles(nibs, c + 1, x.w) == x.value
  {
    assert nibs[c] == nibs[c..c + |EncodeItem(x)|][0] == EncodeItem(x)[0];
    if x.w > 0 {
      AtParts(nibs, c, [Tag(x.w)], Digits(x.value, x.w));
      LiftIsMask(x.w, 1);
      DigitsRead(nibs, c + 1, x.value, x.w);
    }
  }

  /** The encoded items stand at the cursor, with enough behind them for a 64-bit load. */
  ghost predicate Ahead(nibs: seq<nibble>, c: nat, xs: seq<Item>) {
    AllFit(xs) && At(nibs, c, EncodeItems(xs)) && c + |EncodeItems(xs)| + 16 <= |nibs|
  }

  lemma NextItem(nibs: seq<nibble>, c: nat, xs: seq<Item>)
    requires Ahead(nibs, c, xs) && xs != []
    ensures c + 17 <= |nibs| && Ahead(nibs, c + 1 + Payload(nibs[c]), xs[1..])
    ensures xs[0].value == if nibs[c] <= MAX_VALID_VALUE then nibs[c] else Nibbles(nibs, c + 1, Payload(nibs[c]))
  {
    AtParts(nibs, c, EncodeItem(xs[0]), EncodeItems(xs[1..]));
    ItemRead(nibs, c, xs[0]);
  }

  /** Reading from the cursor on gives the items' values one after the other. */
  ghost predicate Reads(nibs: seq<nibble>, c: nat, xs: seq<Item>)
    decreases |xs|
  {
    xs != [] ==>
      && c + 17 <= |nibs|
      && xs[0].value == (if nibs[c] <= MAX_VALID_VALUE then nibs[c] else Nibbles(nibs, c + 1, Payload(nibs[c])))
      && Reads(nibs, c + 1 + Payload(nibs[c]), xs[1..])
  }

  lemma ReadsFirst(nibs: seq<nibble>, c: nat, xs: seq<Item>, next: nat, rest: seq<Item>)
    requires xs != [] && c + 17 <= |nibs| && next == c + 1 + Payload(nibs[c]) && rest == xs[1..] &&
             Reads(nibs, next, rest)
    requires xs[0].value == if nibs[c] <= MAX_VALID_VALUE then nibs[c] else Nibbles(nibs, c + 1, Payload(nibs[c]))
    ensures Reads(nibs, c, xs)
  {
  }

  lemma {:induction false} AheadReads(nibs: seq<nibble>, c: nat, xs: seq<Item>)
    requires Ahead(nibs, c, xs)
    ensures Reads(nibs, c, xs)
    decreases |xs|
  {
    if xs != [] {
      NextItem(nibs, c, xs);
      var next, rest := c + 1 + Payload(nibs[c]), xs[1..];
      AheadReads(nibs, next, rest);
      ReadsFirst(nibs, c, xs, next, rest);
    }
  }

  lemma NextValue(values: seq<nat>, xs: seq<Item>)
    requires xs != []
    ensures values + Values(xs) == values + [xs[0].value] + Values(xs[1..])
  {
  }

  /** Any sequence of encoded values, from either half of the first byte, is read back in order. */
  method ReadItems(data: seq<byte>, addr: nat, validPos: nat, n: nat, ghost nibs: seq<nibble>, ghost xs: seq<Item>)
    returns (values: seq<nat>)
    requires validPos <= 1 && |xs| == n && AsNibbles(data, nibs) && Ahead(nibs, 2 * addr + validPos, xs)
    ensures values == Values(xs)
  {
    values := [];
    var a: nat, p: nat := addr, validPos;
    ghost var c: nat, rest := 2 * a + p, xs;
    AheadReads(nibs, c, xs);
    for i := 0 to n
      invariant p <= 1 && c == 2 * a + p && |rest| == n - i && Reads(nibs, c, rest)
      invariant values + Values(rest) == Values(xs)
    {
      NextValue(values, rest);
      var v;
      v, a, p := ReadVarInt(data, a, p, nibs, c);
      c := 2 * a + p;
      values := values + [v];
      rest := rest[1..];
    }
  }
}
