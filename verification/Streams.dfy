/** Pieces of a stream of bytes or nibbles. */
module Streams {

  type byte = x: int | 0 <= x < 256

  /** This part stands in the stream at the position. */
  ghost predicate At<T>(data: seq<T>, pos: nat, part: seq<T>) {
    pos + |part| <= |data| && data[pos..pos + |part|] == part
  }

  lemma AtParts<T>(data: seq<T>, pos: nat, a: seq<T>, b: seq<T>)
    requires At(data, pos, a + b)
    ensures At(data, pos, a) && At(data, pos + |a|, b)
  {
    var whole := data[pos..pos + |a + b|];
    assert data[pos..pos + |a|] == whole[..|a|] == a;
    assert data[pos + |a|..pos + |a| + |b|] == whole[|a|..] == b;
  }
}
