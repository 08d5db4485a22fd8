/** The numbers in mangled names. */
module MangledNumbers {
  import opened MangledTypes
  import opened MangledText

  /** The run of digits from position i. */
  function DigitRun(s: string, i: nat): (n: nat)
    ensures i <= |s| ==> i + n <= |s|
    decreases |s| - i
  {
    if i < |s| && IsDigit(s[i]) then 1 + DigitRun(s, i + 1) else 0
  }

  lemma {:induction false} DigitRunIs(s: string, i: nat, digits: string)
    requires Starts(s, i, digits) && forall k :: 0 <= k < |digits| ==> IsDigit(digits[k])
    requires i + |digits| < |s| && !IsDigit(s[i + |digits|])
    ensures DigitRun(s, i) == |digits|
    decreases |digits|
  {
    if digits != [] {
      StartsChar(s, i, digits, 0);
      assert digits == digits[..1] + digits[1..];
      StartsParts(s, i, digits[..1], digits[1..]);
      DigitRunIs(s, i + 1, digits[1..]);
    }
  }

  lemma NameLength(s: string, i: nat, want: string, digits: string, k: nat)
    requires PlainName(want) && Starts(s, i, EncodeName(want)) && digits == Decimal(|want|) && k == i + |digits|
    ensures i < |s| && s[i] != '0' && DigitRun(s, i) == |digits| && k + |want| <= |s|
    ensures s[i..k] == digits && Atoi(digits) == |want| && s[k..k + |want|] == want
  {
    StartsParts(s, i, digits, want);
    StartsChar(s, i, digits, 0);
    StartsChar(s, k, want, 0);
    DigitRunIs(s, i, digits);
    AtoiDecimal(|want|);
  }

  /** The first underscore from position i on, or the end. */
  function Underscore(s: string, i: nat): (p: nat)
    ensures i <= |s| ==> i <= p <= |s|
    decreases |s| - i
  {
    if i >= |s| then |s| else if s[i] == '_' then i else Underscore(s, i + 1)
  }

  lemma {:induction false} UnderscoreIs(s: string, i: nat, digits: string)
    requires Starts(s, i, digits) && forall k :: 0 <= k < |digits| ==> digits[k] != '_'
    requires i + |digits| < |s| && s[i + |digits|] == '_'
    ensures Underscore(s, i) == i + |digits|
    decreases |digits|
  {
    if digits != [] {
      StartsChar(s, i, digits, 0);
      assert digits == digits[..1] + digits[1..];
      StartsParts(s, i, digits[..1], digits[1..]);
      UnderscoreIs(s, i + 1, digits[1..]);
    }
  }

  lemma UpToUnderscore(s: string, i: nat, want: nat, digits: string, stop: nat)
    requires Starts(s, i, Number(want)) && digits == NumberDigits(want) && stop == i + |digits|
    ensures stop < |s| && Underscore(s, i) == stop && s[i..stop] == digits && stop + 1 == i + |Number(want)|
    ensures if want == 0 then digits == "" else digits != "" && ValueOf(digits) == want - 1 && AllDigits(digits)
  {
    StartsParts(s, i, digits, "_");
    StartsChar(s, stop, "_", 0);
    UnderscoreIs(s, i, digits);
    if want > 0 {
      ValueOfBase62(want - 1);
    }
  }

  predicate AllDigits(s: string) {
    forall i :: 0 <= i < |s| ==> DigitOf(s[i]) < 63
  }

  /** x times 62 to the k. */
  ghost function Lift(k: nat, x: nat): nat {
    if k == 0 then x else 62 * Lift(k - 1, x)
  }

  lemma {:induction false} LiftSum(k: nat, rest: nat, d: nat)
    ensures Lift(k, 62 * rest + d) == Lift(k + 1, rest) + Lift(k, d)
  {
    if k > 0 {
      LiftSum(k - 1, rest, d);
    }
  }

  lemma {:induction false} LiftScales(k: nat, d: nat)
    ensures d * Lift(k, 1) == Lift(k, d)
  {
    if k > 0 {
      LiftScales(k - 1, d);
      assert d * (62 * Lift(k - 1, 1)) == 62 * (d * Lift(k - 1, 1));
    }
  }

  /** The digits are added up from the least significant one. */
  method BaseValue(content: string) returns (value: nat, good: bool)
    requires content != ""
    ensures good <==> AllDigits(content)
    ensures good ==> value == ValueOf(content)
  {
    value, good := 0, true;
    var power: nat, i: nat := 1, |content|;
    ghost var k, rest := 0, content;
    while i > 0
      invariant i <= |content| && rest == content[..i] && power == Lift(k, 1) &&
                value + Lift(k, ValueOf(rest)) == ValueOf(content)
      invariant forall j :: i <= j < |content| ==> DigitOf(content[j]) < 63
    {
      i := i - 1;
      var d := DigitOf(content[i]);
      if d == 63 {
        return 0, false;
      }
      value := AddDigit(value, power, d, k);
      LiftSum(k, ValueOf(rest[..i]), d);
      power, k, rest := 62 * power, k + 1, rest[..i];
    }
    assert Lift(k, 0) == 0 by { LiftScales(k, 0); }
  }

  method AddDigit(value: nat, power: nat, d: nat, ghost k: nat) returns (r: nat)
    requires power == Lift(k, 1)
    ensures r == value + Lift(k, d)
  {
    LiftScales(k, d);
    r := value + d * power;
  }
}
