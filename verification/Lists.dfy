/** Lists without repetitions, and the lists of memory blocks cut from a span. */
module Lists {

  ghost predicate NoDup<T>(list: seq<T>) {
    forall i, j :: 0 <= i < j < |list| ==> list[i] != list[j]
  }

  /** The list without the first occurrence of x. */
  function Erase<T(==)>(list: seq<T>, x: T): (r: seq<T>)
    ensures forall y :: y in r ==> y in list
    ensures forall y :: y in list && y != x ==> y in r
  {
    if list == [] then []
    else if list[0] == x then list[1..]
    else [list[0]] + Erase(list[1..], x)
  }

  lemma {:induction false} EraseNoDup<T>(list: seq<T>, x: T)
    requires NoDup(list)
    ensures NoDup(Erase(list, x)) && x !in Erase(list, x)
  {
    if list != [] && list[0] != x {
      EraseNoDup(list[1..], x);
      var rest := Erase(list[1..], x);
      forall i, j | 0 <= i < j < |rest| + 1 ensures Erase(list, x)[i] != Erase(list, x)[j] {
        assert Erase(list, x)[j] == rest[j - 1] && rest[j - 1] in list[1..];
      }
    }
  }

  lemma NoDupParts<T>(list: seq<T>, n: nat)
    requires NoDup(list) && n <= |list|
    ensures NoDup(list[..n]) && NoDup(list[n..])
    ensures forall x :: x in list <==> x in list[..n] || x in list[n..]
    ensures forall x :: x in list[..n] ==> x !in list[n..]
  {
    assert list == list[..n] + list[n..];
  }

  lemma NoDupJoin<T>(a: seq<T>, b: seq<T>)
    requires NoDup(a) && NoDup(b) && forall x :: x in a ==> x !in b
    ensures NoDup(a + b)
  {
    forall i, j | 0 <= i < j < |a + b| ensures (a + b)[i] != (a + b)[j] {
      if i < |a| <= j {
        assert a[i] in a && b[j - |a|] in b;
      }
    }
  }

  /** A list without repetitions drawn from a finite set is no longer than the set, and exhausts
      it when it is as long. */
  lemma {:induction false} Pigeonhole<T>(list: seq<T>, whole: set<T>)
    requires NoDup(list) && forall x :: x in list ==> x in whole
    ensures |list| <= |whole|
    ensures |list| == |whole| ==> forall x :: x in whole ==> x in list
  {
    if list != [] {
      var x, rest := list[0], list[1..];
      assert list == [x] + rest;
      forall y | y in rest ensures y in whole - {x} {
        var j :| 0 <= j < |rest| && rest[j] == y;
        assert list[j + 1] == y;
      }
      Pigeonhole(rest, whole - {x});
    } else if whole != {} {
      var x :| x in whole;
      assert |whole - {x}| + 1 == |whole|;
    }
  }

  // ---------------------------------------------------------------- blocks

  /** The first n blocks of `size` bytes from `start` on. */
  function Carve(start: int, size: nat, n: nat): seq<int> {
    if n == 0 then [] else Carve(start, size, n - 1) + [start + (n - 1) * size]
  }

  lemma {:induction false} CarveAt(start: int, size: nat, n: nat)
    ensures |Carve(start, size, n)| == n
    ensures forall i :: 0 <= i < n ==> Carve(start, size, n)[i] == start + i * size
  {
    if n > 0 {
      CarveAt(start, size, n - 1);
    }
  }

  function Elements<T(==,!new)>(list: seq<T>): (s: set<T>)
    ensures forall x :: x in s <==> x in list
  {
    set x | x in list
  }

  lemma {:induction false} ElementsCount<T(!new)>(list: seq<T>)
    requires NoDup(list)
    ensures |Elements(list)| == |list|
  {
    if list != [] {
      ElementsCount(list[1..]);
      assert Elements(list) == Elements(list[1..]) + {list[0]};
    }
  }
}
