/** One page of equal slots: free slots are chained through their own first words. */
module SlotPages {
  import opened Lists

  const PAGE_SIZE := 4096
  const HEADER_SIZE := 32   // the page's own fields, rounded up to the slot alignment's unit

  const NULL := 0

  // ---------------------------------------------------------------- slot addresses

  /** The first n slots from `start`. */
  ghost function SlotSet(start: nat, size: nat, n: nat): set<nat> {
    if n == 0 then {} else SlotSet(start, size, n - 1) + {SlotAt(start, size, n - 1)}
  }

  /** Slot i's address. */
  function SlotAt(start: nat, size: nat, i: nat): nat {
    if i == 0 then start else SlotAt(start, size, i - 1) + size
  }

  /** The first n slots, in order of address. */
  ghost function SlotChain(start: nat, size: nat, n: nat): seq<nat> {
    if n == 0 then [] else SlotChain(start, size, n - 1) + [SlotAt(start, size, n - 1)]
  }

  /** Slots lie one behind the other. */
  lemma {:induction false} SlotsApart(start: nat, size: nat, i: nat, j: nat)
    requires i < j
    ensures SlotAt(start, size, i) + size <= SlotAt(start, size, j) && start <= SlotAt(start, size, i)
    decreases i, j
  {
    if j > i + 1 {
      SlotsApart(start, size, i, j - 1);
    } else if i > 0 {
      SlotsApart(start, size, i - 1, i);
    }
  }

  lemma {:induction false} SlotsBefore(start: nat, size: nat, n: nat, k: nat)
    requires size > 0 && n <= k
    ensures SlotAt(start, size, k) !in SlotSet(start, size, n) && |SlotSet(start, size, n)| == n
    ensures forall a :: a in SlotSet(start, size, n) ==> start <= a < SlotAt(start, size, k)
  {
    if n > 0 {
      SlotsBefore(start, size, n - 1, n - 1);
      SlotsApart(start, size, n - 1, n);
      if n < k {
        SlotsApart(start, size, n, k);
      }
    }
  }

  lemma {:induction false} SlotsFit(start: nat, size: nat, n: nat, end: nat)
    requires n > 0 && SlotAt(start, size, n - 1) + size <= end
    ensures forall a :: a in SlotSet(start, size, n) ==> start <= a && a + size <= end
  {
    if n > 1 {
      SlotsApart(start, size, n - 2, n - 1);
      SlotsFit(start, size, n - 1, end);
    }
  }

  ghost predicate BytesApart(a: nat, b: nat, size: nat) { a + size <= b || b + size <= a }

  /** Different slots share no byte. */
  lemma {:induction false} SlotsShareNothing(start: nat, size: nat, n: nat, a: nat, b: nat)
    requires a in SlotSet(start, size, n) && b in SlotSet(start, size, n) && a != b
    ensures BytesApart(a, b, size)
  {
    if n > 1 {
      var last := SlotAt(start, size, n - 1);
      if a == last || b == last {
        SlotsApart(start, size, n - 2, n - 1);
        SlotsFit(start, size, n - 1, last);
      } else {
        SlotsShareNothing(start, size, n - 1, a, b);
      }
    }
  }

  /** A page's slots: as many as fit behind its own fields. */
  ghost predicate InPage(base: nat, size: nat, slots: set<nat>) {
    var start, end := base + HEADER_SIZE, base + PAGE_SIZE;
    && |slots| > 0 && slots == SlotSet(start, size, |slots|)
    && SlotAt(start, size, |slots| - 1) + size <= end < SlotAt(start, size, |slots|) + size
  }

  lemma {:induction false} SlotAtIs(start: nat, size: nat, i: nat)
    ensures SlotAt(start, size, i) == start + i * size
  {
    if i > 0 {
      SlotAtIs(start, size, i - 1);
      assert (i - 1) * size + size == i * size;
    }
  }

  // ---------------------------------------------------------------- the free chain

  /** A slot's first word; pages come zeroed. */
  function WordAt(words: map<nat, nat>, a: nat): nat {
    if a in words then words[a] else NULL
  }

  /** From `header`, following the slots' own words, the free slots are met in this order. */
  ghost predicate Chained(header: nat, words: map<nat, nat>, slots: seq<nat>)
    decreases |slots|
  {
    if slots == [] then header == NULL
    else header == slots[0] && header != NULL && Chained(WordAt(words, header), words, slots[1..])
  }

  /** Writing to a slot that is not on the chain leaves the chain as it was. */
  lemma {:induction false} OtherWord(header: nat, words: map<nat, nat>, slots: seq<nat>, a: nat, w: nat)
    requires Chained(header, words, slots) && a !in slots
    ensures Chained(header, words[a := w], slots)
    decreases |slots|
  {
    if slots != [] {
      OtherWord(WordAt(words, header), words, slots[1..], a, w);
    }
  }

  /** Pointing the last slot to a blank one puts that at the end of the chain. */
  lemma {:induction false} ChainMore(header: nat, words: map<nat, nat>, slots: seq<nat>, a: nat)
    requires Chained(header, words, slots) && NoDup(slots) && slots != [] && a !in slots && a != NULL
    requires WordAt(words, a) == NULL
    ensures Chained(header, words[slots[|slots| - 1] := a], slots + [a])
    decreases |slots|
  {
    var words' := words[slots[|slots| - 1] := a];
    assert (slots + [a])[1..] == slots[1..] + [a];
    if |slots| == 1 {
      assert Chained(a, words', [a]);
    } else {
      ChainMore(WordAt(words, header), words, slots[1..], a);
      assert slots[1..][|slots[1..]| - 1] == slots[|slots| - 1];
    }
  }

  lemma {:induction false} DistinctMore(slots: seq<nat>, a: nat)
    requires NoDup(slots) && a !in slots
    ensures NoDup(slots + [a]) && Elements(slots + [a]) == Elements(slots) + {a}
  {
    if slots == [] {
      assert [a][1..] == [];
    } else {
      assert (slots + [a])[1..] == slots[1..] + [a];
      DistinctMore(slots[1..], a);
    }
  }

  /** Every slot is either on the chain or out, and none twice: handing out the whole chain makes all. */
  ghost predicate Split(slots: seq<nat>, out: set<nat>, all: set<nat>)
    decreases |slots|
  {
    if slots == [] then out == all else slots[0] !in out && Split(slots[1..], out + {slots[0]}, all)
  }

  lemma {:induction false} SplitMeans(slots: seq<nat>, out: set<nat>, all: set<nat>)
    requires Split(slots, out, all)
    ensures out <= all && |slots| + |out| == |all| && forall a :: a in slots ==> a in all && a !in out
    decreases |slots|
  {
    if slots != [] {
      SplitMeans(slots[1..], out + {slots[0]}, all);
    }
  }

  lemma {:induction false} DistinctSplits(slots: seq<nat>, out: set<nat>)
    requires NoDup(slots) && Elements(slots) !! out
    ensures Split(slots, out, Elements(slots) + out)
    decreases |slots|
  {
    if slots != [] {
      DistinctSplits(slots[1..], out + {slots[0]});
      assert Elements(slots[1..]) + (out + {slots[0]}) == Elements(slots) + out;
    }
  }

  lemma GiveBack(header: nat, words: map<nat, nat>, slots: seq<nat>, out: set<nat>, all: set<nat>, slot: nat)
    requires Chained(header, words, slots) && Split(slots, out, all) && slot in out && slot != NULL
    ensures Chained(slot, words[slot := header], [slot] + slots) && Split([slot] + slots, out - {slot}, all)
  {
    SplitMeans(slots, out, all);
    OtherWord(header, words, slots, slot, header);
    assert ([slot] + slots)[1..] == slots && out - {slot} + {slot} == out;
  }

  lemma TakeOut(header: nat, words: map<nat, nat>, slots: seq<nat>, out: set<nat>, all: set<nat>)
    requires Chained(header, words, slots) && Split(slots, out, all) && slots != []
    ensures header != NULL && header in all && header !in out
    ensures Chained(WordAt(words, header), words, slots[1..]) && Split(slots[1..], out + {header}, all)
  {
    SplitMeans(slots, out, all);
  }

  // ---------------------------------------------------------------- pages

  class Page {
    const base: nat
    var prev: Page?
    var next: Page?
    var header: nat
    var words: map<nat, nat>   // what the slots' first words hold
    var free: nat
    var total: nat
    ghost var slots: seq<nat>
    ghost var out: set<nat>    // the slots handed out
    ghost const all: set<nat>

    /** Each of the page's slots is either on its chain or handed out. */
    ghost predicate Sound()
      reads `header, `words, `free, `total, `slots, `out
    {
      Chained(header, words, slots) && free == |slots| && total == |all| && Split(slots, out, all) && NULL !in all
    }

    /** CreatePage and InitPage.  The page comes zeroed, which ends the chain. */
    constructor (base: nat, size: nat)
      requires 0 < size <= PAGE_SIZE - HEADER_SIZE
      ensures Sound() && out == {} && prev == null == next && this.base == base && free == total > 0
      ensures InPage(base, size, all)
    {
      var count := (PAGE_SIZE - HEADER_SIZE) / size;
      var start := base + HEADER_SIZE;
      var w := LinkSlots(base, size, count);
      ghost var chain := SlotChain(start, size, count);
      this.base, prev, next := base, null, null;
      free, total, header, words := count, count, start, w;
      slots, out, all := chain, {}, SlotSet(start, size, count);
      SlotsBefore(start, size, count, count);
      DistinctSplits(chain, {});
      assert Elements(chain) + {} == Elements(chain);
    }

    /** Page::Allocate. */
    method Take() returns (slot: nat)
      requires Sound() && free > 0
      modifies `header, `free, `slots, `out
      ensures Sound() && slot == old(header) && slot !in old(out) && slot in all && slot != NULL
      ensures out == old(out) + {slot} && free == old(free) - 1
    {
      TakeOut(header, words, slots, out, all);
      slot := header;
      header := WordAt(words, slot);
      free := free - 1;
      out := out + {slot};
      slots := slots[1..];
    }

    /** Page::Deallocate. */
    method Give(slot: nat)
      requires Sound() && slot in out
      modifies `header, `words, `free, `slots, `out
      ensures Sound() && out == old(out) - {slot} && free == old(free) + 1
    {
      SplitMeans(slots, out, all);
      GiveBack(header, words, slots, out, all, slot);
      words := words[slot := header];
      header := slot;
      free := free + 1;
      out := out - {slot};
      slots := [slot] + slots;
    }
  }

  /** The loop of InitPage: as many slots as fit, each pointing to the next. */
  method LinkSlots(base: nat, size: nat, ghost count: nat) returns (words: map<nat, nat>)
    requires 0 < size <= PAGE_SIZE - HEADER_SIZE && count == (PAGE_SIZE - HEADER_SIZE) / size
    ensures var chain := SlotChain(base + HEADER_SIZE, size, count);
            && Chained(base + HEADER_SIZE, words, chain) && NoDup(chain) && |chain| == count > 0
            && Elements(chain) == SlotSet(base + HEADER_SIZE, size, count)
    ensures SlotAt(base + HEADER_SIZE, size, count - 1) + size <= base + PAGE_SIZE
    ensures base + PAGE_SIZE < SlotAt(base + HEADER_SIZE, size, count) + size
  {
    ghost var start, n := base + HEADER_SIZE, 1;
    words := map[];
    var slot := base + HEADER_SIZE;
    var prevSlot := slot;
    assert [start][1..] == [] && SlotSet(start, size, 0) == {} && SlotChain(start, size, 1) == [] + [start] == [start];
    while true
      invariant n >= 1 && slot == prevSlot == SlotAt(start, size, n - 1) && slot + size <= base + PAGE_SIZE
      invariant Built(start, size, n, words)
      decreases base + PAGE_SIZE - slot
    {
      slot := slot + size;
      if slot + size - 1 > base + PAGE_SIZE - 1 {
        break;
      }
      BuildOne(start, size, n, words);
      words := words[prevSlot := slot];
      prevSlot := slot;
      n := n + 1;
    }
    SlotAtIs(start, size, n - 1);
    SlotAtIs(start, size, n);
    FillsPage(size, n);
  }

  /** The first n slots are chained in order, and nothing is written in any other. */
  ghost predicate Built(start: nat, size: nat, n: nat, words: map<nat, nat>) {
    var chain := SlotChain(start, size, n);
    && |chain| == n > 0 && Chained(start, words, chain) && NoDup(chain)
    && Elements(chain) == SlotSet(start, size, n) && words.Keys <= SlotSet(start, size, n)
  }

  lemma BuildOne(start: nat, size: nat, n: nat, words: map<nat, nat>)
    requires n > 0 && Built(start, size, n, words) && size > 0 && start > 0
    ensures Built(start, size, n + 1, words[SlotAt(start, size, n - 1) := SlotAt(start, size, n)])
  {
    var chain, a := SlotChain(start, size, n), SlotAt(start, size, n);
    SlotsBefore(start, size, n, n);
    ChainMore(start, words, chain, a);
    DistinctMore(chain, a);
  }

  lemma FillsPage(size: nat, n: nat)
    requires 0 < size && n * size <= PAGE_SIZE - HEADER_SIZE < (n + 1) * size
    ensures n == (PAGE_SIZE - HEADER_SIZE) / size
  {
    var q := (PAGE_SIZE - HEADER_SIZE) / size;
    assert q < n ==> (q + 1) * size <= n * size;
    assert q > n ==> (n + 1) * size <= q * size;
  }
}
