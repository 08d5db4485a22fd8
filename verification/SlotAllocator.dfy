/** The page slot allocator: pages with some but not all slots free are kept on a doubly linked list. */
module SlotAllocator {
  import opened SlotPages

  // ---------------------------------------------------------------- the list of pages

  ghost function First(pages: seq<Page>): Page? { if pages == [] then null else pages[0] }

  ghost function Last(pages: seq<Page>): Page? { if pages == [] then null else pages[|pages| - 1] }

  /** Each page's `next` is the one after it; the last one's is `end`. */
  ghost predicate NextLinked(pages: seq<Page>, end: Page?)
    reads pages`next
  {
    pages != [] ==> pages[|pages| - 1].next == end && NextLinked(pages[..|pages| - 1], pages[|pages| - 1])
  }

  /** Each page's `prev` is the one before it; the first one's is `start`. */
  ghost predicate PrevLinked(pages: seq<Page>, start: Page?)
    reads pages`prev
  {
    pages != [] ==> pages[0].prev == start && PrevLinked(pages[1..], pages[0])
  }

  ghost predicate NoneTwice(s: seq<Page>) {
    s != [] ==> s[|s| - 1] !in s[..|s| - 1] && NoneTwice(s[..|s| - 1])
  }

  ghost predicate Apart(a: seq<Page>, b: seq<Page>) {
    b != [] ==> b[|b| - 1] !in a && Apart(a, b[..|b| - 1])
  }

  ghost predicate Linked(list: seq<Page>)
    reads list`next, list`prev
  {
    NoneTwice(list) && NextLinked(list, null) && PrevLinked(list, null)
  }

  lemma {:induction false} NextJoin(a: seq<Page>, b: seq<Page>, end: Page?)
    ensures NextLinked(a + b, end) <==> NextLinked(a, if b == [] then end else b[0]) && NextLinked(b, end)
  {
    if b == [] {
      assert a + b == a;
    } else {
      var n := |b| - 1;
      assert (a + b)[..|a + b| - 1] == a + b[..n];
      NextJoin(a, b[..n], b[n]);
    }
  }

  lemma {:induction false} PrevJoin(a: seq<Page>, b: seq<Page>, start: Page?)
    ensures PrevLinked(a + b, start) <==> PrevLinked(a, start) && PrevLinked(b, if a == [] then start else a[|a| - 1])
  {
    if a == [] {
      assert a + b == b;
    } else {
      assert (a + b)[1..] == a[1..] + b;
      PrevJoin(a[1..], b, a[0]);
    }
  }

  lemma {:induction false} NoneTwiceJoin(a: seq<Page>, b: seq<Page>)
    ensures NoneTwice(a + b) <==> NoneTwice(a) && NoneTwice(b) && Apart(a, b)
  {
    if b == [] {
      assert a + b == a;
    } else {
      var n := |b| - 1;
      NoneTwiceJoin(a, b[..n]);
      assert (a + b)[..|a + b| - 1] == a + b[..n];
    }
  }

  lemma {:induction false} ApartMeans(a: seq<Page>, b: seq<Page>, x: Page)
    requires Apart(a, b)
    ensures x !in a || x !in b
  {
    if x in b && x != b[|b| - 1] {
      ApartMeans(a, b[..|b| - 1], x);
    }
  }

  lemma {:induction false} MakeApart(a: seq<Page>, b: seq<Page>)
    requires forall x :: x in a ==> x !in b
    ensures Apart(a, b)
  {
    if b != [] {
      MakeApart(a, b[..|b| - 1]);
    }
  }

  /** The lists before and after a page of a list: the page is in neither, and nothing is in both. */
  lemma AroundPage(a: seq<Page>, page: Page, b: seq<Page>)
    requires NoneTwice(a + ([page] + b))
    ensures page !in a && page !in b && NoneTwice(a + b) && NoneTwice(a) && NoneTwice(b) && Apart(a, b)
  {
    NoneTwiceJoin(a, [page] + b);
    NoneTwiceJoin([page], b);
    ApartMeans(a, [page] + b, page);
    ApartMeans([page], b, page);
    forall x | x in a ensures x !in b {
      ApartMeans(a, [page] + b, x);
    }
    MakeApart(a, b);
    NoneTwiceJoin(a, b);
  }

  lemma EndsAside(s: seq<Page>)
    requires NoneTwice(s) && s != []
    ensures s[0] !in s[1..] && s[|s| - 1] !in s[..|s| - 1]
  {
    assert s == [] + ([s[0]] + s[1..]);
    AroundPage([], s[0], s[1..]);
  }

  /** AddToList: the page becomes the first. */
  method AddToList(head: Page?, page: Page, ghost list: seq<Page>)
    requires Linked(list) && head == First(list) && page !in list && page.prev == null
    modifies page`next, list`prev
    ensures Linked([page] + list)
  {
    if head != null {
      EndsAside(list);
      ghost var rest := list[1..];
      assert PrevLinked(rest, head);
      head.prev := page;
      assert PrevLinked(rest, head);
    }
    page.next := head;
    MakeApart([page], list);
    NoneTwiceJoin([page], list);
    NextJoin([page], list, null);
    PrevJoin([page], list, null);
    assert [page][1..] == [] && [page][..0] == [];
  }

  /** RemoveFromList: the page's neighbours become each other's. */
  method RemoveFromList(isHead: bool, page: Page, ghost a: seq<Page>, ghost b: seq<Page>)
    requires Linked(a + ([page] + b)) && (isHead <==> a == [])
    modifies page`next, page`prev, a`next, b`prev
    ensures Linked(a + b) && page.next == null == page.prev
  {
    AroundPage(a, page, b);
    Neighbours(a, page, b);
    var prev, next := page.prev, page.next;
    if !isHead {
      SetNext(prev, next, a, b, page);
    }
    if next != null {
      SetPrev(next, if isHead then null else prev, a, b, page);
    }
    page.next := null;
    page.prev := null;
    NextJoin(a, b, null);
    PrevJoin(a, b, null);
  }

  lemma Neighbours(a: seq<Page>, page: Page, b: seq<Page>)
    requires NextLinked(a + ([page] + b), null) && PrevLinked(a + ([page] + b), null)
    ensures page.prev == Last(a) && page.next == First(b)
    ensures NextLinked(a, page) && NextLinked(b, null) && PrevLinked(a, null) && PrevLinked(b, page)
  {
    NextJoin(a, [page] + b, null);
    NextJoin([page], b, null);
    PrevJoin(a, [page] + b, null);
    PrevJoin([page], b, Last(a));
    assert ([page] + b)[0] == page && [page][..0] == [] && [page][1..] == [];
  }

  method SetNext(prev: Page, next: Page?, ghost a: seq<Page>, ghost b: seq<Page>, ghost page: Page)
    requires a != [] && prev == Last(a) && NoneTwice(a) && Apart(a, b) && NextLinked(a, page) && NextLinked(b, null)
    modifies prev`next
    ensures NextLinked(a, next) && NextLinked(b, null)
  {
    EndsAside(a);
    ApartMeans(a, b, prev);
    ghost var init := a[..|a| - 1];
    assert NextLinked(init, prev);
    prev.next := next;
    assert NextLinked(init, prev);
  }

  method SetPrev(next: Page, prev: Page?, ghost a: seq<Page>, ghost b: seq<Page>, ghost page: Page)
    requires b != [] && next == First(b) && NoneTwice(b) && Apart(a, b) && PrevLinked(b, page) && PrevLinked(a, null)
    modifies next`prev
    ensures PrevLinked(b, prev) && PrevLinked(a, null)
  {
    EndsAside(b);
    ApartMeans(a, b, next);
    ghost var rest := b[1..];
    assert PrevLinked(rest, next);
    next.prev := prev;
    assert PrevLinked(rest, next);
  }

  // ---------------------------------------------------------------- the allocator

  /** The page starts at a page boundary, and its slots lie one behind the other in its own bytes. */
  ghost predicate Within(p: Page, size: nat) {
    p.base % PAGE_SIZE == 0 && InPage(p.base, size, p.all)
  }

  lemma SlotInPage(p: Page, size: nat, slot: nat)
    requires Within(p, size) && slot in p.all
    ensures p.base + HEADER_SIZE <= slot && slot + size <= p.base + PAGE_SIZE
  {
    SlotsFit(p.base + HEADER_SIZE, size, |p.all|, p.base + PAGE_SIZE);
  }

  /** Rounding a slot's address down to a page boundary finds its page. */
  lemma AlignDownFinds(p: Page, size: nat, slot: nat)
    requires Within(p, size) && slot in p.all && size > 0
    ensures slot / PAGE_SIZE * PAGE_SIZE == p.base
  {
    SlotInPage(p, size, slot);
  }

  /** A page the allocator holds: it is on the list exactly when some but not all of its slots are free. */
  ghost predicate Held(p: Page, size: nat, listed: bool)
    reads p
  {
    InUse(p, size) && (listed <==> p.free > 0) && (!listed ==> p.prev == null)
  }

  /** Some of the page's slots are out. */
  ghost predicate InUse(p: Page, size: nat)
    reads p`header, p`words, p`free, p`total, p`slots, p`out
  {
    p.Sound() && Within(p, size) && p.free < p.total
  }

  ghost predicate AllUnlisted(pages: set<Page>, size: nat)
    reads pages
  {
    forall p :: p in pages ==> Held(p, size, false)
  }

  ghost predicate BasesDiffer(pages: set<Page>) {
    forall p, q :: p in pages && q in pages && p.base == q.base ==> p == q
  }

  /** `home` says which slots are out, and of which page. */
  ghost predicate HomesOf(pages: set<Page>, home: map<nat, Page>)
    reads pages`out
  {
    && (forall a :: a in home ==> home[a] in pages && a in home[a].out)
    && (forall p, a :: p in pages && a in p.out ==> a in home && home[a] == p)
  }

  lemma NoNewHome(pages: set<Page>, home: map<nat, Page>, cur: Page)
    requires HomesOf(pages, home) && cur.out == {}
    ensures HomesOf(pages + {cur}, home) && HomesOf(pages - {cur}, home)
  {
  }

  method TakeHome(cur: Page, ghost pages: set<Page>, ghost home: map<nat, Page>) returns (slot: nat)
    requires HomesOf(pages, home) && cur in pages && cur.Sound() && cur.free > 0 && cur.header !in home
    modifies cur`header, cur`free, cur`slots, cur`out
    ensures cur.Sound() && cur.free == old(cur.free) - 1 && slot == old(cur.header) && HomesOf(pages, home[slot := cur])
  {
    slot := cur.Take();
  }

  method GiveHome(cur: Page, slot: nat, ghost pages: set<Page>, ghost home: map<nat, Page>)
    requires HomesOf(pages, home) && cur in pages && cur.Sound() && slot in home && home[slot] == cur
    modifies cur`header, cur`words, cur`free, cur`slots, cur`out
    ensures cur.Sound() && cur.free == old(cur.free) + 1 && HomesOf(pages, home - {slot})
  {
    cur.Give(slot);
  }

  class PageAllocator {
    var nonFull: Page?
    var totalPages: nat
    const slotSize: nat
    ghost var list: seq<Page>
    ghost var pages: set<Page>      // the pages held
    ghost var home: map<nat, Page>  // the slots that clients hold, and their pages

    ghost predicate Valid()
      reads this, pages, list
    {
      Listing() && Homes() && forall p :: p in pages ==> Held(p, slotSize, p in list)
    }

    ghost predicate Listing()
      reads this, list`next, list`prev
    {
      && 0 < slotSize <= PAGE_SIZE - HEADER_SIZE && totalPages == |pages| && Linked(list) && nonFull == First(list)
      && (forall p :: p in list ==> p in pages)
      && BasesDiffer(pages)
    }

    ghost predicate Homes()
      reads this, pages`out
    {
      HomesOf(pages, home)
    }

    /** All pages are as they should be, except that `odd` has just gained or lost a slot. */
    ghost predicate AllBut(odd: Page)
      reads this, pages, list
    {
      && Listing() && Homes() && odd in pages && odd.Sound() && Within(odd, slotSize)
      && (forall p :: p in pages && p != odd ==> Held(p, slotSize, p in list))
    }

    constructor (slotSize: nat)
      requires 0 < slotSize <= PAGE_SIZE - HEADER_SIZE
      ensures Valid() && pages == {} && home == map[]
    {
      nonFull, totalPages, this.slotSize, list, pages, home := null, 0, slotSize, [], {}, map[];
    }

    /** A free slot of a page is nobody's. */
    lemma NotOutstanding(cur: Page)
      requires AllBut(cur) && cur.free > 0
      ensures cur.header !in home
    {
      TakeOut(cur.header, cur.words, cur.slots, cur.out, cur.all);
      var slot := cur.header;
      if slot in home {
        var p := home[slot];
        assert p != cur ==> Held(p, slotSize, p in list);
        SplitMeans(p.slots, p.out, p.all);
        AlignDownFinds(p, slotSize, slot);
        AlignDownFinds(cur, slotSize, slot);
      }
    }

    /** Rounding down finds the page that the slot is of. */
    lemma PageOfSlot(slot: nat, cur: Page)
      requires Valid() && slot in home && cur in pages && cur.base == slot / PAGE_SIZE * PAGE_SIZE
      ensures home[slot] == cur && Held(cur, slotSize, cur in list)
    {
      var p := home[slot];
      assert Held(p, slotSize, p in list);
      SplitMeans(p.slots, p.out, p.all);
      AlignDownFinds(p, slotSize, slot);
    }

    /** No two slots that clients hold share a byte, and none of them a byte of a page's own fields. */
    lemma OutstandingApart(a: nat, b: nat)
      requires Valid() && a in home && b in home && a != b
      ensures BytesApart(a, b, slotSize)
      ensures home[a].base + HEADER_SIZE <= a && a + slotSize <= home[a].base + PAGE_SIZE
    {
      var p, q := home[a], home[b];
      assert Held(p, slotSize, p in list) && Held(q, slotSize, q in list);
      SplitMeans(p.slots, p.out, p.all);
      SplitMeans(q.slots, q.out, q.all);
      SlotInPage(p, slotSize, a);
      SlotInPage(q, slotSize, b);
      if p == q {
        SlotsShareNothing(p.base + HEADER_SIZE, slotSize, |p.all|, a, b);
      } else {
        PagesApart(p, q);
      }
    }

    lemma PagesApart(p: Page, q: Page)
      requires Listing() && p in pages && q in pages && p != q && Within(p, slotSize) && Within(q, slotSize)
      ensures BytesApart(p.base, q.base, PAGE_SIZE)
    {
    }

    /** A slot is handed out; the list is still as it was. */
    method TakeSlot(cur: Page) returns (slot: nat)
      requires AllBut(cur) && cur.free > 0
      modifies this`home, cur`header, cur`free, cur`slots, cur`out
      ensures AllBut(cur) && slot !in old(home) && home == old(home)[slot := cur] &&
              cur.free == old(cur.free) - 1 < cur.total
    {
      NotOutstanding(cur);
      SplitMeans(cur.slots, cur.out, cur.all);
      slot := TakeHome(cur, pages, home);
      home := home[slot := cur];
    }

    /** A slot comes back; the list is still as it was. */
    method GiveSlot(cur: Page, slot: nat)
      requires AllBut(cur) && slot in home && home[slot] == cur
      modifies this`home, cur`header, cur`words, cur`free, cur`slots, cur`out
      ensures AllBut(cur) && home == old(home) - {slot} && cur.free == old(cur.free) + 1
    {
      GiveHome(cur, slot, pages, home);
      home := home - {slot};
    }

    /** A page leaves the list. */
    method DropPage(cur: Page)
      requires Listing() && cur in list
      modifies `nonFull, `list, list`next, list`prev
      ensures Listing() && cur !in list && cur.prev == null
      ensures forall p :: p != cur ==> (p in list <==> p in old(list))
    {
      ghost var i :| 0 <= i < |list| && list[i] == cur;
      ghost var a, b := list[..i], list[i + 1..];
      assert list == a + ([cur] + b);
      DropBetween(cur, a, b);
    }

    method DropBetween(cur: Page, ghost a: seq<Page>, ghost b: seq<Page>)
      requires Listing() && list == a + ([cur] + b)
      modifies `nonFull, `list, a`next, b`prev, cur`next, cur`prev
      ensures Listing() && list == a + b && cur !in list && cur.prev == null
    {
      AroundPage(a, cur, b);
      Neighbours(a, cur, b);
      var isHead := cur == nonFull;
      assert isHead <==> a == [];
      if isHead {
        nonFull := cur.next;
      }
      list := a + b;
      RemoveFromList(isHead, cur, a, b);
    }

    /** The other pages are on the list as before, and `cur` is as it should be. */
    lemma Settled(cur: Page, was: seq<Page>)
      requires Listing() && Homes() && cur in pages && Held(cur, slotSize, cur in list)
      requires forall p :: p in pages && p != cur ==> Held(p, slotSize, p in was) && (p in was <==> p in list)
      ensures Valid()
    {
    }

    /** A page that has no free slots left leaves the list. */
    method Unlist(cur: Page)
      requires AllBut(cur) && cur in list && cur.free == 0 < cur.total
      modifies `nonFull, `list, list`next, list`prev
      ensures Valid()
    {
      ghost var was := list;
      DropPage(cur);
      assert Homes();
      Settled(cur, was);
    }

    lemma ListedAlone(cur: Page, others: set<Page>)
      requires 0 < slotSize <= PAGE_SIZE - HEADER_SIZE && cur !in others && pages == others + {cur}
      requires list == [cur] && nonFull == cur && totalPages == |others| + 1 && cur.prev == null == cur.next
      requires BasesDiffer(pages) && AllUnlisted(others, slotSize) && Homes() && cur.Sound() && Within(cur, slotSize)
      ensures AllBut(cur)
    {
      assert [cur][..0] == [] && [cur][1..] == [];
    }

    lemma Joins(cur: Page)
      requires Valid() && list == [] && forall p :: p in pages ==> p.base != cur.base
      requires cur.out == {}
      ensures AllUnlisted(pages, slotSize) && BasesDiffer(pages + {cur}) && HomesOf(pages + {cur}, home)
      ensures 0 < slotSize <= PAGE_SIZE - HEADER_SIZE && totalPages == |pages|
    {
      NoNewHome(pages, home, cur);
    }

    /** CreatePage.  The new page is alone on the list. */
    method NewPage(base: nat) returns (cur: Page)
      requires Valid() && list == [] && base % PAGE_SIZE == 0 && forall p :: p in pages ==> p.base != base
      modifies `nonFull, `list, `pages, `totalPages
      ensures AllBut(cur) && list == [cur] && fresh(cur) && cur.base == base && pages == old(pages) + {cur} &&
              cur.free > 0
    {
      cur := new Page(base, slotSize);
      Joins(cur);
      Adopt(cur, pages + {cur});
    }

    method Adopt(cur: Page, ghost all: set<Page>)
      requires all == pages + {cur} && AllUnlisted(pages, slotSize) && BasesDiffer(all) && HomesOf(all, home)
      requires 0 < slotSize <= PAGE_SIZE - HEADER_SIZE && totalPages == |pages| && cur !in pages
      requires cur.Sound() && Within(cur, slotSize) && cur.prev == null == cur.next
      modifies `nonFull, `list, `pages, `totalPages
      ensures AllBut(cur) && list == [cur] && pages == all
    {
      ghost var others := pages;
      nonFull, totalPages := cur, totalPages + 1;
      list, pages := [cur], all;
      ListedAlone(cur, others);
    }

    /** Allocate.  A new page, when one is needed, is at `base`. */
    method Allocate(base: nat) returns (slot: nat)
      requires Valid() && base % PAGE_SIZE == 0 && forall p :: p in pages ==> p.base != base
      modifies this, pages
      ensures Valid() && slot !in old(home) && slot in home && home == old(home)[slot := home[slot]]
      ensures forall other :: other in old(home) ==> BytesApart(slot, other, slotSize)
    {
      var cur;
      if nonFull == null {
        cur := NewPage(base);
      } else {
        cur := nonFull;
        assert cur in list && Held(cur, slotSize, cur in list);
      }
      slot := HandOut(cur);
      forall other | other in old(home) ensures BytesApart(slot, other, slotSize) {
        OutstandingApart(slot, other);
      }
    }

    method HandOut(cur: Page) returns (slot: nat)
      requires AllBut(cur) && cur in list && cur.free > 0
      modifies this, pages
      ensures Valid() && slot !in old(home) && home == old(home)[slot := cur]
    {
      slot := TakeSlot(cur);
      if cur.free == 0 {
        Unlist(cur);
      } else {
        Settled(cur, list);
      }
    }

    /** A page without free slots goes back to the list, before a slot comes back to it. */
    method Relist(cur: Page)
      requires Valid() && cur in pages && cur !in list
      modifies `nonFull, `list, cur`next, list`prev
      ensures AllBut(cur) && list == [cur] + old(list)
    {
      assert Held(cur, slotSize, false);
      AddToList(nonFull, cur, list);
      nonFull, list := cur, [cur] + list;
      assert Homes();
      forall p | p in pages && p != cur ensures Held(p, slotSize, p in list) {
        assert old(Held(p, slotSize, p in list));
      }
    }

    /** A page whose slots have all come back is given up. */
    method DropEmpty(cur: Page)
      requires AllBut(cur) && cur in list && cur.free == cur.total
      modifies `nonFull, `list, `pages, `totalPages, list`next, list`prev
      ensures Valid() && pages == old(pages) - {cur}
    {
      SplitMeans(cur.slots, cur.out, cur.all);
      assert cur.out == {};
      ghost var was := list;
      NoNewHome(pages, home, cur);
      DropPage(cur);
      pages, totalPages := pages - {cur}, totalPages - 1;
    }

    /** Deallocate: the slot is nobody's again.  `cur` is the page at the slot's address rounded down. */
    method Deallocate(slot: nat, cur: Page)
      requires Valid() && slot in home && cur in pages && cur.base == slot / PAGE_SIZE * PAGE_SIZE
      modifies this, pages
      ensures Valid() && home == old(home) - {slot}
    {
      PageOfSlot(slot, cur);
      if cur.free == 0 {
        Relist(cur);
      }
      GiveSlot(cur, slot);
      if cur.free == cur.total {
        DropEmpty(cur);
      } else {
        Settled(cur, list);
      }
    }
  }
}
