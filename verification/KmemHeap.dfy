/**
 kmalloc, kfree and kmalloc_size of kernel/core/kmem.c over byte memory and the page table.
 Each call is taken as one step; the callers' own writes are steps too.
 */
module KmemHeap {
  import opened KmemRanges
  import opened KmemPages
  import opened KmemMemory
  import opened KmemShape
  import opened KmemOwners
  import opened KmemLinks
  import opened KmemSteps

  const U32: nat := 0x1_0000_0000

  /** The smallest class that holds the payload with header and guard. */
  function ClassOf(size: nat): (c: nat)
    requires size + OVERHEAD <= 4096
    ensures c < CLASSES && size + OVERHEAD <= Size(c)
    ensures forall d: nat :: d < c ==> Size(d) < size + OVERHEAD
  {
    var need := size + OVERHEAD;
    if need <= 32 then 0 else if need <= 64 then 1 else if need <= 128 then 2 else if need <= 256 then 3
    else if need <= 512 then 4 else if need <= 1024 then 5 else if need <= 2048 then 6 else 7
  }

  /** The least number of pages that hold the payload with header and guard. */
  function PagesFor(size: nat): (n: nat)
    ensures (n - 1) * PAGE < size + OVERHEAD <= n * PAGE
  {
    (size + OVERHEAD + PAGE - 1) / PAGE
  }

  /** So many pages hold the payload with header and guard, and one less do not. */
  predicate LeastPages(n: nat, size: nat)
  {
    (n - 1) * PAGE < size + OVERHEAD <= n * PAGE
  }

  lemma LeastIsOne(n: nat, size: nat)
    requires LeastPages(n, size)
    ensures n == PagesFor(size)
  {
  }

  /** What an allocation of this size is charged to. */
  function BlockFor(size: nat): (b: Block)
    ensures b.bytes == size && (b.Small? <==> size + OVERHEAD <= 4096)
    ensures b.Small? ==> b.cls < CLASSES && size + OVERHEAD <= b.Charge() == Size(b.cls)
    ensures b.Small? ==> forall d: nat :: d < b.cls ==> Size(d) < size + OVERHEAD
    ensures b.Large? ==> LeastPages(b.pages, size) && b.Charge() == b.pages * PAGE
  {
    if size + OVERHEAD <= 4096 then Small(size, ClassOf(size)) else Large(size, PagesFor(size))
  }

  /** Whether kmalloc can serve the request. */
  ghost predicate CanServe(lists: seq<seq<nat>>, table: seq<Range>, size: nat)
    requires |lists| == CLASSES
  {
    if size == 0 then false
    else if size + OVERHEAD <= 4096 then lists[ClassOf(size)] != [] || HasRun(table, 1)
    else exists n: nat :: n <= 0xffff && LeastPages(n, size) && HasRun(table, n)
  }

  lemma ServesLarge(lists: seq<seq<nat>>, table: seq<Range>, size: nat)
    requires |lists| == CLASSES && size + OVERHEAD > 4096
    ensures CanServe(lists, table, size) <==> PagesFor(size) <= 0xffff && HasRun(table, PagesFor(size))
  {
    hide PagesFor, HasRun;
    assert LeastPages(PagesFor(size), size);
    forall n: nat | LeastPages(n, size) ensures n == PagesFor(size) { LeastIsOne(n, size); }
  }

  ghost function MaxOf(h: seq<nat>): nat
  {
    if h == [] then 0 else var m := MaxOf(h[..|h| - 1]); if h[|h| - 1] > m then h[|h| - 1] else m
  }

  /** The largest element: at least every element, and one of them. */
  lemma {:induction false} MaxIsLargest(h: seq<nat>)
    ensures forall i :: 0 <= i < |h| ==> h[i] <= MaxOf(h)
    ensures h != [] ==> MaxOf(h) in h
  {
    if h != [] { MaxIsLargest(h[..|h| - 1]); }
  }

  /** The statistics agree with the live allocations; history holds the live count after every change. */
  ghost predicate Accounts(used: int, allocs: int, frees: int, live: int, peak: int,
                           blocks: map<nat, Block>, history: seq<nat>)
  {
    used == Charged(blocks) && live == |blocks| && allocs == frees + live && peak == MaxOf(history)
  }

  lemma NotedAlloc(used: int, allocs: int, frees: int, live: int, peak: int, blocks: map<nat, Block>,
                   history: seq<nat>, a: nat, b: Block)
    requires Accounts(used, allocs, frees, live, peak, blocks, history) && a !in blocks && live >= 0
    ensures Accounts(used + b.Charge(), allocs + 1, frees, live + 1, if live + 1 > peak then live + 1 else peak,
                     blocks[a := b], history + [live + 1])
  {
    ChargedWith(blocks, a, b);
    assert (history + [live + 1])[..|history|] == history;
  }

  lemma NotedFree(used: int, allocs: int, frees: int, live: int, peak: int, blocks: map<nat, Block>,
                  history: seq<nat>, a: nat)
    requires Accounts(used, allocs, frees, live, peak, blocks, history) && a in blocks
    requires live - 1 >= 0 ==> live - 1 <= peak
    ensures live > 0 && used >= blocks[a].Charge()
    ensures Accounts(used - blocks[a].Charge(), allocs, frees + 1, live - 1, peak, blocks - {a}, history + [live - 1])
  {
    ChargedWithout(blocks, a);
    Smaller(blocks, a);
    assert (history + [live - 1])[..|history|] == history;
  }

  lemma StartOk(m: Memory, heads: seq<nat>, o: Owners)
    requires |heads| == CLASSES && o == Owners(map[], seq(CLASSES, _ => []), map[], {})
    requires forall c :: 0 <= c < CLASSES ==> heads[c] == 0
    ensures HeapOk(m, heads, o, {}, {}, {})
  {
  }

  lemma UserOwns(m: Memory, heads: seq<nat>, o: Owners, overrun: set<nat>, freed: set<nat>, held: set<nat>)
    requires HeapOk(m, heads, o, overrun, freed, held)
    ensures o.user <= held
  {
  }

  lemma AllSame(m: Memory, live: map<nat, Block>)
    ensures SameAll(m, m, live)
  {
  }

  lemma OnePage(page: nat)
    requires page % PAGE == 0
    ensures Run(page / PAGE, 1) == {page / PAGE} && page / PAGE * PAGE == page && page / PAGE in Run(page / PAGE, 1)
    ensures RealPage(page / PAGE) ==> page + PAGE < WORD
  {
  }

  lemma SlabbedParts(o: Owners, c: nat, p: nat, blocks: seq<nat>, a: nat)
    requires c < |o.lists| && a in blocks
    ensures var o' := Slabbed(o, c, p, blocks);
            o'.live == o.live && o'.user == o.user && |o'.lists| == |o.lists| && o'.lists[c] != []
            && o'.lists == o.lists[c := blocks + o.lists[c]]
  {
  }

  /** The list of class c is still linked after a fresh page has been zeroed. */
  lemma PageReady(m0: Memory, m: Memory, heads: seq<nat>, o: Owners, overrun: set<nat>, freed: set<nat>,
                  held: set<nat>, c: nat, page: nat)
    requires HeapOk(m0, heads, o, overrun, freed, held) && c < CLASSES && page % PAGE == 0
    requires held !! Run(page / PAGE, 1) && OnlyIn(m0, m, page, page + PAGE)
    ensures |heads| == |o.lists| == CLASSES && Cutting(m0, m, page, 0, c, [], o.lists[c], heads[c])
    ensures heads[c] < WORD && forall a :: a in o.lists[c] ==> BytesApart(a, 8, page, PAGE)
  {
    hide Owned, Get, OnlyIn;
    OnePage(page);
    BaseApart(o, held, c, page / PAGE);
    if o.lists[c] != [] { assert o.lists[c][0] in o.lists[c]; }
    TakePages(m0, heads, o, overrun, freed, held, page, 1, m);
    PageIsMultiple(c, page);
    assert [] + o.lists[c] == o.lists[c];
  }

  /** The head of a list is 0 exactly when the list is empty. */
  lemma HeadTells(m: Memory, heads: seq<nat>, o: Owners, overrun: set<nat>, freed: set<nat>, held: set<nat>, c: nat)
    requires HeapOk(m, heads, o, overrun, freed, held) && c < CLASSES
    ensures |o.lists| == |heads| == CLASSES && (heads[c] == 0 <==> o.lists[c] == [])
  {
    hide Get;
    assert Linked(m, heads[c], o.lists[c]);
    if o.lists[c] != [] { FreeAddress(o, held, c, o.lists[c][0]); }
  }

  lemma AllSameTrans(m: Memory, m': Memory, m'': Memory, live: map<nat, Block>)
    requires SameAll(m, m', live) && SameAll(m', m'', live)
    ensures SameAll(m, m'', live)
  {
    forall b | b in live ensures SameIn(m, m'', b, b + live[b].Charge()) {
      assert SameIn(m, m', b, b + live[b].Charge()) && SameIn(m', m'', b, b + live[b].Charge());
    }
  }

  lemma RunSize(size: nat)
    ensures PagesFor(size) <= 0xffff ==> size <= 0xffffffff - OVERHEAD - (PAGE - 1)
    ensures PagesFor(size) > 0
  {
  }

  /** A zeroed run that has been stamped. */
  lemma RunStamp(m0: Memory, m: Memory, a: nat, b: Block)
    requires b.Large? && a > 0 && a % PAGE == 0 && OnlyIn(m0, m, a, a + b.pages * PAGE)
    requires b.bytes + OVERHEAD > 4096 && b.pages == PagesFor(b.bytes) && b.pages <= 0xffff
    ensures LargeOk(a, b)
    ensures var m' := Stamped(m, a, b.bytes, b.pages * PAGE, 0xffff, b.pages);
            OnlyIn(m0, m', a, a + b.Charge()) && HeaderOk(m', a, b) && Guard(m', a, b) == GUARD_MAGIC
  {
    hide Get, Stamped, HeaderOk, OnlyIn;
    var m', n := Stamped(m, a, b.bytes, b.pages * PAGE, 0xffff, b.pages), b.bytes + OVERHEAD;
    assert n <= b.pages * PAGE;
    StampedOk(m, a, b, b.pages * PAGE, 0xffff, b.pages);
    OnlyInWider(m, m', a, a + n, a, a + b.pages * PAGE);
    OnlyInTrans(m0, m, m', a, a + b.pages * PAGE);
  }

  ghost predicate OnList(lists: seq<seq<nat>>, a: nat)
  {
    exists c :: 0 <= c < |lists| && a in lists[c]
  }

  predicate NoZero(list: seq<nat>)
  {
    forall i :: 0 <= i < |list| ==> list[i] != 0
  }

  lemma ListLinked(m: Memory, heads: seq<nat>, o: Owners, overrun: set<nat>, freed: set<nat>, held: set<nat>, c: nat)
    requires HeapOk(m, heads, o, overrun, freed, held) && c < CLASSES
    ensures |o.lists| == |heads| == CLASSES && Linked(m, heads[c], o.lists[c]) && NoZero(o.lists[c])
  {
    forall i | 0 <= i < |o.lists[c]| ensures o.lists[c][i] != 0 { FreeAddress(o, held, c, o.lists[c][i]); }
  }

  /** What the header of a live allocation says. */
  lemma LiveFields(m: Memory, heads: seq<nat>, o: Owners, overrun: set<nat>, freed: set<nat>, held: set<nat>, a: nat)
    requires HeapOk(m, heads, o, overrun, freed, held) && a in o.live
    ensures Get(m, a, 8) == ALLOC_MAGIC && Get(m, a + 8, 4) == o.live[a].bytes
    ensures o.live[a].bytes + OVERHEAD <= o.live[a].Charge()
    ensures o.live[a].Small? ==> Get(m, a + 16, 2) == o.live[a].cls < CLASSES == |o.lists|
    ensures o.live[a].Large? ==> Get(m, a + 16, 2) == 0xffff && Get(m, a + 18, 2) == o.live[a].pages
    ensures o.live[a].Large? ==> a % PAGE == 0 && 0 < a && 0 < o.live[a].pages
  {
    hide Get;
    assert HeaderOk(m, a, o.live[a]);
    RoomInBlock(o, held, a);
    if o.live[a].Large? { LivePage(o, held, a); }
  }

  /** A freed pointer that has not been handed out again is recognised. */
  lemma FreedNotLive(m: Memory, heads: seq<nat>, o: Owners, overrun: set<nat>, freed: set<nat>, held: set<nat>, a: nat)
    requires HeapOk(m, heads, o, overrun, freed, held)
    ensures OnList(o.lists, a) ==> a !in o.live && Get(m, a, 8) != ALLOC_MAGIC
    ensures a in freed ==> a !in o.live && Get(m, a, 8) == FREED_MAGIC
  {
    hide Get, Linked, HeaderOk;
    if OnList(o.lists, a) {
      var c :| 0 <= c < |o.lists| && a in o.lists[c];
      FreeNotLive(o, held, c, a);
      FreeNotMagic(m, heads, o, held, c, a);
    }
    if a in freed && a in o.live { LivePage(o, held, a); }
  }

  lemma PushedParts(o: Owners, a: nat)
    requires a in o.live && o.live[a].Small? && o.live[a].cls < |o.lists|
    ensures var o' := Pushed(o, a);
            && o'.live == o.live - {a} && o'.user == o.user && o'.slab == o.slab
            && o'.lists == o.lists[o.live[a].cls := [a] + o.lists[o.live[a].cls]] && OnList(o'.lists, a)
  {
    assert a in Pushed(o, a).lists[o.live[a].cls];
  }

  class Heap {
    const pages: PageTable
    const heads: array<nat>            // small_free
    var mem: Memory
    var used: int                      // heap_used_bytes
    var allocs: int                    // allocation_count
    var frees: int                     // free_count
    var live: int                      // live_allocations
    var peak: int                      // peak_live_allocations
    var invalidFrees: int
    var doubleFrees: int
    var guardFailures: int
    ghost var o: Owners
    ghost var overrun: set<nat>        // live allocations whose owner wrote into the guard word
    ghost var freed: set<nat>          // freed page runs not handed out again
    ghost var history: seq<nat>        // the live count after every change

    ghost predicate Valid()
      reads this, heads, pages, pages.ranges
    {
      && pages.Settled() && heads.Length == CLASSES
      && HeapOk(mem, heads[..], o, overrun, freed, pages.held)
      && Accounts(used, allocs, frees, live, peak, o.live, history) && live <= peak
    }

    /** class_for_size. */
    method ClassForSize(bytes: nat) returns (c: int)
      requires bytes < U32
      ensures c == if bytes + OVERHEAD <= 4096 then ClassOf(bytes) else -1
    {
      if bytes > 0xffffffff - OVERHEAD { return -1; }
      var need := bytes + OVERHEAD;
      var i := 0;
      while i < CLASSES
        invariant 0 <= i <= CLASSES && forall d: nat :: d < i ==> Size(d) < need
      {
        if need <= Size(i) {
          assert Size(CLASSES - 1) == 4096;
          return i;
        }
        i := i + 1;
      }
      assert Size(CLASSES - 1) < need;
      return -1;
    }

    /** kmalloc_note_alloc. */
    method NoteAlloc(charge: nat, ghost before: map<nat, Block>, ghost a: nat, ghost b: Block)
      requires Accounts(used, allocs, frees, live, peak, before, history) && live <= peak
      requires a !in before && b.Charge() == charge
      modifies this`used, this`allocs, this`live, this`peak, this`history
      ensures Accounts(used, allocs, frees, live, peak, before[a := b], history) && live <= peak
      ensures used == old(used) + charge && allocs == old(allocs) + 1 && live == old(live) + 1
      ensures history == old(history) + [live]
    {
      NotedAlloc(used, allocs, frees, live, peak, before, history, a, b);
      used := used + charge;
      allocs := allocs + 1;
      live := live + 1;
      if live > peak { peak := live; }
      history := history + [live];
    }

    /** kmalloc_note_free: neither guard against underflow is ever needed. */
    method NoteFree(charge: nat, ghost before: map<nat, Block>, ghost a: nat)
      requires Accounts(used, allocs, frees, live, peak, before, history) && live <= peak
      requires a in before && before[a].Charge() == charge
      modifies this`used, this`frees, this`live, this`history
      ensures Accounts(used, allocs, frees, live, peak, before - {a}, history) && live <= peak
      ensures used == old(used) - charge && frees == old(frees) + 1 && live == old(live) - 1
      ensures history == old(history) + [live]
    {
      NotedFree(used, allocs, frees, live, peak, before, history, a);
      used := if used >= charge then used - charge else 0;
      frees := frees + 1;
      live := if live > 0 then live - 1 else live;
      history := history + [live];
    }

    /** The heap as kmem_init leaves it. */
    constructor (table: PageTable, contents: Memory)
      requires table.Settled() && table.held == {}
      ensures Valid() && pages == table && o == Owners(map[], seq(CLASSES, _ => []), map[], {})
      ensures fresh(heads)
        && used == allocs == frees == live == peak == invalidFrees == doubleFrees == guardFailures == 0
    {
      pages := table;
      heads := new nat[CLASSES](_ => 0);
      mem := contents;
      used, allocs, frees, live, peak, invalidFrees, doubleFrees, guardFailures := 0, 0, 0, 0, 0, 0, 0, 0;
      o := Owners(map[], seq(CLASSES, _ => []), map[], {});
      overrun, freed, history := {}, {}, [];
      new;
      StartOk(mem, heads[..], o);
    }

    /** page_alloc with its zeroing, before the pages have an owner. */
    method TakeZeroed(n: nat) returns (addr: nat)
      requires Valid()
      modifies this`mem, this`freed, pages, pages.ranges
      ensures pages.Settled() && heads.Length == CLASSES
      ensures pages.failures == old(pages.failures) + if addr == 0 && n > 0 then 1 else 0
      ensures addr != 0 <==> n > 0 && HasRun(old(pages.Table()), n)
      ensures addr == 0 ==>
        Valid() && pages.Table() == old(pages.Table()) && mem == old(mem) && pages.held == old(pages.held)
      ensures addr != 0 ==> addr % PAGE == 0 && RealPage(addr / PAGE) && old(pages.held) !! Run(addr / PAGE, n)
      ensures addr != 0 ==> pages.held == old(pages.held) + Run(addr / PAGE, n)
      ensures addr != 0 ==> OnlyIn(old(mem), mem, addr, addr + n * PAGE)
      ensures addr != 0 ==> LowestRun(old(pages.Table()), n, addr)
      ensures addr != 0 ==> Lost(old(pages.Table()), pages.Table(), Run(addr / PAGE, n))
      ensures addr != 0 ==> Filled(mem, addr, n * PAGE, 0)
      ensures addr != 0 ==> freed == Outlasting(old(freed), addr, addr + n * PAGE)
    {
      hide HeapOk, SettledTable;
      addr := pages.PageAlloc(n);
      if addr != 0 {
        FrontPage(addr, n);
        HeldReal(pages.Table(), pages.total, pages.free, pages.held, pages.dropped, addr / PAGE);
        FillOnlyIn(mem, addr, n * PAGE, 0);
        mem := Fill(mem, addr, n * PAGE, 0);
        freed := Outlasting(freed, addr, addr + n * PAGE);
      }
    }

    /** page_alloc as its callers see it. */
    method PageAlloc(n: nat) returns (addr: nat)
      requires Valid()
      modifies this`mem, this`freed, this`o, pages, pages.ranges
      ensures Valid() && (addr != 0 <==> n > 0 && HasRun(old(pages.Table()), n))
      ensures addr == 0 ==> o == old(o) && mem == old(mem)
      ensures addr != 0 ==>
        o == old(o).(user := old(o.user) + Run(addr / PAGE, n)) && old(o.user) !! Run(addr / PAGE, n)
      ensures addr != 0 ==> addr % PAGE == 0 && Filled(mem, addr, n * PAGE, 0)
      ensures SameAll(old(mem), mem, old(o.live))
    {
      hide SettledTable, HeapOk, Accounts, OnlyIn, SameAll, Outlasting, HasRun, Filled;
      addr := TakeZeroed(n);
      if addr == 0 {
        AllSame(mem, o.live);
      } else {
        UserTakesPages(old(mem), heads[..], o, overrun, old(freed), old(pages.held), addr, n, mem);
        UserOwns(old(mem), heads[..], o, overrun, old(freed), old(pages.held));
        o := o.(user := o.user + Run(addr / PAGE, n));
      }
    }

    /** page_free as its callers use it, with pages of their own. */
    method PageFree(addr: nat, n: nat)
      requires Valid() && (addr != 0 && n != 0 && addr % PAGE == 0 ==> Run(addr / PAGE, n) <= o.user)
      modifies this`o, pages, pages.ranges
      ensures Valid()
      ensures addr != 0 && n != 0 && addr % PAGE == 0 ==> o == old(o).(user := old(o.user) - Run(addr / PAGE, n))
      ensures addr == 0 || n == 0 || addr % PAGE != 0 ==> o == old(o) && pages.Table() == old(pages.Table())
    {
      hide SettledTable, MemoryOk, Owned, Accounts;
      if addr != 0 && n != 0 && addr % PAGE == 0 {
        UserGivesPages(mem, heads[..], o, overrun, freed, pages.held, Run(addr / PAGE, n));
        o := o.(user := o.user - Run(addr / PAGE, n));
      }
      pages.PageFree(addr, n);
    }

    /** A caller stores a byte in its payload, or past its end in the guard word. */
    method Store(ptr: nat, off: nat, v: Byte)
      requires Valid() && ptr >= HEADER && ptr - HEADER in o.live && off < o.live[ptr - HEADER].bytes + 4
      modifies this`mem, this`overrun
      ensures Valid() && mem(ptr + off) == v && OnlyIn(old(mem), mem, ptr + off, ptr + off + 1)
      ensures overrun == old(overrun) + if off < o.live[ptr - HEADER].bytes then {} else {ptr - HEADER}
    {
      hide SettledTable, MemoryOk, Owned, Accounts;
      ghost var a := ptr - HEADER;
      UserStores(mem, heads[..], o, overrun, freed, pages.held, a, ptr + off, v);
      mem := Put1(mem, ptr + off, v);
      overrun := overrun + if off < o.live[a].bytes then {} else {a};
    }

    /** A caller stores a byte in one of its pages. */
    method StoreInPage(x: nat, v: Byte)
      requires Valid() && x / PAGE in o.user
      modifies this`mem
      ensures Valid() && mem(x) == v && OnlyIn(old(mem), mem, x, x + 1)
    {
      hide SettledTable, MemoryOk, Owned, Accounts;
      UserStoresInPage(mem, heads[..], o, overrun, freed, pages.held, x, v);
      mem := Put1(mem, x, v);
    }

    /** populate_class: the lowest free page is cut into blocks, which go to the front of the list. */
    method PopulateClass(c: nat) returns (ghost page: nat, ghost blocks: seq<nat>)
      requires Valid() && c < CLASSES && |o.lists| == CLASSES
      modifies this`mem, this`freed, this`o, pages, pages.ranges, heads
      ensures Valid() && o.live == old(o.live) && o.user == old(o.user) && SameAll(old(mem), mem, old(o.live))
      ensures HasRun(old(pages.Table()), 1) ==> |o.lists| == CLASSES && o.lists[c] != []
      ensures HasRun(old(pages.Table()), 1) ==>
                && LowestRun(old(pages.Table()), 1, page)
                && Lost(old(pages.Table()), pages.Table(), Run(page / PAGE, 1))
                && Cut(c, page / PAGE, blocks) && o == Slabbed(old(o), c, page / PAGE, blocks)
      ensures !HasRun(old(pages.Table()), 1) ==> o == old(o) && pages.Table() == old(pages.Table())
      ensures pages.failures == old(pages.failures) + if HasRun(old(pages.Table()), 1) then 0 else 1
    {
      hide HeapOk, SettledTable, Accounts, OnlyIn, SameAll, Outlasting, HasRun, Filled, LowestRun, Lost, Cut, Slabbed;
      var taken := TakeZeroed(1);
      page, blocks := taken, [];
      if taken == 0 {
        AllSame(mem, o.live);
        return;
      }
      blocks := CutPage(c, taken, old(mem), old(freed), old(pages.held));
    }

    /** The loop of populate_class. */
    method CutPage(c: nat, page: nat, ghost m0: Memory, ghost freed0: set<nat>, ghost held0: set<nat>)
      returns (ghost blocks: seq<nat>)
      requires c < CLASSES == |o.lists| && heads.Length == CLASSES && page % PAGE == 0
      requires HeapOk(m0, heads[..], o, overrun, freed0, held0) && held0 !! Run(page / PAGE, 1)
      requires OnlyIn(m0, mem, page, page + 1 * PAGE) && RealPage(page / PAGE)
      modifies this`mem, this`o, heads
      ensures HeapOk(mem, heads[..], o, overrun, Outlasting(freed0, page, page + 1 * PAGE), held0 + Run(page / PAGE, 1))
      ensures o.live == old(o.live) && o.user == old(o.user) && |o.lists| == CLASSES && o.lists[c] != []
      ensures Cut(c, page / PAGE, blocks) && o == Slabbed(old(o), c, page / PAGE, blocks)
      ensures SameAll(m0, mem, o.live)
    {
      hide HeapOk, Cutting, Cut, Linked, OnlyIn, SameAll, Get, Put, Size, RealPage, Outlasting, Slabbed;
      var size := Size(c);
      ghost var p, base, was := page / PAGE, o.lists[c], heads[..];
      blocks := [];
      OnePage(page);
      PageReady(m0, mem, was, o, overrun, freed0, held0, c, page);
      var off := 0;
      while off + size <= PAGE
        invariant o == old(o) && heads[..] == was[c := heads[c]] && heads[c] < WORD
        invariant Cutting(m0, mem, page, off, c, blocks, base, heads[c]) && off <= PAGE
        decreases PAGE - off
      {
        CutStep(m0, mem, page, off, c, blocks, base, heads[c]);
        var block := page + off;
        mem := Put(mem, block, 8, heads[c]);
        heads[c] := block;
        blocks := [block] + blocks;
        off := off + size;
      }
      CutDone(m0, mem, page, off, c, blocks, base, heads[c]);
      AddSlab(m0, was, o, overrun, freed0, held0, c, p, blocks, heads[c], mem);
      SlabbedParts(o, c, p, blocks, page);
      o := Slabbed(o, c, p, blocks);
    }

    /** kmalloc from a free list that is not empty. */
    method AllocBlock(c: nat, size: nat) returns (ptr: nat)
      requires Valid() && c < CLASSES == |o.lists| && o.lists[c] != [] && 0 < size && size + OVERHEAD <= Size(c)
      modifies this`mem, this`freed, this`used, this`allocs, this`live, this`peak, this`history, this`overrun,
               this`o, heads
      ensures Valid() && ptr >= HEADER && ptr - HEADER !in old(o.live)
      ensures o == Popped(old(o), c, size) && ptr - HEADER == old(o).lists[c][0]
      ensures SameAll(old(mem), mem, old(o.live)) && Filled(mem, ptr, size, 0xA5) && ptr - HEADER !in overrun
      ensures used == old(used) + Size(c) && allocs == old(allocs) + 1
    {
      hide Owned, MemoryOk, SettledTable, Accounts, Get, Put, OnlyIn, SameAll, HeaderOk, Stamped, Fill;
      var block := heads[c];
      ghost var m', b := Fill(Stamped(mem, block, size, Size(c), c, 0), block + HEADER, size, 0xA5), Small(size, c);
      SmallStamp(mem, block, size, c);
      AllocSmall(mem, heads[..], o, overrun, freed, pages.held, c, size, m');
      heads[c] := Get(mem, block, 8);
      assert heads[..] == old(heads[..])[c := Get(mem, block, 8)];
      mem := Stamped(mem, block, size, Size(c), c, 0);
      mem := Fill(mem, block + HEADER, size, 0xA5);
      NoteAlloc(Size(c), o.live, block, b);
      overrun := overrun - {block};
      o := Popped(o, c, size);
      ptr := block + HEADER;
    }

    /** The part of kmalloc for payloads beyond the largest class. */
    method AllocRun(size: nat) returns (ptr: nat)
      requires Valid() && size < U32 && size + OVERHEAD > 4096
      modifies this`mem, this`freed, this`used, this`allocs, this`live, this`peak, this`history, this`overrun,
               this`o, pages, pages.ranges
      ensures Valid() && (ptr != 0 <==> PagesFor(size) <= 0xffff && HasRun(old(pages.Table()), PagesFor(size)))
      ensures pages.failures == old(pages.failures) + if ptr == 0 then 1 else 0
      ensures ptr == 0 ==> o == old(o) && used == old(used) && allocs == old(allocs) && mem == old(mem)
      ensures ptr == 0 ==> pages.Table() == old(pages.Table())
      ensures ptr != 0 ==> ptr >= HEADER && ptr - HEADER !in old(o.live)
      ensures ptr != 0 ==> o == old(o).(live := old(o.live)[ptr - HEADER := Large(size, PagesFor(size))])
      ensures ptr != 0 ==> used == old(used) + PagesFor(size) * PAGE && allocs == old(allocs) + 1
      ensures ptr != 0 ==> LowestRun(old(pages.Table()), PagesFor(size), ptr - HEADER) && ptr - HEADER !in overrun
      ensures ptr != 0 ==> Lost(old(pages.Table()), pages.Table(), Run((ptr - HEADER) / PAGE, PagesFor(size)))
      ensures SameAll(old(mem), mem, old(o.live))
    {
      hide HeapOk, SettledTable, Accounts, Get, Put, OnlyIn, SameAll, HeaderOk, Stamped, HasRun, Outlasting, Run,
           Filled, LowestRun, Lost;
      var n := PagesFor(size);
      RunSize(size);
      hide PagesFor;
      if size > 0xffffffff - OVERHEAD - (PAGE - 1) || n > 0xffff {
        pages.failures := pages.failures + 1;
        AllSame(mem, o.live);
        return 0;
      }
      var a := TakeZeroed(n);
      if a == 0 {
        AllSame(mem, o.live);
        return 0;
      }
      assert heads[..] == old(heads[..]);
      StampRun(a, size, n, old(mem), old(freed), old(pages.held));
      ptr := a + HEADER;
    }

    /** kmalloc stamps the pages it got. */
    method StampRun(a: nat, size: nat, n: nat, ghost m0: Memory, ghost freed0: set<nat>, ghost held0: set<nat>)
      requires size + OVERHEAD > 4096 && n == PagesFor(size) && n <= 0xffff && a > 0 && a % PAGE == 0
      requires HeapOk(m0, heads[..], o, overrun, freed0, held0) && held0 !! Run(a / PAGE, n)
      requires OnlyIn(m0, mem, a, a + n * PAGE)
      requires Accounts(used, allocs, frees, live, peak, o.live, history) && live <= peak
      modifies this`mem, this`used, this`allocs, this`live, this`peak, this`history, this`overrun, this`o
      ensures a !in old(o.live) && o == old(o).(live := old(o.live)[a := Large(size, n)]) && a !in overrun
      ensures HeapOk(mem, heads[..], o, overrun, Outlasting(freed0, a, a + n * PAGE), held0 + Run(a / PAGE, n))
      ensures Accounts(used, allocs, frees, live, peak, o.live, history) && live <= peak
      ensures used == old(used) + n * PAGE && allocs == old(allocs) + 1 && SameAll(m0, mem, old(o.live))
    {
      hide HeapOk, Accounts, Get, Put, OnlyIn, SameAll, HeaderOk, Stamped, Outlasting, PagesFor, Run;
      ghost var b := Large(size, n);
      RunStamp(m0, mem, a, b);
      mem := Stamped(mem, a, size, n * PAGE, 0xffff, n);
      ghost var hs, o', overrun' := heads[..], o.(live := o.live[a := b]), overrun - {a};
      ghost var freed', held' := Outlasting(freed0, a, a + n * PAGE), held0 + Run(a / PAGE, n);
      AllocLarge(m0, hs, o, overrun, freed0, held0, a, b, mem);
      assert HeapOk(mem, hs, o', overrun', freed', held');
      NoteAlloc(n * PAGE, o.live, a, b);
      overrun := overrun';
      o := o';
      assert heads[..] == hs;
    }

    /** kmalloc. */
    method Kmalloc(size: nat) returns (ptr: nat)
      requires Valid() && size < U32 && |o.lists| == CLASSES
      modifies this`mem, this`freed, this`used, this`allocs, this`live, this`peak, this`history, this`overrun,
               this`o, heads, pages, pages.ranges
      ensures Valid() && (ptr != 0 <==> CanServe(old(o.lists), old(pages.Table()), size))
      ensures ptr == 0 ==> o == old(o) && used == old(used) && allocs == old(allocs)
      ensures ptr == 0 ==> pages.Table() == old(pages.Table())
      ensures ptr != 0 ==> ptr >= HEADER && ptr - HEADER !in old(o.live)
      ensures ptr != 0 ==> o.live == old(o.live)[ptr - HEADER := BlockFor(size)] && o.user == old(o.user)
      ensures ptr != 0 ==> used == old(used) + BlockFor(size).Charge() && allocs == old(allocs) + 1
      ensures SameAll(old(mem), mem, old(o.live))
      ensures ptr != 0 && size + OVERHEAD <= 4096 ==> Filled(mem, ptr, size, 0xA5)
      ensures ptr != 0 ==> ptr - HEADER !in overrun
      ensures ptr != 0 && size + OVERHEAD <= 4096 && old(o.lists)[ClassOf(size)] != [] ==>
                && ptr - HEADER == old(o.lists)[ClassOf(size)][0] && pages.Table() == old(pages.Table())
                && o.lists == old(o.lists)[ClassOf(size) := old(o.lists)[ClassOf(size)][1..]]
      ensures ptr != 0 && size + OVERHEAD > 4096 ==>
                && o.lists == old(o.lists)
                && LowestRun(old(pages.Table()), PagesFor(size), ptr - HEADER)
                && Lost(old(pages.Table()), pages.Table(), Run((ptr - HEADER) / PAGE, PagesFor(size)))
      ensures pages.failures == old(pages.failures) +
                if ptr != 0 || size == 0 then 0 else if size + OVERHEAD <= 4096 then 2 else 1
    {
      hide HeapOk, SettledTable, Accounts, SameAll, HasRun, Size, LowestRun, Lost, PagesFor, Run, LeastPages;
      AllSame(mem, o.live);
      if size == 0 { return 0; }
      var c := ClassForSize(size);
      if c < 0 {
        ServesLarge(o.lists, pages.Table(), size);
        ptr := AllocRun(size);
        return;
      }
      HeadTells(mem, heads[..], o, overrun, freed, pages.held, c);
      if heads[c] == 0 { ghost var page, blocks := PopulateClass(c); }
      HeadTells(mem, heads[..], o, overrun, freed, pages.held, c);
      if heads[c] == 0 {
        pages.failures := pages.failures + 1;
        return 0;
      }
      ghost var middle := mem;
      ptr := AllocBlock(c, size);
      AllSameTrans(old(mem), middle, mem, old(o.live));
    }

    /** The inner loop of small_free_list_contains. */
    method ListContains(c: nat, block: nat) returns (found: bool)
      requires c < CLASSES == heads.Length == |o.lists| && Linked(mem, heads[c], o.lists[c]) && NoZero(o.lists[c])
      ensures found <==> block in o.lists[c]
    {
      hide Get;
      var it := heads[c];
      ghost var i: nat, list := 0, o.lists[c];
      while it != 0
        invariant i <= |list| && it == At(list, i) && forall k :: 0 <= k < i ==> list[k] != block
        decreases |list| - i
      {
        if it == block { return true; }
        it := Get(mem, it, 8);
        i := i + 1;
      }
      return false;
    }

    /** small_free_list_contains. */
    method FreeListContains(block: nat) returns (found: bool)
      requires Valid()
      ensures found <==> OnList(o.lists, block)
    {
      hide SettledTable, Accounts, HeapOk, Linked;
      HeadTells(mem, heads[..], o, overrun, freed, pages.held, 0);
      var c := 0;
      while c < CLASSES
        invariant 0 <= c <= CLASSES && forall d :: 0 <= d < c ==> block !in o.lists[d]
      {
        ListLinked(mem, heads[..], o, overrun, freed, pages.held, c);
        found := ListContains(c, block);
        if found { return; }
        c := c + 1;
      }
      return false;
    }

    /** kmalloc_size. */
    method KmallocSize(ptr: nat) returns (size: nat)
      requires Valid() && (ptr == 0 || ptr >= HEADER)
      ensures ptr != 0 && ptr - HEADER in o.live && ptr - HEADER !in overrun ==> size == o.live[ptr - HEADER].bytes
      ensures ptr != 0 ==>
                var a: nat := ptr - HEADER;
                a in o.live ==> size == if Guard(mem, a, o.live[a]) == GUARD_MAGIC then o.live[a].bytes else 0
      ensures ptr == 0 || Get(mem, ptr - HEADER, 8) != ALLOC_MAGIC ==> size == 0
    {
      hide SettledTable, Accounts, Owned, ListsLinked, FreedOk, Get;
      if ptr == 0 { return 0; }
      var header: nat := ptr - HEADER;
      if header in o.live { assert HeaderOk(mem, header, o.live[header]); }
      if Get(mem, header, 8) != ALLOC_MAGIC { return 0; }
      if Get(mem, header + HEADER + Get(mem, header + 8, 4), 4) != GUARD_MAGIC { return 0; }
      return Get(mem, header + 8, 4);
    }

    /** kfree of a live small block. */
    method FreeBlock(a: nat)
      requires Valid() && a in o.live && o.live[a].Small?
      modifies this`mem, this`used, this`frees, this`live, this`history, this`overrun, this`o, heads
      ensures Valid() && o.live == old(o.live) - {a} && o.user == old(o.user) && o.slab == old(o.slab)
      ensures |old(o.lists)| == |o.lists| == CLASSES && OnList(o.lists, a) && SameOthers(old(mem), mem, old(o.live), a)
      ensures var c := old(o.live)[a].cls; c < CLASSES && o.lists == old(o.lists)[c := [a] + old(o.lists)[c]]
      ensures Filled(mem, a + HEADER, old(o.live)[a].bytes, 0xDD)
      ensures used == old(used) - old(o.live)[a].Charge() && frees == old(frees) + 1
    {
      hide HeapOk, SettledTable, Accounts, Get, Put, OnlyIn, SameOthers, Scrubbed, Size, Filled, OnList;
      var c, bytes := Get(mem, a + 16, 2), Get(mem, a + 8, 4);
      LiveFields(mem, heads[..], o, overrun, freed, pages.held, a);
      ScrubbedIn(mem, a, bytes, o.live[a].Charge());
      mem := Scrubbed(mem, a, bytes);
      FreeSmall(old(mem), heads[..], o, overrun, freed, pages.held, a, mem);
      ScrubbedFilled(old(mem), a, bytes, heads[c]);
      mem := Put(mem, a, 8, heads[c]);
      heads[c] := a;
      assert heads[..] == old(heads[..])[c := a];
      NoteFree(Size(c), o.live, a);
      PushedParts(o, a);
      overrun := overrun - {a};
      o := Pushed(o, a);
    }

    /** kfree of a live page run. */
    method FreeRun(a: nat)
      requires Valid() && a in o.live && o.live[a].Large?
      modifies this`mem, this`used, this`frees, this`live, this`history, this`overrun, this`freed, this`o
      modifies pages, pages.ranges
      ensures Valid() && o == old(o).(live := old(o.live) - {a}) && a in freed
      ensures SameOthers(old(mem), mem, old(o.live), a)
      ensures used == old(used) - old(o.live)[a].Charge() && frees == old(frees) + 1
      ensures old(pages.count) < pages.ranges.Length ==>
                pages.free == old(pages.free) + old(o.live)[a].pages && pages.dropped == old(pages.dropped)
      ensures old(pages.count) < pages.ranges.Length ==>
                Gained(old(pages.Table()), pages.Table(), PagesOf(a, old(o.live)[a]))
      ensures old(pages.count) == pages.ranges.Length ==>
                pages.dropped == old(pages.dropped) + PagesOf(a, old(o.live)[a])
      ensures Filled(mem, a + HEADER, old(o.live)[a].bytes, 0xDD)
    {
      hide HeapOk, SettledTable, Accounts, Get, Put, OnlyIn, SameOthers, Marked, Run, Gained, Filled;
      var n, bytes := Get(mem, a + 18, 2), Get(mem, a + 8, 4);
      LiveFields(mem, heads[..], o, overrun, freed, pages.held, a);
      MarkedIn(mem, a, bytes, o.live[a].Charge());
      mem := Marked(mem, a, bytes);
      FreeLarge(old(mem), heads[..], o, overrun, freed, pages.held, a, mem);
      NoteFree(n * PAGE, o.live, a);
      overrun := overrun - {a};
      freed := freed + {a};
      o := o.(live := o.live - {a});
      pages.PageFree(a, n);
      assert heads[..] == old(heads[..]);
    }

    /** kfree of something that does not carry the allocation mark. */
    method FaultyFree(a: nat)
      requires Valid() && Get(mem, a, 8) != ALLOC_MAGIC
      modifies this`doubleFrees, this`invalidFrees
      ensures Valid() && doubleFrees + invalidFrees == old(doubleFrees + invalidFrees) + 1
      ensures doubleFrees == old(doubleFrees) + if Get(mem, a, 8) == FREED_MAGIC || OnList(o.lists, a) then 1 else 0
    {
      hide HeapOk, SettledTable, Accounts, Get;
      var listed := FreeListContains(a);
      if Get(mem, a, 8) == FREED_MAGIC || listed {
        doubleFrees := doubleFrees + 1;
      } else {
        invalidFrees := invalidFrees + 1;
      }
    }

    /** kfree: of 0, of an owned pointer, or of one whose header does not look allocated. */
    method Kfree(ptr: nat)
      requires Valid() && (ptr == 0 || ptr >= HEADER)
      requires ptr != 0 && Get(mem, ptr - HEADER, 8) == ALLOC_MAGIC ==> ptr - HEADER in o.live
      modifies this`mem, this`used, this`frees, this`live, this`history, this`overrun, this`freed, this`o
      modifies this`doubleFrees, this`invalidFrees, this`guardFailures, heads, pages, pages.ranges
      ensures Valid()
      ensures ptr == 0 || ptr - HEADER !in old(o.live) ==> NothingFreed()
      ensures ptr == 0 ==> doubleFrees == old(doubleFrees) && invalidFrees == old(invalidFrees)
      ensures ptr != 0 && ptr - HEADER !in old(o.live) ==>
                doubleFrees + invalidFrees == old(doubleFrees + invalidFrees) + 1
      ensures ptr != 0 && (OnList(old(o.lists), ptr - HEADER) || ptr - HEADER in old(freed)) ==>
                ptr - HEADER !in old(o.live) && doubleFrees == old(doubleFrees) + 1
      ensures ptr != 0 && ptr - HEADER in old(o.live) ==>
                && o.live == old(o.live) - {ptr - HEADER} && o.user == old(o.user)
                && used == old(used) - old(o.live)[ptr - HEADER].Charge() && frees == old(frees) + 1
                && doubleFrees == old(doubleFrees) && invalidFrees == old(invalidFrees)
                && SameOthers(old(mem), mem, old(o.live), ptr - HEADER)
                && (OnList(o.lists, ptr - HEADER) || ptr - HEADER in freed)
                && Filled(mem, ptr, old(o.live)[ptr - HEADER].bytes, 0xDD)
      ensures ptr != 0 ==>
                var a: nat := ptr - HEADER;
                a in old(o.live) && old(o.live)[a].Small? ==>
                  && var c := old(o.live)[a].cls;
                  c < CLASSES == |old(o.lists)| && o.lists == old(o.lists)[c := [a] + old(o.lists)[c]]
                  && pages.Table() == old(pages.Table())
      ensures ptr != 0 ==>
                var a: nat := ptr - HEADER;
                a in old(o.live) && old(o.live)[a].Large? ==>
                  && o.lists == old(o.lists)
                  && (old(pages.count) < pages.ranges.Length ==>
                        Gained(old(pages.Table()), pages.Table(), PagesOf(a, old(o.live)[a])))
      ensures ptr != 0 ==>
                var a: nat := ptr - HEADER;
                a in old(o.live) ==>
                  guardFailures == old(guardFailures) +
                    if Guard(old(mem), a, old(o.live)[a]) == GUARD_MAGIC then 0 else 1
    {
      hide HeapOk, SettledTable, Accounts, Get, SameOthers, OnList, Gained, Filled;
      if ptr == 0 { return; }
      var header: nat := ptr - HEADER;
      FreedNotLive(mem, heads[..], o, overrun, freed, pages.held, header);
      if header in o.live { LiveFields(mem, heads[..], o, overrun, freed, pages.held, header); }
      if Get(mem, header, 8) != ALLOC_MAGIC {
        FaultyFree(header);
        return;
      }
      if Get(mem, header + HEADER + Get(mem, header + 8, 4), 4) != GUARD_MAGIC {
        guardFailures := guardFailures + 1;
      }
      var c := Get(mem, header + 16, 2);
      if c == 0xffff {
        FreeRun(header);
      } else {
        assert c < CLASSES;   // the third branch of kfree is for damaged headers
        FreeBlock(header);
      }
    }

    /** Everything but the fault counters is as it was. */
    twostate predicate NothingFreed()
      reads this, heads, pages, pages.ranges
    {
      && mem == old(mem) && o == old(o) && heads[..] == old(heads[..]) && freed == old(freed) && overrun == old(overrun)
      && used == old(used) && frees == old(frees) && live == old(live) && guardFailures == old(guardFailures)
      && unchanged(pages) && unchanged(pages.ranges)
    }
  }
}
