/**
 What the heap of kernel/core/kmem.c keeps in memory: next pointers in free blocks, headers and
 guard words in live ones. A write inside one owner's bytes leaves every other owner's alone.
 */
module KmemLinks {
  import opened KmemRanges
  import opened KmemMemory
  import opened KmemShape

  const ALLOC_MAGIC: nat := 0x4B4D454D48454150
  const FREED_MAGIC: nat := 0x4B4D454D46524545
  const GUARD_MAGIC: nat := 0xC0FFEE42
  const WORD: nat := 0x1_0000_0000_0000_0000

  /** Element i of a list of addresses, 0 past its end. */
  function At(list: seq<nat>, i: nat): nat
  {
    if i < |list| then list[i] else 0
  }

  /** The intrusive list from head on is list. */
  ghost predicate Linked(m: Memory, head: nat, list: seq<nat>)
  {
    head == At(list, 0) && forall i :: 0 <= i < |list| ==> Get(m, list[i], 8) == At(list, i + 1)
  }

  ghost predicate ListsLinked(m: Memory, heads: seq<nat>, lists: seq<seq<nat>>)
  {
    |heads| == |lists| == CLASSES && forall c :: 0 <= c < CLASSES ==> Linked(m, heads[c], lists[c])
  }

  /** The fields of kmalloc_header_t that are read again. */
  ghost predicate HeaderOk(m: Memory, a: nat, b: Block)
  {
    && Get(m, a, 8) == ALLOC_MAGIC && Get(m, a + 8, 4) == b.bytes
    && (b.Small? ==> Get(m, a + 16, 2) == b.cls)
    && (b.Large? ==> Get(m, a + 16, 2) == 0xffff && Get(m, a + 18, 2) == b.pages)
  }

  ghost predicate HeadersOk(m: Memory, live: map<nat, Block>)
  {
    forall a :: a in live ==> HeaderOk(m, a, live[a])
  }

  function Guard(m: Memory, a: nat, b: Block): nat
  {
    Get(m, a + HEADER + b.bytes, 4)
  }

  /** The guard word is intact unless the owner wrote past its payload. */
  ghost predicate GuardsOk(m: Memory, live: map<nat, Block>, overrun: set<nat>)
  {
    forall a :: a in live && a !in overrun ==> Guard(m, a, live[a]) == GUARD_MAGIC
  }

  /** Freed page runs that have not been handed out again still carry the freed mark. */
  ghost predicate FreedOk(m: Memory, freed: set<nat>, held: set<nat>)
  {
    forall a :: a in freed ==> a % PAGE == 0 && a / PAGE !in held && Get(m, a, 8) == FREED_MAGIC
  }

  ghost predicate MemoryOk(m: Memory, heads: seq<nat>, o: Owners, overrun: set<nat>, freed: set<nat>, held: set<nat>)
  {
    ListsLinked(m, heads, o.lists) && HeadersOk(m, o.live) && GuardsOk(m, o.live, overrun) && FreedOk(m, freed, held)
  }

  // ---- Frames -----------------------------------------------------------------------------------------------------

  /** The next pointers of all free blocks are as they were. */
  ghost predicate SameLinks(m: Memory, m': Memory, lists: seq<seq<nat>>)
  {
    forall c, i :: 0 <= c < |lists| && 0 <= i < |lists[c]| ==> Get(m', lists[c][i], 8) == Get(m, lists[c][i], 8)
  }

  /** The bytes of all live allocations but a are as they were. */
  ghost predicate SameOthers(m: Memory, m': Memory, live: map<nat, Block>, a: nat)
  {
    forall b :: b in live && b != a ==> SameIn(m, m', b, b + live[b].Charge())
  }

  /** The bytes of all live allocations are as they were. */
  ghost predicate SameAll(m: Memory, m': Memory, live: map<nat, Block>)
  {
    forall b :: b in live ==> SameIn(m, m', b, b + live[b].Charge())
  }

  lemma WriteInLive(m: Memory, m': Memory, o: Owners, held: set<nat>, a: nat)
    requires Owned(o, held) && a in o.live && OnlyIn(m, m', a, a + o.live[a].Charge())
    ensures SameLinks(m, m', o.lists) && SameOthers(m, m', o.live, a)
  {
    hide NoLeak, LiveOk, RunsApart, PagesOk, SlabOk;
    var hi := a + o.live[a].Charge();
    forall c, i | 0 <= c < |o.lists| && 0 <= i < |o.lists[c]|
      ensures Get(m', o.lists[c][i], 8) == Get(m, o.lists[c][i], 8) {
      FreeLiveApart(o, held, c, o.lists[c][i], a);
      GetOther(m, m', a, hi, o.lists[c][i], 8);
    }
    forall b | b in o.live && b != a ensures SameIn(m, m', b, b + o.live[b].Charge()) {
      LiveApart(o, held, b, a);
      OnlyInApart(m, m', a, hi, b, b + o.live[b].Charge());
    }
  }

  lemma FreedStays(m: Memory, m': Memory, o: Owners, held: set<nat>, a: nat, freed: set<nat>)
    requires Owned(o, held) && a in o.live && OnlyIn(m, m', a, a + o.live[a].Charge()) && FreedOk(m, freed, held)
    ensures FreedOk(m', freed, held)
  {
    forall f | f in freed ensures Get(m', f, 8) == FREED_MAGIC {
      assert f == f / PAGE * PAGE;
      assert f / PAGE !in o.slab && !InLarge(o.live, f / PAGE);
      LivePageApart(o, held, a, f / PAGE);
      GetOther(m, m', a, a + o.live[a].Charge(), f, 8);
    }
  }

  lemma LinkedSame(m: Memory, m': Memory, heads: seq<nat>, lists: seq<seq<nat>>)
    requires ListsLinked(m, heads, lists) && SameLinks(m, m', lists)
    ensures ListsLinked(m', heads, lists)
  {
    forall c | 0 <= c < CLASSES ensures Linked(m', heads[c], lists[c]) { assert Linked(m, heads[c], lists[c]); }
  }

  lemma HeaderSame(m: Memory, m': Memory, a: nat, b: Block)
    requires SameIn(m, m', a, a + HEADER)
    ensures HeaderOk(m, a, b) <==> HeaderOk(m', a, b)
  {
    GetSame(m, m', a, 8);
    GetSame(m, m', a + 8, 4);
    GetSame(m, m', a + 16, 2);
    GetSame(m, m', a + 18, 2);
  }

  lemma GuardSame(m: Memory, m': Memory, a: nat, b: Block)
    requires SameIn(m, m', a, a + b.bytes + OVERHEAD)
    ensures Guard(m', a, b) == Guard(m, a, b)
  {
    GetSame(m, m', a + HEADER + b.bytes, 4);
  }

  /** A live allocation has room for header, payload and guard. */
  lemma RoomInBlock(o: Owners, held: set<nat>, a: nat)
    requires Owned(o, held) && a in o.live
    ensures 0 < o.live[a].bytes && o.live[a].bytes + OVERHEAD <= o.live[a].Charge()
    ensures o.live[a].Large? ==> a % PAGE == 0 && 0 < o.live[a].pages <= 0xffff
    ensures o.live[a].Small? ==> o.live[a].cls < CLASSES
  {
    assert if o.live[a].Small? then SmallOk(o.slab, o.lists, a, o.live[a]) else LargeOk(a, o.live[a]);
  }

  /** Headers and guards of the other allocations survive. */
  lemma OthersSurvive(m: Memory, m': Memory, o: Owners, held: set<nat>, a: nat, overrun: set<nat>)
    requires Owned(o, held) && SameOthers(m, m', o.live, a)
    ensures forall b :: b in o.live && b != a ==> (HeaderOk(m, b, o.live[b]) <==> HeaderOk(m', b, o.live[b]))
    ensures forall b :: b in o.live && b != a ==> Guard(m', b, o.live[b]) == Guard(m, b, o.live[b])
  {
    forall b | b in o.live && b != a
      ensures HeaderOk(m, b, o.live[b]) <==> HeaderOk(m', b, o.live[b])
      ensures Guard(m', b, o.live[b]) == Guard(m, b, o.live[b]) {
      RoomInBlock(o, held, b);
      HeaderSame(m, m', b, o.live[b]);
      GuardSame(m, m', b, o.live[b]);
    }
  }

  // ---- Whole pages -------------------------------------------------------------------------------------------------

  /** The pages from address lo to hi belong to no slab and no run. */
  ghost predicate Outside(o: Owners, lo: nat, hi: nat)
  {
    lo % PAGE == 0 && hi % PAGE == 0 && forall p: nat :: lo <= p * PAGE < hi ==> p !in o.slab && !InLarge(o.live, p)
  }

  lemma OutsideBlock(o: Owners, c: nat, x: nat, lo: nat, hi: nat)
    requires IsBlock(o.slab, c, x) && Outside(o, lo, hi) && lo < hi
    ensures BytesApart(x, Size(c), lo, hi - lo)
  {
    InPage(c, x);
    var p := x / PAGE;
    assert !(lo <= p * PAGE < hi);
    assert lo == lo / PAGE * PAGE && hi == hi / PAGE * PAGE;
  }

  lemma OutsideLive(o: Owners, held: set<nat>, a: nat, lo: nat, hi: nat)
    requires Owned(o, held) && a in o.live && Outside(o, lo, hi) && lo < hi
    ensures BytesApart(a, o.live[a].Charge(), lo, hi - lo)
  {
    var b := o.live[a];
    RoomInBlock(o, held, a);
    if b.Small? {
      assert SmallOk(o.slab, o.lists, a, b);
      OutsideBlock(o, b.cls, a, lo, hi);
    } else {
      var top := if lo <= a then a else lo;
      assert top == top / PAGE * PAGE;
      if InRun(a, b, top / PAGE) { assert InLarge(o.live, top / PAGE); }
    }
  }

  /** Writing in pages outside every slab and run disturbs neither lists nor allocations. */
  lemma WriteOutside(m: Memory, m': Memory, o: Owners, held: set<nat>, lo: nat, hi: nat)
    requires Owned(o, held) && Outside(o, lo, hi) && lo < hi && OnlyIn(m, m', lo, hi)
    ensures SameLinks(m, m', o.lists)
    ensures SameAll(m, m', o.live)
  {
    hide NoLeak, LiveOk, RunsApart, PagesOk, SlabOk, Outside;
    forall c, i | 0 <= c < |o.lists| && 0 <= i < |o.lists[c]|
      ensures Get(m', o.lists[c][i], 8) == Get(m, o.lists[c][i], 8) {
      assert ListOk(o.slab, c, o.lists[c]);
      OutsideBlock(o, c, o.lists[c][i], lo, hi);
      GetOther(m, m', lo, hi, o.lists[c][i], 8);
    }
    forall b | b in o.live ensures SameIn(m, m', b, b + o.live[b].Charge()) {
      OutsideLive(o, held, b, lo, hi);
      OnlyInApart(m, m', lo, hi, b, b + o.live[b].Charge());
    }
  }

  /** All heap memory facts survive a write outside slabs and runs; freed marks survive where it did not write. */
  lemma OutsideKeeps(m: Memory, m': Memory, heads: seq<nat>, o: Owners, overrun: set<nat>, freed: set<nat>,
                     held: set<nat>, lo: nat, hi: nat)
    requires Owned(o, held) && Outside(o, lo, hi) && lo < hi && OnlyIn(m, m', lo, hi)
    requires MemoryOk(m, heads, o, overrun, freed, held)
    requires forall f :: f in freed ==> !(lo <= f < hi)
    ensures MemoryOk(m', heads, o, overrun, freed, held)
  {
    hide Owned, Outside, Get, OnlyIn, HeaderOk;
    WriteOutside(m, m', o, held, lo, hi);
    LinkedSame(m, m', heads, o.lists);
    forall b | b in o.live
      ensures HeaderOk(m', b, o.live[b]) && Guard(m', b, o.live[b]) == Guard(m, b, o.live[b]) {
      RoomInBlock(o, held, b);
      NarrowSame(m, m', b, o.live[b].Charge(), HEADER);
      NarrowSame(m, m', b, o.live[b].Charge(), o.live[b].bytes + OVERHEAD);
      HeaderSame(m, m', b, o.live[b]);
      GuardSame(m, m', b, o.live[b]);
    }
    FreedOutside(m, m', freed, held, o, lo, hi);
  }

  lemma NarrowSame(m: Memory, m': Memory, a: nat, n: nat, k: nat)
    requires SameIn(m, m', a, a + n) && k <= n
    ensures SameIn(m, m', a, a + k)
  {
  }

  lemma FreedOutside(m: Memory, m': Memory, freed: set<nat>, held: set<nat>, o: Owners, lo: nat, hi: nat)
    requires FreedOk(m, freed, held) && OnlyIn(m, m', lo, hi) && Outside(o, lo, hi)
    requires forall f :: f in freed ==> !(lo <= f < hi)
    ensures FreedOk(m', freed, held)
  {
    hide Get;
    forall f | f in freed ensures Get(m', f, 8) == FREED_MAGIC {
      if f < lo { AlignedBefore(f, lo); }
      GetOther(m, m', lo, hi, f, 8);
    }
  }

  lemma AlignedBefore(f: nat, lo: nat)
    requires f % PAGE == 0 && lo % PAGE == 0 && f < lo
    ensures f + PAGE <= lo
  {
  }

  // ---- Headers ----------------------------------------------------------------------------------------------------

  /** A word is written at x and everything after it changes only up to end. */
  lemma PutThen(m: Memory, x: nat, w: nat, v: nat, m': Memory, end: nat)
    requires v < Pow256(w) && x + w <= end && OnlyIn(Put(m, x, w, v), m', x + w, end)
    ensures Get(m', x, w) == v && OnlyIn(m, m', x, end)
  {
    var m1 := Put(m, x, w, v);
    PutOnlyIn(m, x, w, v);
    GetPut(m, x, w, v);
    GetOther(m1, m', x + w, end, x, w);
  }

  /** What kmalloc stores in a block before it returns it. */
  function Stamped(m: Memory, a: nat, bytes: nat, charge: nat, cls: nat, pages: nat): Memory
  {
    var m1 := Put(m, a, 8, ALLOC_MAGIC);
    var m2 := Put(m1, a + 8, 4, bytes);
    var m3 := Put(m2, a + 12, 4, charge);
    var m4 := Put(m3, a + 16, 2, cls);
    var m5 := Put(m4, a + 18, 2, pages);
    var m6 := Put(m5, a + 20, 4, 0);
    Put(m6, a + HEADER + bytes, 4, GUARD_MAGIC)
  }

  lemma StampedOk(m: Memory, a: nat, b: Block, charge: nat, cls: nat, pages: nat)
    requires b.bytes < 0x1_0000_0000 && charge < 0x1_0000_0000 && cls < 0x1_0000 && pages < 0x1_0000
    requires (b.Small? ==> cls == b.cls) && (b.Large? ==> cls == 0xffff && pages == b.pages)
    ensures var m' := Stamped(m, a, b.bytes, charge, cls, pages);
            HeaderOk(m', a, b) && Guard(m', a, b) == GUARD_MAGIC && OnlyIn(m, m', a, a + b.bytes + OVERHEAD)
  {
    hide Get, Put, OnlyIn;
    var m1 := Put(m, a, 8, ALLOC_MAGIC);
    var m2 := Put(m1, a + 8, 4, b.bytes);
    var m3 := Put(m2, a + 12, 4, charge);
    var m4 := Put(m3, a + 16, 2, cls);
    var m5 := Put(m4, a + 18, 2, pages);
    var m6 := Put(m5, a + 20, 4, 0);
    var m', g, end := Stamped(m, a, b.bytes, charge, cls, pages), a + HEADER + b.bytes, a + b.bytes + OVERHEAD;
    Widths();
    PutOnlyIn(m6, g, 4, GUARD_MAGIC);
    GetPut(m6, g, 4, GUARD_MAGIC);
    OnlyInWider(m6, m', g, end, a + HEADER, end);
    PutThen(m5, a + 20, 4, 0, m', end);
    PutThen(m4, a + 18, 2, pages, m', end);
    PutThen(m3, a + 16, 2, cls, m', end);
    PutThen(m2, a + 12, 4, charge, m', end);
    PutThen(m1, a + 8, 4, b.bytes, m', end);
    PutThen(m, a, 8, ALLOC_MAGIC, m', end);
  }

  // ---- Lists ------------------------------------------------------------------------------------------------------

  /** Writing the old head into block x and making x the head puts it in front. */
  lemma PushLinked(m: Memory, head: nat, list: seq<nat>, x: nat)
    requires Linked(m, head, list) && head < WORD
    requires forall a :: a in list ==> BytesApart(a, 8, x, 8)
    ensures Linked(Put(m, x, 8, head), x, [x] + list)
  {
    hide Get, Put;
    var m', list' := Put(m, x, 8, head), [x] + list;
    Widths();
    GetPut(m, x, 8, head);
    PutOnlyIn(m, x, 8, head);
    forall i | 0 <= i < |list'| ensures Get(m', list'[i], 8) == At(list', i + 1) {
      if i > 0 {
        assert list[i - 1] in list;
        GetOther(m, m', x, x + 8, list[i - 1], 8);
      }
    }
  }

  /** Free blocks lie at multiples of 32 between 0 and 2^64, so their addresses are no magic number. */
  lemma FreeAddress(o: Owners, held: set<nat>, c: nat, a: nat)
    requires Owned(o, held) && c < CLASSES && a in o.lists[c]
    ensures 0 < a < WORD && a % 32 == 0 && a != ALLOC_MAGIC && a != FREED_MAGIC
  {
    assert ListOk(o.slab, c, o.lists[c]);
    InPage(c, a);
  }

  /** A free block never looks allocated. */
  lemma FreeNotMagic(m: Memory, heads: seq<nat>, o: Owners, held: set<nat>, c: nat, a: nat)
    requires Owned(o, held) && ListsLinked(m, heads, o.lists) && c < CLASSES && a in o.lists[c]
    ensures Get(m, a, 8) != ALLOC_MAGIC
  {
    var list := o.lists[c];
    assert Linked(m, heads[c], list);
    var i :| 0 <= i < |list| && list[i] == a;
    if i + 1 < |list| { FreeAddress(o, held, c, list[i + 1]); }
  }
}
