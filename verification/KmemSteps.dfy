/**
 The invariant of the heap of kernel/core/kmem.c, ownership and memory together, and that
 every step of the allocator and of its callers keeps it.
 */
module KmemSteps {
  import opened KmemRanges
  import opened KmemMemory
  import opened KmemShape
  import opened KmemOwners
  import opened KmemLinks

  ghost predicate HeapOk(m: Memory, heads: seq<nat>, o: Owners, overrun: set<nat>, freed: set<nat>, held: set<nat>)
  {
    Owned(o, held) && MemoryOk(m, heads, o, overrun, freed, held)
  }

  /** The freed marks outside the pages from lo to hi. */
  function Outlasting(freed: set<nat>, lo: nat, hi: nat): set<nat>
  {
    set f | f in freed && !(lo <= f < hi)
  }

  // ---- Small blocks -----------------------------------------------------------------------------------------------

  lemma ListsAfterPop(m: Memory, heads: seq<nat>, o: Owners, c: nat, bytes: nat)
    requires ListsLinked(m, heads, o.lists) && c < CLASSES && o.lists[c] != []
    ensures heads[c] == o.lists[c][0] && ListsLinked(m, heads[c := Get(m, heads[c], 8)], Popped(o, c, bytes).lists)
  {
    hide Get;
    var list, rest := o.lists[c], o.lists[c][1..];
    assert Linked(m, heads[c], list);
    assert Get(m, list[0], 8) == At(list, 1) == At(rest, 0);
    forall i | 0 <= i < |rest| ensures Get(m, rest[i], 8) == At(rest, i + 1) { assert rest[i] == list[i + 1]; }
  }

  /** kmalloc takes the first free block of class c and stamps it. */
  lemma AllocSmall(m: Memory, heads: seq<nat>, o: Owners, overrun: set<nat>, freed: set<nat>, held: set<nat>,
                   c: nat, bytes: nat, m': Memory)
    requires HeapOk(m, heads, o, overrun, freed, held) && c < CLASSES && o.lists[c] != []
    requires 0 < bytes && bytes + OVERHEAD <= Size(c) && OnlyIn(m, m', heads[c], heads[c] + Size(c))
    requires HeaderOk(m', heads[c], Small(bytes, c)) && Guard(m', heads[c], Small(bytes, c)) == GUARD_MAGIC
    ensures heads[c] == o.lists[c][0] && heads[c] !in o.live
    ensures HeapOk(m', heads[c := Get(m, heads[c], 8)], Popped(o, c, bytes), overrun - {heads[c]}, freed, held)
    ensures SameAll(m, m', o.live)
  {
    hide Owned, Get, HeaderOk, Linked, OnlyIn;
    var a, o' := heads[c], Popped(o, c, bytes);
    ListsAfterPop(m, heads, o, c, bytes);
    PopKeeps(o, held, c, bytes);
    WriteInLive(m, m', o', held, a);
    LinkedSame(m, m', heads[c := Get(m, a, 8)], o'.lists);
    OthersSurvive(m, m', o', held, a, overrun);
    FreedStays(m, m', o', held, a, freed);
    forall b | b in o.live ensures SameIn(m, m', b, b + o.live[b].Charge()) { assert b in o'.live && b != a; }
  }

  lemma ListsAfterPush(m: Memory, heads: seq<nat>, o: Owners, held: set<nat>, a: nat)
    requires Owned(o, held) && ListsLinked(m, heads, o.lists) && a in o.live && o.live[a].Small?
    ensures o.live[a].cls < CLASSES
    ensures var c := o.live[a].cls;
            ListsLinked(Put(m, a, 8, heads[c]), heads[c := a], Pushed(o, a).lists)
  {
    hide Get, Put, LiveOk, NoLeak, RunsApart, PagesOk, SlabOk;
    RoomInBlock(o, held, a);
    var c := o.live[a].cls;
    var m' := Put(m, a, 8, heads[c]);
    PutOnlyIn(m, a, 8, heads[c]);
    forall d, x | 0 <= d < CLASSES && x in o.lists[d] ensures BytesApart(x, 8, a, 8) && Get(m', x, 8) == Get(m, x, 8) {
      FreeLiveApart(o, held, d, x, a);
      GetOther(m, m', a, a + 8, x, 8);
    }
    assert Linked(m, heads[c], o.lists[c]);
    if o.lists[c] != [] { FreeAddress(o, held, c, o.lists[c][0]); }
    PushLinked(m, heads[c], o.lists[c], a);
    forall d | 0 <= d < CLASSES && d != c ensures Linked(m', heads[d], o.lists[d]) {
      assert Linked(m, heads[d], o.lists[d]);
      forall i | 0 <= i < |o.lists[d]| ensures Get(m', o.lists[d][i], 8) == At(o.lists[d], i + 1) {
        assert o.lists[d][i] in o.lists[d];
      }
    }
  }

  /** kfree scrubs a small block (m1) and pushes it on its list. */
  lemma FreeSmall(m: Memory, heads: seq<nat>, o: Owners, overrun: set<nat>, freed: set<nat>, held: set<nat>,
                  a: nat, m1: Memory)
    requires HeapOk(m, heads, o, overrun, freed, held) && a in o.live && o.live[a].Small?
    requires OnlyIn(m, m1, a, a + o.live[a].Charge())
    ensures o.live[a].cls < CLASSES && |heads| == CLASSES
    ensures var c := o.live[a].cls; var m' := Put(m1, a, 8, heads[c]);
            && HeapOk(m', heads[c := a], Pushed(o, a), overrun - {a}, freed, held)
            && SameOthers(m, m', o.live, a)
  {
    hide Owned, Get, HeaderOk, Linked, OnlyIn, Put;
    RoomInBlock(o, held, a);
    var c := o.live[a].cls;
    var m' := Put(m1, a, 8, heads[c]);
    WriteInLive(m, m1, o, held, a);
    LinkedSame(m, m1, heads, o.lists);
    ListsAfterPush(m1, heads, o, held, a);
    PutOnlyIn(m1, a, 8, heads[c]);
    OnlyInWider(m1, m', a, a + 8, a, a + o.live[a].Charge());
    OnlyInTrans(m, m1, m', a, a + o.live[a].Charge());
    WriteInLive(m, m', o, held, a);
    OthersSurvive(m, m', o, held, a, overrun);
    FreedStays(m, m', o, held, a, freed);
    PushKeeps(o, held, a);
  }

  // ---- Page runs --------------------------------------------------------------------------------------------------

  lemma UnheldOutside(o: Owners, held: set<nat>, a: nat, n: nat)
    requires Owned(o, held) && a % PAGE == 0 && held !! Run(a / PAGE, n)
    ensures Outside(o, a, a + n * PAGE)
  {
    forall p: nat | a <= p * PAGE < a + n * PAGE ensures p !in o.slab && !InLarge(o.live, p) {
      IntervalIsRun(p, a, n);
    }
  }

  /** Freshly taken pages may be written; the rest of the heap does not notice. */
  lemma TakePages(m: Memory, heads: seq<nat>, o: Owners, overrun: set<nat>, freed: set<nat>, held: set<nat>,
                  a: nat, n: nat, m': Memory)
    requires HeapOk(m, heads, o, overrun, freed, held) && a % PAGE == 0 && n > 0 && held !! Run(a / PAGE, n)
    requires OnlyIn(m, m', a, a + n * PAGE)
    ensures HeapOk(m', heads, o, overrun, Outlasting(freed, a, a + n * PAGE), held)
    ensures FreedOk(m', Outlasting(freed, a, a + n * PAGE), held + Run(a / PAGE, n))
    ensures SameAll(m, m', o.live)
  {
    hide Owned, Outside, Get, OnlyIn, HeaderOk, Linked;
    var hi := a + n * PAGE;
    UnheldOutside(o, held, a, n);
    OutsideKeeps(m, m', heads, o, overrun, Outlasting(freed, a, hi), held, a, hi);
    WriteOutside(m, m', o, held, a, hi);
    forall f | f in Outlasting(freed, a, hi) ensures f / PAGE !in Run(a / PAGE, n) {
      assert f == f / PAGE * PAGE;
      IntervalIsRun(f / PAGE, a, n);
    }
  }

  /** kmalloc takes a run of pages and stamps it. */
  lemma AllocLarge(m: Memory, heads: seq<nat>, o: Owners, overrun: set<nat>, freed: set<nat>, held: set<nat>,
                   a: nat, b: Block, m': Memory)
    requires HeapOk(m, heads, o, overrun, freed, held) && b.Large? && LargeOk(a, b) && held !! PagesOf(a, b)
    requires OnlyIn(m, m', a, a + b.Charge()) && HeaderOk(m', a, b) && Guard(m', a, b) == GUARD_MAGIC
    ensures a !in o.live
    ensures HeapOk(m', heads, o.(live := o.live[a := b]), overrun - {a},
                   Outlasting(freed, a, a + b.pages * PAGE), held + Run(a / PAGE, b.pages))
    ensures SameAll(m, m', o.live)
  {
    hide Owned, Get, OnlyIn, HeaderOk, Linked, FreedOk, ListsLinked, Run;
    assert PagesOf(a, b) == Run(a / PAGE, b.pages);
    AddRunKeeps(o, held, a, b);
    TakePages(m, heads, o, overrun, freed, held, a, b.pages, m');
  }

  /** kfree marks a run as freed and gives its pages back. */
  lemma FreeLarge(m: Memory, heads: seq<nat>, o: Owners, overrun: set<nat>, freed: set<nat>, held: set<nat>,
                  a: nat, m': Memory)
    requires HeapOk(m, heads, o, overrun, freed, held) && a in o.live && o.live[a].Large?
    requires OnlyIn(m, m', a, a + o.live[a].Charge()) && Get(m', a, 8) == FREED_MAGIC
    ensures PagesOf(a, o.live[a]) <= held
    ensures HeapOk(m', heads, o.(live := o.live - {a}), overrun - {a}, freed + {a}, held - PagesOf(a, o.live[a]))
    ensures SameOthers(m, m', o.live, a)
  {
    hide Owned, Get, OnlyIn, HeaderOk, Linked;
    RoomInBlock(o, held, a);
    DropRunKeeps(o, held, a);
    WriteInLive(m, m', o, held, a);
    LinkedSame(m, m', heads, o.lists);
    OthersSurvive(m, m', o, held, a, overrun);
    FreedStays(m, m', o, held, a, freed);
    FrontPage(a, o.live[a].pages);
  }

  lemma FrontPage(a: nat, n: nat)
    requires n > 0
    ensures a / PAGE in Run(a / PAGE, n)
  {
  }

  /** populate_class cuts a fresh page into blocks and links them in front of the list. */
  lemma AddSlab(m: Memory, heads: seq<nat>, o: Owners, overrun: set<nat>, freed: set<nat>, held: set<nat>,
                c: nat, p: nat, blocks: seq<nat>, head: nat, m': Memory)
    requires HeapOk(m, heads, o, overrun, freed, held) && c < CLASSES && p !in held && RealPage(p) && Cut(c, p, blocks)
    requires OnlyIn(m, m', p * PAGE, p * PAGE + PAGE) && Linked(m', head, blocks + o.lists[c])
    ensures HeapOk(m', heads[c := head], Slabbed(o, c, p, blocks), overrun,
                   Outlasting(freed, p * PAGE, p * PAGE + PAGE), held + {p})
    ensures SameAll(m, m', o.live)
  {
    hide Owned, Get, OnlyIn, HeaderOk, Linked, Cut;
    assert Run(p, 1) == {p} && p * PAGE / PAGE == p;
    SlabKeeps(o, held, c, p, blocks);
    TakePages(m, heads, o, overrun, freed, held, p * PAGE, 1, m');
  }

  /** populate_class after the blocks below off have been pushed; base is the list before. */
  ghost predicate Cutting(m0: Memory, m: Memory, page: nat, off: nat, c: nat, blocks: seq<nat>, base: seq<nat>,
                          head: nat)
    requires c < CLASSES
  {
    && OnlyIn(m0, m, page, page + PAGE) && NoDup(blocks) && off <= PAGE && (page + off) % Size(c) == 0
    && (forall a: nat :: a in blocks <==> page <= a < page + off && a % Size(c) == 0)
    && Linked(m, head, blocks + base)
  }

  lemma CutStep(m0: Memory, m: Memory, page: nat, off: nat, c: nat, blocks: seq<nat>, base: seq<nat>, head: nat)
    requires c < CLASSES && Cutting(m0, m, page, off, c, blocks, base, head) && off + Size(c) <= PAGE && head < WORD
    requires forall a :: a in base ==> BytesApart(a, 8, page, PAGE)
    ensures Cutting(m0, Put(m, page + off, 8, head), page, off + Size(c), c, [page + off] + blocks, base, page + off)
  {
    hide Get, Put, Linked, OnlyIn, Size;
    var x := page + off;
    forall a | a in blocks + base ensures BytesApart(a, 8, x, 8) {
      if a in blocks { SameSizeApart(c, a, x); }
    }
    PushLinked(m, head, blocks + base, x);
    assert [x] + (blocks + base) == [x] + blocks + base;
    PutOnlyIn(m, x, 8, head);
    OnlyInWider(m, Put(m, x, 8, head), x, x + 8, page, page + PAGE);
    OnlyInTrans(m0, m, Put(m, x, 8, head), page, page + PAGE);
    assert x !in blocks;
    NextMultiple(c, x);
    forall a: nat ensures a in [x] + blocks <==> page <= a < x + Size(c) && a % Size(c) == 0 { }
  }

  lemma MultipleMod(s: nat, j: nat)
    requires s > 0
    ensures (s * j) % s == 0
  {
    var q, r := (s * j) / s, (s * j) % s;
    assert r == s * (j - q);
    if j - q >= 1 { AtLeast(s, j - q); } else if q - j >= 1 { AtLeast(s, q - j); }
  }

  lemma AtLeast(s: int, d: int)
    requires s >= 0 && d >= 1
    ensures s * d >= s && s * (0 - d) <= 0 - s
  {
    assert s * d == s + s * (d - 1);
  }

  /** The multiples of a class size are that size apart. */
  lemma NextMultiple(c: nat, x: nat)
    requires c < CLASSES && x % Size(c) == 0
    ensures (x + Size(c)) % Size(c) == 0 && forall a: nat :: x <= a < x + Size(c) && a % Size(c) == 0 ==> a == x
  {
    var s := Size(c);
    hide Size;
    assert x + s == s * (x / s + 1);
    MultipleMod(s, x / s + 1);
    forall a: nat | x <= a < x + s && a % s == 0 ensures a == x {
      if a != x { SameSizeApart(c, a, x); }
    }
  }

  lemma CutDone(m0: Memory, m: Memory, page: nat, off: nat, c: nat, blocks: seq<nat>, base: seq<nat>, head: nat)
    requires c < CLASSES && Cutting(m0, m, page, off, c, blocks, base, head) && off + Size(c) > PAGE && page % PAGE == 0
    ensures Cut(c, page / PAGE, blocks) && OnlyIn(m0, m, page, page + PAGE) && Linked(m, head, blocks + base)
    ensures page in blocks
  {
    hide Linked, OnlyIn;
    PageIsMultiple(c, page);
    if off < PAGE { SameSizeApart(c, page + off, page + PAGE); }
    assert off == PAGE;
    forall a: nat ensures a / PAGE == page / PAGE <==> page <= a < page + PAGE { }
  }

  lemma PageIsMultiple(c: nat, page: nat)
    requires c < CLASSES && page % PAGE == 0
    ensures page % Size(c) == 0 && (page + PAGE) % Size(c) == 0
  {
    var s, q := Size(c), page / PAGE;
    var k: nat := if c == 0 then 128 else if c == 1 then 64 else if c == 2 then 32 else if c == 3 then 16
                  else if c == 4 then 8 else if c == 5 then 4 else if c == 6 then 2 else 1;
    assert s * k == PAGE;
    hide Size;
    assert page == q * (s * k) && page + PAGE == (q + 1) * (s * k);
    Regroup(q, s, k);
    Regroup(q + 1, s, k);
    MultipleMod(s, k * q);
    MultipleMod(s, k * (q + 1));
  }

  /** The free blocks of a class lie outside a page that is no slab. */
  lemma BaseApart(o: Owners, held: set<nat>, c: nat, p: nat)
    requires Owned(o, held) && c < CLASSES && p !in held
    ensures forall a :: a in o.lists[c] ==> BytesApart(a, 8, p * PAGE, PAGE) && 0 < a < WORD
  {
    assert p !in o.slab;
    forall a | a in o.lists[c] ensures BytesApart(a, 8, p * PAGE, PAGE) && 0 < a < WORD {
      FreeAddress(o, held, c, a);
      assert ListOk(o.slab, c, o.lists[c]);
      BlockPageApart(o.slab, c, a, p);
    }
  }

  /** What a stamped small block looks like once its payload is filled. */
  lemma SmallStamp(m: Memory, a: nat, bytes: nat, c: nat)
    requires c < CLASSES && bytes + OVERHEAD <= Size(c)
    ensures var m' := Fill(Stamped(m, a, bytes, Size(c), c, 0), a + HEADER, bytes, 0xA5);
            && HeaderOk(m', a, Small(bytes, c)) && Guard(m', a, Small(bytes, c)) == GUARD_MAGIC
            && OnlyIn(m, m', a, a + Size(c))
            && forall x: nat :: a + HEADER <= x < a + HEADER + bytes ==> m'(x) == 0xA5
  {
    hide Get, Stamped, HeaderOk;
    var b, m1 := Small(bytes, c), Stamped(m, a, bytes, Size(c), c, 0);
    var m' := Fill(m1, a + HEADER, bytes, 0xA5);
    StampedOk(m, a, b, Size(c), c, 0);
    FillOnlyIn(m1, a + HEADER, bytes, 0xA5);
    HeaderSame(m1, m', a, b);
    GetOther(m1, m', a + HEADER, a + HEADER + bytes, a + HEADER + bytes, 4);
  }

  /** What kfree leaves of a small block before it is pushed. */
  function Scrubbed(m: Memory, a: nat, bytes: nat): Memory
  {
    Put(Fill(Put(m, a + HEADER + bytes, 4, 0), a + HEADER, bytes, 0xDD), a, 8, FREED_MAGIC)
  }

  lemma ScrubbedIn(m: Memory, a: nat, bytes: nat, n: nat)
    requires bytes + OVERHEAD <= n
    ensures OnlyIn(m, Scrubbed(m, a, bytes), a, a + n)
  {
    hide Put, Get;
    var m1 := Put(m, a + HEADER + bytes, 4, 0);
    var m2 := Fill(m1, a + HEADER, bytes, 0xDD);
    PutOnlyIn(m, a + HEADER + bytes, 4, 0);
    PutOnlyIn(m2, a, 8, FREED_MAGIC);
  }

  /** The payload is overwritten, and linking the block leaves it so. */
  lemma ScrubbedFilled(m: Memory, a: nat, bytes: nat, head: nat)
    ensures Filled(Put(Scrubbed(m, a, bytes), a, 8, head), a + HEADER, bytes, 0xDD)
  {
    hide Put, Get;
    var m2 := Fill(Put(m, a + HEADER + bytes, 4, 0), a + HEADER, bytes, 0xDD);
    PutOnlyIn(m2, a, 8, FREED_MAGIC);
    PutOnlyIn(Put(m2, a, 8, FREED_MAGIC), a, 8, head);
  }

  /** What kfree leaves of a page run. */
  function Marked(m: Memory, a: nat, bytes: nat): Memory
  {
    Fill(Put(Put(m, a, 8, FREED_MAGIC), a + HEADER + bytes, 4, 0), a + HEADER, bytes, 0xDD)
  }

  lemma MarkedIn(m: Memory, a: nat, bytes: nat, n: nat)
    requires bytes + OVERHEAD <= n
    ensures OnlyIn(m, Marked(m, a, bytes), a, a + n) && Get(Marked(m, a, bytes), a, 8) == FREED_MAGIC
    ensures Filled(Marked(m, a, bytes), a + HEADER, bytes, 0xDD)
  {
    hide Put, Get;
    var m1 := Put(m, a, 8, FREED_MAGIC);
    var m2 := Put(m1, a + HEADER + bytes, 4, 0);
    var m3 := Fill(m2, a + HEADER, bytes, 0xDD);
    Widths();
    GetPut(m, a, 8, FREED_MAGIC);
    PutOnlyIn(m, a, 8, FREED_MAGIC);
    PutOnlyIn(m1, a + HEADER + bytes, 4, 0);
    GetOther(m1, m3, a + HEADER, a + bytes + OVERHEAD, a, 8);
  }

  // ---- Callers ----------------------------------------------------------------------------------------------------

  lemma UserTakesPages(m: Memory, heads: seq<nat>, o: Owners, overrun: set<nat>, freed: set<nat>, held: set<nat>,
                       a: nat, n: nat, m': Memory)
    requires HeapOk(m, heads, o, overrun, freed, held) && a % PAGE == 0 && n > 0 && held !! Run(a / PAGE, n)
    requires OnlyIn(m, m', a, a + n * PAGE)
    ensures HeapOk(m', heads, o.(user := o.user + Run(a / PAGE, n)), overrun,
                   Outlasting(freed, a, a + n * PAGE), held + Run(a / PAGE, n))
    ensures SameAll(m, m', o.live)
  {
    hide Owned, OnlyIn;
    UserTakes(o, held, Run(a / PAGE, n));
    TakePages(m, heads, o, overrun, freed, held, a, n, m');
  }

  lemma UserGivesPages(m: Memory, heads: seq<nat>, o: Owners, overrun: set<nat>, freed: set<nat>, held: set<nat>,
                       run: set<nat>)
    requires HeapOk(m, heads, o, overrun, freed, held) && run <= o.user
    ensures run <= held && HeapOk(m, heads, o.(user := o.user - run), overrun, freed, held - run)
  {
    hide Owned;
    UserGives(o, held, run);
  }

  /** A caller writes in its payload, or past it into the guard word. */
  lemma UserStores(m: Memory, heads: seq<nat>, o: Owners, overrun: set<nat>, freed: set<nat>, held: set<nat>,
                   a: nat, x: nat, v: Byte)
    requires HeapOk(m, heads, o, overrun, freed, held) && a in o.live
    requires a + HEADER <= x < a + o.live[a].bytes + OVERHEAD
    ensures var hit := if x < a + HEADER + o.live[a].bytes then {} else {a};
            HeapOk(Put1(m, x, v), heads, o, overrun + hit, freed, held)
  {
    hide Owned, Get, HeaderOk, Linked;
    var m', b := Put1(m, x, v), o.live[a];
    RoomInBlock(o, held, a);
    assert OnlyIn(m, m', x, x + 1);
    OnlyInWider(m, m', x, x + 1, a, a + b.Charge());
    WriteInLive(m, m', o, held, a);
    LinkedSame(m, m', heads, o.lists);
    OthersSurvive(m, m', o, held, a, overrun);
    FreedStays(m, m', o, held, a, freed);
    OnlyInApart(m, m', x, x + 1, a, a + HEADER);
    HeaderSame(m, m', a, b);
    if x < a + HEADER + b.bytes { GetOther(m, m', x, x + 1, a + HEADER + b.bytes, 4); }
  }

  /** A caller writes in a page it got from page_alloc. */
  lemma UserStoresInPage(m: Memory, heads: seq<nat>, o: Owners, overrun: set<nat>, freed: set<nat>, held: set<nat>,
                         x: nat, v: Byte)
    requires HeapOk(m, heads, o, overrun, freed, held) && x / PAGE in o.user
    ensures HeapOk(Put1(m, x, v), heads, o, overrun, freed, held)
  {
    hide Owned, Outside, MemoryOk, FreedOk;
    var p := x / PAGE;
    var m', lo, hi := Put1(m, x, v), p * PAGE, p * PAGE + PAGE;
    assert OnlyIn(m, m', x, x + 1);
    assert lo <= x < hi;
    OnlyInWider(m, m', x, x + 1, lo, hi);
    UserPage(o, held, p);
    FreedElsewhere(m, heads, o, overrun, freed, held, p);
    OutsideKeeps(m, m', heads, o, overrun, freed, held, lo, hi);
  }

  lemma UserPage(o: Owners, held: set<nat>, p: nat)
    requires Owned(o, held) && p in o.user
    ensures p in held && Outside(o, p * PAGE, p * PAGE + PAGE)
  {
    hide LiveOk, NoLeak, RunsApart, SlabOk, ListOk, InLarge;
    forall q: nat | p * PAGE <= q * PAGE < p * PAGE + PAGE
      ensures q !in o.slab && !InLarge(o.live, q) { assert q == p; }
  }

  lemma FreedElsewhere(m: Memory, heads: seq<nat>, o: Owners, overrun: set<nat>, freed: set<nat>, held: set<nat>,
                       p: nat)
    requires MemoryOk(m, heads, o, overrun, freed, held) && p in held
    ensures forall f :: f in freed ==> !(p * PAGE <= f < p * PAGE + PAGE)
  {
    hide ListsLinked, HeadersOk, GuardsOk, Get;
    forall f | f in freed && p * PAGE <= f < p * PAGE + PAGE ensures f / PAGE == p { }
  }
}
