/**
 How each step of kmalloc, kfree, page_alloc and page_free in kernel/core/kmem.c moves memory
 from one owner to another, and that nothing is lost or shared on the way.
 */
module KmemOwners {
  import opened KmemRanges
  import opened KmemShape

  /** The first free block of class c becomes a live allocation. */
  function Popped(o: Owners, c: nat, bytes: nat): Owners
    requires c < |o.lists| && o.lists[c] != []
  {
    o.(lists := o.lists[c := o.lists[c][1..]], live := o.live[o.lists[c][0] := Small(bytes, c)])
  }

  lemma PopKeeps(o: Owners, held: set<nat>, c: nat, bytes: nat)
    requires Owned(o, held) && c < CLASSES && o.lists[c] != [] && 0 < bytes && bytes + OVERHEAD <= Size(c)
    ensures Owned(Popped(o, c, bytes), held) && o.lists[c][0] !in o.live
  {
    hide RunsApart, PagesOk;
    var a, list := o.lists[c][0], o.lists[c];
    var o' := Popped(o, c, bytes);
    FreeNotLive(o, held, c, a);
    assert list == [a] + list[1..];
    forall b | b in list[1..] ensures b in list && b != a { }
    assert ListOk(o.slab, c, list[1..]);
    PopLive(o, held, c, bytes);
    forall d: nat, b: nat | IsBlock(o.slab, d, b) ensures b in o'.lists[d] || (b in o'.live && o'.live[b].Small?) {
      assert b in o.lists[d] || (b in o.live && o.live[b].Small?);
    }
    SmallAddsNoRun(o.live, a, Small(bytes, c));
    PagesSame(o, o', held);
  }

  lemma FreeNotLive(o: Owners, held: set<nat>, c: nat, a: nat)
    requires Owned(o, held) && c < CLASSES && a in o.lists[c]
    ensures a !in o.live
  {
    if a in o.live { FreeLiveApart(o, held, c, a, a); }
  }

  lemma PopLive(o: Owners, held: set<nat>, c: nat, bytes: nat)
    requires Owned(o, held) && c < CLASSES && o.lists[c] != [] && 0 < bytes && bytes + OVERHEAD <= Size(c)
    ensures LiveOk(o.slab, Popped(o, c, bytes).lists, Popped(o, c, bytes).live)
  {
    hide RunsApart, PagesOk, NoLeak;
    var a, list := o.lists[c][0], o.lists[c];
    assert ListOk(o.slab, c, list);
    FreeNotLive(o, held, c, a);
    forall b | b in o.live && o.live[b].Small? ensures SmallOk(o.slab, Popped(o, c, bytes).lists, b, o.live[b]) {
      assert SmallOk(o.slab, o.lists, b, o.live[b]);
    }
  }

  /** Small allocations do not count among the page runs. */
  lemma SmallAddsNoRun(live: map<nat, Block>, a: nat, b: Block)
    requires b.Small? && (a in live ==> live[a].Small?)
    ensures forall p: nat :: InLarge(live[a := b], p) <==> InLarge(live, p)
    ensures RunsApart(live) ==> RunsApart(live[a := b])
  {
    var live' := live[a := b];
    forall p: nat ensures InLarge(live', p) <==> InLarge(live, p) {
      if InLarge(live, p) {
        var x :| x in live && InRun(x, live[x], p);
        assert x in live' && InRun(x, live'[x], p);
      }
      if InLarge(live', p) {
        var x :| x in live' && InRun(x, live'[x], p);
        assert x in live && InRun(x, live[x], p);
      }
    }
  }

  lemma PagesSame(o: Owners, o': Owners, held: set<nat>)
    requires PagesOk(o.slab, o.live, o.user, held) && o'.slab == o.slab && o'.user == o.user
    requires forall p: nat :: InLarge(o'.live, p) <==> InLarge(o.live, p)
    ensures PagesOk(o'.slab, o'.live, o'.user, held)
  {
  }

  /** A live small allocation goes to the front of its free list. */
  function Pushed(o: Owners, a: nat): Owners
    requires a in o.live && o.live[a].Small? && o.live[a].cls < |o.lists|
  {
    var c := o.live[a].cls;
    o.(lists := o.lists[c := [a] + o.lists[c]], live := o.live - {a})
  }

  lemma PushKeeps(o: Owners, held: set<nat>, a: nat)
    requires Owned(o, held) && a in o.live && o.live[a].Small?
    ensures o.live[a].cls < CLASSES && Owned(Pushed(o, a), held)
  {
    hide RunsApart, PagesOk;
    assert SmallOk(o.slab, o.lists, a, o.live[a]);
    var c := o.live[a].cls;
    var o' := Pushed(o, a);
    assert ListOk(o.slab, c, o.lists[c]);
    assert ListOk(o.slab, c, [a] + o.lists[c]);
    forall b | b in o'.live && o'.live[b].Small? ensures SmallOk(o.slab, o'.lists, b, o'.live[b]) {
      assert SmallOk(o.slab, o.lists, b, o.live[b]);
    }
    assert LiveOk(o.slab, o'.lists, o'.live);
    forall d: nat, b: nat | IsBlock(o.slab, d, b) ensures b in o'.lists[d] || (b in o'.live && o'.live[b].Small?) {
      assert b in o.lists[d] || (b in o.live && o.live[b].Small?);
    }
    SmallLeavesRuns(o.live, a);
    PagesSame(o, o', held);
  }

  lemma SmallLeavesRuns(live: map<nat, Block>, a: nat)
    requires a in live && live[a].Small?
    ensures forall p: nat :: InLarge(live - {a}, p) <==> InLarge(live, p)
    ensures RunsApart(live) ==> RunsApart(live - {a})
  {
    SmallAddsNoRun(live - {a}, a, live[a]);
    assert (live - {a})[a := live[a]] == live;
  }

  /** A fresh page is cut into blocks of class c, which go to the front of the free list. */
  function Slabbed(o: Owners, c: nat, p: nat, blocks: seq<nat>): Owners
    requires c < |o.lists|
  {
    o.(slab := o.slab[p := c], lists := o.lists[c := blocks + o.lists[c]])
  }

  /** The blocks of class c in page p, each once. */
  ghost predicate Cut(c: nat, p: nat, blocks: seq<nat>)
    requires c < CLASSES
  {
    NoDup(blocks) && forall a: nat :: a in blocks <==> a / PAGE == p && a % Size(c) == 0
  }

  lemma SlabKeeps(o: Owners, held: set<nat>, c: nat, p: nat, blocks: seq<nat>)
    requires Owned(o, held) && c < CLASSES && p !in held && RealPage(p) && Cut(c, p, blocks)
    ensures Owned(Slabbed(o, c, p, blocks), held + {p})
  {
    hide RunsApart;
    var o' := Slabbed(o, c, p, blocks);
    assert p !in o.slab && p !in o.user && !InLarge(o.live, p);
    SlabLists(o, held, c, p, blocks);
    assert LiveOk(o'.slab, o'.lists, o'.live) by {
      forall b | b in o.live && o.live[b].Small? ensures SmallOk(o'.slab, o'.lists, b, o.live[b]) {
        assert SmallOk(o.slab, o.lists, b, o.live[b]);
      }
    }
    forall d: nat, b: nat | IsBlock(o'.slab, d, b) ensures b in o'.lists[d] || (b in o'.live && o'.live[b].Small?) {
      if b / PAGE != p { assert IsBlock(o.slab, d, b); }
    }
  }

  lemma SlabLists(o: Owners, held: set<nat>, c: nat, p: nat, blocks: seq<nat>)
    requires Owned(o, held) && c < CLASSES && p !in o.slab && RealPage(p) && Cut(c, p, blocks)
    ensures var o' := Slabbed(o, c, p, blocks);
            SlabOk(o'.slab) && forall d :: 0 <= d < CLASSES ==> ListOk(o'.slab, d, o'.lists[d])
  {
    hide RunsApart, PagesOk, LiveOk, NoLeak;
    var o' := Slabbed(o, c, p, blocks);
    forall d | 0 <= d < CLASSES ensures ListOk(o'.slab, d, o'.lists[d]) {
      assert ListOk(o.slab, d, o.lists[d]);
      if d == c {
        forall i, j | 0 <= i < |blocks| && 0 <= j < |o.lists[c]| ensures blocks[i] != o.lists[c][j] {
          assert blocks[i] in blocks && o.lists[c][j] in o.lists[c];
        }
        assert NoDup(blocks + o.lists[c]);
      }
    }
  }

  // ---- Page runs -----------------------------------------------------------------------------------------------

  ghost function PagesOf(a: nat, b: Block): set<nat>
    requires b.Large?
  {
    Run(a / PAGE, b.pages)
  }

  lemma RunIsPages(a: nat, b: Block, p: nat)
    requires b.Large? && a % PAGE == 0
    ensures InRun(a, b, p) <==> p in PagesOf(a, b)
  {
    IntervalIsRun(p, a, b.pages);
  }

  /** The pages of all runs after one more allocation. */
  lemma InLargeAdd(live: map<nat, Block>, a: nat, b: Block, p: nat)
    requires a !in live && b.Large? && a % PAGE == 0
    ensures InLarge(live[a := b], p) <==> InLarge(live, p) || p in PagesOf(a, b)
  {
    var live' := live[a := b];
    RunIsPages(a, b, p);
    if InLarge(live, p) {
      var x :| x in live && InRun(x, live[x], p);
      assert x in live' && InRun(x, live'[x], p);
    }
    if InRun(a, b, p) { assert a in live' && InRun(a, live'[a], p); }
    if InLarge(live', p) {
      var x :| x in live' && InRun(x, live'[x], p);
      if x != a { assert x in live && InRun(x, live[x], p); }
    }
  }

  /** A run of pages nobody holds becomes a live allocation. */
  lemma AddRunKeeps(o: Owners, held: set<nat>, a: nat, b: Block)
    requires Owned(o, held) && b.Large? && LargeOk(a, b) && held !! PagesOf(a, b)
    ensures a !in o.live && Owned(o.(live := o.live[a := b]), held + PagesOf(a, b))
  {
    AddRunNew(o, held, a, b);
    var live' := o.live[a := b];
    forall p: nat ensures InLarge(live', p) <==> InLarge(o.live, p) || p in PagesOf(a, b) {
      InLargeAdd(o.live, a, b, p);
    }
    AddRunApart(o, held, a, b);
    assert PagesOk(o.slab, live', o.user, held + PagesOf(a, b));
    AddRunRest(o, a, b);
  }

  lemma AddRunRest(o: Owners, a: nat, b: Block)
    requires |o.lists| == CLASSES && LiveOk(o.slab, o.lists, o.live) && NoLeak(o.slab, o.lists, o.live)
    requires a !in o.live && b.Large? && LargeOk(a, b)
    ensures LiveOk(o.slab, o.lists, o.live[a := b]) && NoLeak(o.slab, o.lists, o.live[a := b])
  {
  }

  /** The page of every live header is held. */
  lemma LivePage(o: Owners, held: set<nat>, a: nat)
    requires Owned(o, held) && a in o.live
    ensures a / PAGE in held
  {
    if o.live[a].Small? {
      assert SmallOk(o.slab, o.lists, a, o.live[a]);
    } else {
      RunFront(a, o.live[a]);
      assert InLarge(o.live, a / PAGE);
    }
  }

  lemma AddRunNew(o: Owners, held: set<nat>, a: nat, b: Block)
    requires Owned(o, held) && b.Large? && LargeOk(a, b) && held !! PagesOf(a, b)
    ensures a !in o.live
  {
    RunFront(a, b);
    RunIsPages(a, b, a / PAGE);
    if a in o.live { LivePage(o, held, a); }
  }

  lemma AddRunApart(o: Owners, held: set<nat>, a: nat, b: Block)
    requires Owned(o, held) && b.Large? && LargeOk(a, b) && held !! PagesOf(a, b) && a !in o.live
    ensures RunsApart(o.live[a := b])
  {
    hide LiveOk, NoLeak, ListOk, SlabOk;
    forall x, p: nat | x in o.live && InRun(x, o.live[x], p) ensures !InRun(a, b, p) {
      assert InLarge(o.live, p);
      RunIsPages(a, b, p);
    }
  }

  /** A live run goes back to the page allocator. */
  lemma DropRunKeeps(o: Owners, held: set<nat>, a: nat)
    requires Owned(o, held) && a in o.live && o.live[a].Large?
    ensures PagesOf(a, o.live[a]) <= held && Owned(o.(live := o.live - {a}), held - PagesOf(a, o.live[a]))
  {
    var b := o.live[a];
    assert LargeOk(a, b);
    var live' := o.live - {a};
    assert live'[a := b] == o.live;
    forall p: nat ensures InLarge(o.live, p) <==> InLarge(live', p) || p in PagesOf(a, b) {
      InLargeAdd(live', a, b, p);
    }
    forall p: nat | InLarge(live', p) ensures p !in PagesOf(a, b) {
      var x :| x in live' && InRun(x, live'[x], p);
      RunIsPages(a, b, p);
    }
    forall p | p in PagesOf(a, b) ensures p in held { assert InLarge(o.live, p); }
    assert PagesOk(o.slab, live', o.user, held - PagesOf(a, b));
    DropRunRest(o, a);
  }

  lemma DropRunRest(o: Owners, a: nat)
    requires |o.lists| == CLASSES && LiveOk(o.slab, o.lists, o.live) && NoLeak(o.slab, o.lists, o.live)
    requires RunsApart(o.live) && a in o.live && o.live[a].Large?
    ensures LiveOk(o.slab, o.lists, o.live - {a}) && NoLeak(o.slab, o.lists, o.live - {a}) && RunsApart(o.live - {a})
  {
  }

  // ---- Callers of page_alloc --------------------------------------------------------------------------------------

  lemma UserTakes(o: Owners, held: set<nat>, run: set<nat>)
    requires Owned(o, held) && held !! run
    ensures Owned(o.(user := o.user + run), held + run)
  {
  }

  lemma UserGives(o: Owners, held: set<nat>, run: set<nat>)
    requires Owned(o, held) && run <= o.user
    ensures run <= held && Owned(o.(user := o.user - run), held - run)
  {
  }

  // ---- Nothing is shared ------------------------------------------------------------------------------------------

  /** Everything memory can be in use for. */
  datatype Region =
    | FreePage(page: nat)
    | UserPage(page: nat)
    | FreeBlock(cls: nat, addr: nat)
    | LiveBlock(addr: nat)

  ghost predicate Present(r: Region, o: Owners, rs: seq<Range>)
  {
    match r
    case FreePage(p) => Covers(rs, p)
    case UserPage(p) => p in o.user
    case FreeBlock(c, a) => c < CLASSES && c < |o.lists| && a in o.lists[c]
    case LiveBlock(a) => a in o.live
  }

  function Start(r: Region): nat
  {
    if r.FreePage? || r.UserPage? then r.page * PAGE else r.addr
  }

  ghost function Length(r: Region, o: Owners, rs: seq<Range>): nat
    requires Present(r, o, rs)
  {
    match r
    case FreePage(_) => PAGE
    case UserPage(_) => PAGE
    case FreeBlock(c, _) => Size(c)
    case LiveBlock(a) => o.live[a].Charge()
  }

  /** Free pages, callers' pages, free blocks and live allocations are pairwise disjoint. */
  lemma RegionsApart(r: Region, s: Region, o: Owners, rs: seq<Range>, total: int, free: int, held: set<nat>,
                     dropped: set<nat>)
    requires Owned(o, held) && SettledTable(rs, total, free, held, dropped)
    requires Present(r, o, rs) && Present(s, o, rs) && r != s
    ensures BytesApart(Start(r), Length(r, o, rs), Start(s), Length(s, o, rs))
  {
    if r.FreePage? || r.UserPage? {
      PageApart(r, s, o, rs, total, free, held, dropped);
    } else if s.FreePage? || s.UserPage? {
      PageApart(s, r, o, rs, total, free, held, dropped);
    } else if r.FreeBlock? {
      if s.FreeBlock? { FreeBlocksApart(o, held, r.cls, r.addr, s.cls, s.addr); }
      else { FreeLiveApart(o, held, r.cls, r.addr, s.addr); }
    } else {
      if s.FreeBlock? { FreeLiveApart(o, held, s.cls, s.addr, r.addr); }
      else { LiveApart(o, held, r.addr, s.addr); }
    }
  }

  /** A block is on one list only. */
  lemma FreeBlocksApart(o: Owners, held: set<nat>, c: nat, a: nat, d: nat, b: nat)
    requires Owned(o, held) && c < CLASSES && d < CLASSES && a in o.lists[c] && b in o.lists[d] && (c != d || a != b)
    ensures BytesApart(a, Size(c), b, Size(d))
  {
    assert ListOk(o.slab, c, o.lists[c]) && ListOk(o.slab, d, o.lists[d]);
    assert a != b;
    FreeApart(o, held, c, a, d, b);
  }

  lemma PageApart(r: Region, s: Region, o: Owners, rs: seq<Range>, total: int, free: int, held: set<nat>,
                  dropped: set<nat>)
    requires Owned(o, held) && SettledTable(rs, total, free, held, dropped)
    requires Present(r, o, rs) && Present(s, o, rs) && r != s && (r.FreePage? || r.UserPage?)
    ensures BytesApart(Start(r), PAGE, Start(s), Length(s, o, rs))
  {
    var p := r.page;
    assert p !in o.slab && !InLarge(o.live, p);
    match s
    case FreePage(_) =>
    case UserPage(_) =>
    case FreeBlock(c, a) =>
      assert ListOk(o.slab, c, o.lists[c]);
      BlockPageApart(o.slab, c, a, p);
    case LiveBlock(a) =>
      LivePageApart(o, held, a, p);
  }

  // ---- Charges ----------------------------------------------------------------------------------------------------

  ghost function Pick(live: map<nat, Block>): (a: nat)
    requires |live| > 0
    ensures a in live
  {
    var a :| a in live;
    a
  }

  /** What all live allocations are charged together. */
  ghost function Charged(live: map<nat, Block>): nat
    decreases |live|
  {
    if |live| == 0 then 0 else
      var a := Pick(live);
      live[a].Charge() + Charged(live - {a})
  }

  lemma Smaller(live: map<nat, Block>, a: nat)
    requires a in live
    ensures |live - {a}| == |live| - 1
  {
    assert (live - {a}).Keys == live.Keys - {a};
  }

  /** The order of summation does not matter. */
  lemma {:induction false} ChargedWithout(live: map<nat, Block>, a: nat)
    requires a in live
    ensures Charged(live) == live[a].Charge() + Charged(live - {a})
    decreases |live|
  {
    var b := Pick(live);
    if a != b {
      Smaller(live, b);
      Smaller(live, a);
      ChargedWithout(live - {b}, a);
      ChargedWithout(live - {a}, b);
      assert live - {b} - {a} == live - {a} - {b};
    }
  }

  lemma ChargedWith(live: map<nat, Block>, a: nat, b: Block)
    requires a !in live
    ensures Charged(live[a := b]) == Charged(live) + b.Charge() && |live[a := b]| == |live| + 1
  {
    ChargedWithout(live[a := b], a);
    assert live[a := b] - {a} == live;
  }
}
