/**
 Who owns what in the heap of kernel/core/kmem.c: slab pages cut into blocks of one of eight
 sizes, blocks on the free lists, live small blocks, live page runs, and pages that belong to
 callers of page_alloc.
 */
module KmemShape {
  import opened KmemRanges

  const CLASSES: nat := 8
  const HEADER: nat := 24        // sizeof(kmalloc_header_t)
  const OVERHEAD: nat := 28      // header and guard word

  /** small_class_sizes. */
  function Size(c: nat): (s: nat)
    requires c < CLASSES
    ensures s == 32 || s == 64 || s == 128 || s == 256 || s == 512 || s == 1024 || s == 2048 || s == 4096
  {
    if c == 0 then 32 else if c == 1 then 64 else if c == 2 then 128 else if c == 3 then 256
    else if c == 4 then 512 else if c == 5 then 1024 else if c == 6 then 2048 else 4096
  }

  datatype Block =
    | Small(bytes: nat, cls: nat)
    | Large(bytes: nat, pages: nat)
  {
    /** What the allocation is charged, which is also the length of its block. */
    function Charge(): nat
    {
      match this
      case Small(_, c) => if c < CLASSES then Size(c) else 0
      case Large(_, n) => n * PAGE
    }
  }

  datatype Owners = Owners(
    slab: map<nat, nat>,         // page number -> class
    lists: seq<seq<nat>>,        // the free blocks of each class, in list order
    live: map<nat, Block>,       // header address -> allocation
    user: set<nat>)              // pages of callers of page_alloc

  predicate IsBlock(slab: map<nat, nat>, c: nat, a: nat)
  {
    c < CLASSES && a / PAGE in slab && slab[a / PAGE] == c && a % Size(c) == 0
  }

  predicate NoDup(s: seq<nat>)
  {
    forall i, j :: 0 <= i < j < |s| ==> s[i] != s[j]
  }

  ghost predicate ListOk(slab: map<nat, nat>, c: nat, list: seq<nat>)
  {
    NoDup(list) && forall a :: a in list ==> IsBlock(slab, c, a)
  }

  ghost predicate SlabOk(slab: map<nat, nat>)
  {
    forall p :: p in slab ==> slab[p] < CLASSES && RealPage(p)
  }

  predicate SmallOk(slab: map<nat, nat>, lists: seq<seq<nat>>, a: nat, b: Block)
    requires b.Small?
  {
    b.cls < |lists| && IsBlock(slab, b.cls, a) && a !in lists[b.cls] && 0 < b.bytes && b.bytes + OVERHEAD <= Size(b.cls)
  }

  predicate LargeOk(a: nat, b: Block)
    requires b.Large?
  {
    a > 0 && a % PAGE == 0 && 0 < b.bytes && b.bytes + OVERHEAD <= b.pages * PAGE && b.pages <= 0xffff
  }

  /** The page lies in the run of a live large allocation. */
  predicate InRun(a: nat, b: Block, p: nat)
  {
    b.Large? && a <= p * PAGE < a + b.pages * PAGE
  }

  ghost predicate InLarge(live: map<nat, Block>, p: nat)
  {
    exists a :: a in live && InRun(a, live[a], p)
  }

  ghost predicate LiveOk(slab: map<nat, nat>, lists: seq<seq<nat>>, live: map<nat, Block>)
  {
    forall a :: a in live ==> if live[a].Small? then SmallOk(slab, lists, a, live[a]) else LargeOk(a, live[a])
  }

  /** No block of a slab page is lost: it is free or live. */
  ghost predicate NoLeak(slab: map<nat, nat>, lists: seq<seq<nat>>, live: map<nat, Block>)
    requires |lists| == CLASSES
  {
    forall c: nat, a: nat :: IsBlock(slab, c, a) ==> a in lists[c] || (a in live && live[a].Small?)
  }

  ghost predicate RunsApart(live: map<nat, Block>)
  {
    forall a, b, p: nat :: a in live && b in live && a != b && InRun(a, live[a], p) ==> !InRun(b, live[b], p)
  }

  /** Every held page has exactly one owner. */
  ghost predicate PagesOk(slab: map<nat, nat>, live: map<nat, Block>, user: set<nat>, held: set<nat>)
  {
    && slab.Keys !! user
    && (forall p: nat :: InLarge(live, p) ==> p !in slab && p !in user)
    && (forall p: nat :: p in held <==> p in slab || p in user || InLarge(live, p))
  }

  ghost predicate Owned(o: Owners, held: set<nat>)
  {
    && |o.lists| == CLASSES && SlabOk(o.slab)
    && (forall c :: 0 <= c < CLASSES ==> ListOk(o.slab, c, o.lists[c]))
    && LiveOk(o.slab, o.lists, o.live) && NoLeak(o.slab, o.lists, o.live)
    && RunsApart(o.live) && PagesOk(o.slab, o.live, o.user, held)
  }

  // ---- Blocks are apart ----------------------------------------------------------------------------------------

  /** The bytes a to a + n - 1 and b to b + k - 1 do not meet. */
  predicate BytesApart(a: nat, n: nat, b: nat, k: nat)
  {
    a + n <= b || b + k <= a
  }

  /** A block does not leave its page, and starts on a multiple of 32. */
  lemma InPage(c: nat, a: nat)
    requires c < CLASSES && a % Size(c) == 0
    ensures a / PAGE * PAGE <= a && a + Size(c) <= (a / PAGE + 1) * PAGE && a % 32 == 0
  {
    var s, p, r := Size(c), a / PAGE, a % PAGE;
    assert a == p * PAGE + r;
    if s == 32 { Offset(p, r, 32, 128); } else if s == 64 { Offset(p, r, 64, 64); }
    else if s == 128 { Offset(p, r, 128, 32); } else if s == 256 { Offset(p, r, 256, 16); }
    else if s == 512 { Offset(p, r, 512, 8); } else if s == 1024 { Offset(p, r, 1024, 4); }
    else if s == 2048 { Offset(p, r, 2048, 2); } else { Offset(p, r, 4096, 1); }
  }

  lemma Offset(p: nat, r: nat, s: nat, k: nat)
    requires r < PAGE == s * k && s > 0 && (p * PAGE + r) % s == 0 && s % 32 == 0
    ensures r + s <= PAGE && (p * PAGE + r) % 32 == 0
  {
    var q := (p * PAGE + r) / s;
    var j := q - k * p;
    assert p * PAGE + r == s * q;
    assert p * PAGE == s * (k * p) by { Regroup(p, s, k); }
    assert r == s * j by { Distribute(s, q, k * p); }
    Below(s, j, k);
    assert s == 32 * (s / 32);
    assert s * q == 32 * (s / 32 * q) by { Regroup(q, 32, s / 32); }
  }

  lemma Regroup(p: int, s: int, k: int)
    ensures p * (s * k) == s * (k * p)
  {
  }

  lemma Distribute(s: int, q: int, x: int)
    ensures s * q - s * x == s * (q - x)
  {
  }

  lemma NonNegative(x: int, y: int)
    requires x >= 0 && y >= 0
    ensures x * y >= 0
  {
  }

  lemma Below(s: nat, j: int, k: int)
    requires s * j < s * k
    ensures s * j + s <= s * k
  {
    Distribute(s, j, k);
    if j >= k { NonNegative(s, j - k); }
    Distribute(s, k - 1, j);
    Distribute(s, k, 1);
    NonNegative(s, if k - 1 - j >= 0 then k - 1 - j else 0);
  }

  lemma SameSizeApart(c: nat, a: nat, b: nat)
    requires c < CLASSES && a % Size(c) == 0 && b % Size(c) == 0 && a != b
    ensures BytesApart(a, Size(c), b, Size(c))
  {
    var s := Size(c);
    if s == 32 {} else if s == 64 {} else if s == 128 {} else if s == 256 {}
    else if s == 512 {} else if s == 1024 {} else if s == 2048 {} else {}
  }

  /** Two blocks of slab pages do not overlap. */
  lemma BlocksApart(slab: map<nat, nat>, c: nat, a: nat, d: nat, b: nat)
    requires IsBlock(slab, c, a) && IsBlock(slab, d, b) && a != b
    ensures BytesApart(a, Size(c), b, Size(d))
  {
    InPage(c, a);
    InPage(d, b);
    if a / PAGE == b / PAGE { SameSizeApart(c, a, b); }
  }

  lemma RunPage(a: nat, b: Block, p: nat)
    requires b.Large? && a % PAGE == 0
    ensures InRun(a, b, p) || (p + 1) * PAGE <= a || a + b.pages * PAGE <= p * PAGE
  {
    assert a == a / PAGE * PAGE;
  }

  /** A slab block and a page run do not overlap. */
  lemma BlockRunApart(o: Owners, held: set<nat>, c: nat, a: nat, b: nat)
    requires Owned(o, held) && IsBlock(o.slab, c, a) && b in o.live && o.live[b].Large?
    ensures BytesApart(a, Size(c), b, o.live[b].Charge())
  {
    InPage(c, a);
    RunPage(b, o.live[b], a / PAGE);
    assert LargeOk(b, o.live[b]);
    if InRun(b, o.live[b], a / PAGE) { assert InLarge(o.live, a / PAGE); }
  }

  lemma RunFront(a: nat, b: Block)
    requires b.Large? && LargeOk(a, b)
    ensures InRun(a, b, a / PAGE)
  {
  }

  lemma RunsDisjoint(live: map<nat, Block>, a: nat, b: nat)
    requires RunsApart(live) && a in live && b in live && a != b
    requires live[a].Large? && live[b].Large? && LargeOk(a, live[a]) && LargeOk(b, live[b])
    ensures BytesApart(a, live[a].Charge(), b, live[b].Charge())
  {
    RunFront(a, live[a]);
    RunFront(b, live[b]);
    RunPage(a, live[a], b / PAGE);
    RunPage(b, live[b], a / PAGE);
  }

  /** Live allocations do not overlap. */
  lemma LiveApart(o: Owners, held: set<nat>, a: nat, b: nat)
    requires Owned(o, held) && a in o.live && b in o.live && a != b
    ensures BytesApart(a, o.live[a].Charge(), b, o.live[b].Charge())
  {
    var x, y := o.live[a], o.live[b];
    assert if x.Small? then SmallOk(o.slab, o.lists, a, x) else LargeOk(a, x);
    assert if y.Small? then SmallOk(o.slab, o.lists, b, y) else LargeOk(b, y);
    if x.Small? {
      if y.Small? { BlocksApart(o.slab, x.cls, a, y.cls, b); } else { BlockRunApart(o, held, x.cls, a, b); }
    } else {
      if y.Small? { BlockRunApart(o, held, y.cls, b, a); } else { RunsDisjoint(o.live, a, b); }
    }
  }

  /** A free block overlaps no live allocation. */
  lemma FreeLiveApart(o: Owners, held: set<nat>, c: nat, a: nat, b: nat)
    requires Owned(o, held) && c < CLASSES && a in o.lists[c] && b in o.live
    ensures BytesApart(a, Size(c), b, o.live[b].Charge()) && a != b
  {
    assert ListOk(o.slab, c, o.lists[c]);
    var y := o.live[b];
    if y.Small? {
      assert SmallOk(o.slab, o.lists, b, y);
      if a != b { BlocksApart(o.slab, c, a, y.cls, b); }
    } else {
      BlockRunApart(o, held, c, a, b);
      InPage(c, a);
    }
  }

  /** Free blocks do not overlap each other. */
  lemma FreeApart(o: Owners, held: set<nat>, c: nat, a: nat, d: nat, b: nat)
    requires Owned(o, held) && c < CLASSES && d < CLASSES && a in o.lists[c] && b in o.lists[d] && a != b
    ensures BytesApart(a, Size(c), b, Size(d))
  {
    assert ListOk(o.slab, c, o.lists[c]) && ListOk(o.slab, d, o.lists[d]);
    BlocksApart(o.slab, c, a, d, b);
  }

  /** No block and no live allocation reaches into a page that is not a slab page or part of a run. */
  lemma BlockPageApart(slab: map<nat, nat>, c: nat, a: nat, p: nat)
    requires IsBlock(slab, c, a) && p !in slab
    ensures BytesApart(a, Size(c), p * PAGE, PAGE)
  {
    InPage(c, a);
  }

  lemma LivePageApart(o: Owners, held: set<nat>, a: nat, p: nat)
    requires Owned(o, held) && a in o.live && p !in o.slab && !InLarge(o.live, p)
    ensures BytesApart(a, o.live[a].Charge(), p * PAGE, PAGE)
  {
    var x := o.live[a];
    if x.Small? {
      assert SmallOk(o.slab, o.lists, a, x);
      BlockPageApart(o.slab, x.cls, a, p);
    } else {
      assert LargeOk(a, x);
      RunPage(a, x, p);
    }
  }
}
