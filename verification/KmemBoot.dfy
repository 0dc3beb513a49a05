/**
 What kmem_init reads: the firmware's memory map and the areas that must not be handed out.
 */
module KmemBoot {
  import opened KmemRanges

  const CONVENTIONAL: int := 7
  const MIN_ADDRESS: int := 0x100000
  const DESCRIPTOR_BYTES: int := 40
  const LIMIT: int := 0x1_0000_0000_0000_0000

  function AlignDown(a: nat): (r: nat)
    ensures r % PAGE == 0 && r <= a < r + PAGE
  {
    a - a % PAGE
  }

  function AlignUp(a: nat): (r: nat)
    ensures r % PAGE == 0 && a <= r < a + PAGE
  {
    a + PAGE - 1 - (a + PAGE - 1) % PAGE
  }

  datatype Descriptor = Descriptor(kind: nat, start: nat, pages: nat)

  datatype Interval = Interval(start: nat, end: nat)

  datatype BootInfo =
    | NoInfo
    | BootInfo(memoryMap: nat, mapSize: nat, descriptorSize: nat,
               kernelBase: nat, kernelSize: nat, rsdp: nat,
               framebufferBase: nat, framebufferHeight: nat, framebufferStride: nat,
               dmaBase: nat, dmaSize: nat)

  predicate HasMap(b: BootInfo)
  {
    b.BootInfo? && b.memoryMap != 0 && b.mapSize != 0 && b.descriptorSize >= DESCRIPTOR_BYTES
  }

  /** The descriptors that lie wholly in the map, from offset off on; map gives the descriptor at an offset. */
  ghost function Listed(b: BootInfo, map_: nat -> Descriptor, off: nat): seq<Descriptor>
    requires HasMap(b)
    decreases b.mapSize - off
  {
    if off + DESCRIPTOR_BYTES > b.mapSize then [] else [map_(off)] + Listed(b, map_, off + b.descriptorSize)
  }

  /** The page is conventional memory above the first megabyte. */
  predicate Usable(d: Descriptor, p: nat)
  {
    d.kind == CONVENTIONAL && p * PAGE >= MIN_ADDRESS && d.start <= p * PAGE
    && (p + 1) * PAGE <= d.start + d.pages * PAGE
  }

  ghost predicate SomeUsable(ds: seq<Descriptor>, p: nat)
  {
    exists k :: 0 <= k < |ds| && Usable(ds[k], p)
  }

  ghost predicate OnlyUsable(rs: seq<Range>, ds: seq<Descriptor>)
  {
    forall p: nat :: Covers(rs, p) ==> SomeUsable(ds, p)
  }

  ghost predicate EveryUsable(rs: seq<Range>, ds: seq<Descriptor>)
  {
    forall p: nat :: SomeUsable(ds, p) ==> Covers(rs, p)
  }

  /** What kmem_init adds for a descriptor; zero pages if nothing. */
  function Piece(d: Descriptor): Range
  {
    var up := AlignUp(d.start);
    var start := if up < MIN_ADDRESS then MIN_ADDRESS else up;
    var end := AlignDown(d.start + d.pages * PAGE);
    if d.kind == CONVENTIONAL && end > start then Range(start, (end - start) / PAGE) else Range(start, 0)
  }

  lemma PieceIsUsable(d: Descriptor, p: nat)
    ensures Piece(d).HasPage(p) <==> Usable(d, p)
  {
    var r := Piece(d);
    assert MIN_ADDRESS % PAGE == 0;
    var end := AlignDown(d.start + d.pages * PAGE);
    if r.pages > 0 { assert r.End() == r.start + Gap(r.start, end) * PAGE == end; }
    assert (p + 1) * PAGE <= d.start + d.pages * PAGE <==> p * PAGE < end by { PageBelow(p, d.start + d.pages * PAGE); }
    assert d.start <= p * PAGE <==> AlignUp(d.start) <= p * PAGE by { PageFrom(p, d.start); }
  }

  lemma PageBelow(p: nat, a: nat)
    ensures (p + 1) * PAGE <= a <==> p * PAGE < AlignDown(a)
  {
    var q := a / PAGE;
    assert AlignDown(a) == q * PAGE;
  }

  lemma PageFrom(p: nat, a: nat)
    ensures a <= p * PAGE <==> AlignUp(a) <= p * PAGE
  {
    var q := (a + PAGE - 1) / PAGE;
    assert AlignUp(a) == q * PAGE;
  }

  /** What the firmware promises: no descriptor wraps round 2^64, and conventional ones do not overlap. */
  predicate FirmwareMap(ds: seq<Descriptor>)
  {
    && (forall k :: 0 <= k < |ds| ==> ds[k].start + (ds[k].pages + 1) * PAGE <= LIMIT)
    && (forall j, k :: 0 <= j < k < |ds| && ds[j].kind == ds[k].kind == CONVENTIONAL ==> Separate(ds[j], ds[k]))
  }

  predicate Separate(d: Descriptor, e: Descriptor)
  {
    d.start + d.pages * PAGE <= e.start || e.start + e.pages * PAGE <= d.start
  }

  lemma PieceGood(d: Descriptor)
    requires d.start + (d.pages + 1) * PAGE <= LIMIT && Piece(d).pages > 0
    ensures GoodRange(Piece(d)) && d.start <= Piece(d).start && Piece(d).End() <= d.start + d.pages * PAGE
  {
    var r := Piece(d);
    var end := AlignDown(d.start + d.pages * PAGE);
    assert MIN_ADDRESS % PAGE == 0;
    assert r.End() == r.start + Gap(r.start, end) * PAGE == end;
  }

  lemma PieceSize(d: Descriptor, start: nat, end: nat)
    requires d.kind == CONVENTIONAL && end == AlignDown(d.start + d.pages * PAGE) && end > start
    requires start == if AlignUp(d.start) < MIN_ADDRESS then MIN_ADDRESS else AlignUp(d.start)
    ensures Piece(d) == Range(start, (end - start) / PAGE) && Piece(d).pages > 0
  {
    assert MIN_ADDRESS % PAGE == 0;
    assert Gap(start, end) > 0;
  }

  lemma PiecesDisjoint(d: Descriptor, e: Descriptor)
    requires d.start + (d.pages + 1) * PAGE <= LIMIT && e.start + (e.pages + 1) * PAGE <= LIMIT
    requires Piece(d).pages > 0 && Piece(e).pages > 0 && Separate(d, e)
    ensures Disjoint(Piece(d), Piece(e))
  {
    PieceGood(d);
    PieceGood(e);
  }

  /** How many descriptors give a range. */
  ghost function Pieces(ds: seq<Descriptor>): nat
  {
    if ds == [] then 0 else (if Piece(ds[0]).pages > 0 then 1 else 0) + Pieces(ds[1..])
  }

  /** The areas kmem_init reserves, in order. */
  function Reservations(b: BootInfo): seq<Interval>
    requires b.BootInfo?
  {
    KernelArea(b) + MapArea(b) + RsdpArea(b) + FramebufferArea(b) + DmaArea(b)
  }

  function KernelArea(b: BootInfo): seq<Interval>
    requires b.BootInfo?
  {
    [Interval(b.kernelBase, b.kernelBase + b.kernelSize)]
  }

  function MapArea(b: BootInfo): seq<Interval>
    requires b.BootInfo?
  {
    [Interval(b.memoryMap, b.memoryMap + b.mapSize)]
  }

  function RsdpArea(b: BootInfo): seq<Interval>
    requires b.BootInfo?
  {
    if b.rsdp != 0 then [Interval(b.rsdp, b.rsdp + PAGE)] else []
  }

  function FramebufferArea(b: BootInfo): seq<Interval>
    requires b.BootInfo?
  {
    if b.framebufferBase != 0 && b.framebufferHeight != 0 && b.framebufferStride != 0
    then [Interval(b.framebufferBase, b.framebufferBase + b.framebufferHeight * b.framebufferStride * 4)] else []
  }

  function DmaArea(b: BootInfo): seq<Interval>
    requires b.BootInfo?
  {
    if b.dmaBase != 0 && b.dmaSize != 0 then [Interval(b.dmaBase, b.dmaBase + b.dmaSize)] else []
  }

  predicate NoWrap(iv: Interval)
  {
    iv.start <= iv.end && iv.end + PAGE <= LIMIT
  }

  /** The page shares a byte with one of the intervals, once these are widened to whole pages. */
  ghost predicate Reserved(ivs: seq<Interval>, p: nat)
  {
    exists k :: 0 <= k < |ivs| && InInterval(p, AlignDown(ivs[k].start), AlignUp(ivs[k].end))
  }

  /** rs covers what was covers, without the reserved pages. */
  ghost predicate Carved(was: seq<Range>, rs: seq<Range>, ivs: seq<Interval>)
  {
    forall p: nat :: Covers(rs, p) <==> Covers(was, p) && !Reserved(ivs, p)
  }

  ghost predicate Within(was: seq<Range>, rs: seq<Range>)
  {
    forall p: nat :: Covers(rs, p) ==> Covers(was, p)
  }

  /** Whatever was covered and is not reserved is still covered. */
  ghost predicate Spared(was: seq<Range>, rs: seq<Range>, ivs: seq<Interval>)
  {
    forall p: nat :: Covers(was, p) && !Reserved(ivs, p) ==> Covers(rs, p)
  }

  lemma SpareMore(was: seq<Range>, rs: seq<Range>, ss: seq<Range>, ivs: seq<Interval>, iv: Interval)
    requires Spared(was, rs, ivs)
    requires forall p: nat :: Covers(rs, p) && !InInterval(p, AlignDown(iv.start), AlignUp(iv.end)) ==> Covers(ss, p)
    ensures Spared(was, ss, ivs + [iv])
  {
    forall p: nat ensures Reserved(ivs + [iv], p) <==>
                            Reserved(ivs, p) || InInterval(p, AlignDown(iv.start), AlignUp(iv.end)) {
      ReservedMore(ivs, iv, p);
    }
  }

  lemma CarveNothing(was: seq<Range>)
    ensures Carved(was, was, []) && Within(was, was) && Spared(was, was, [])
  {
  }

  lemma CarveMore(was: seq<Range>, rs: seq<Range>, ss: seq<Range>, ivs: seq<Interval>, iv: Interval)
    requires Carved(was, rs, ivs)
    requires forall p: nat :: Covers(ss, p) <==> Covers(rs, p) && !InInterval(p, AlignDown(iv.start), AlignUp(iv.end))
    ensures Carved(was, ss, ivs + [iv])
  {
    forall p: nat ensures Reserved(ivs + [iv], p) <==>
                            Reserved(ivs, p) || InInterval(p, AlignDown(iv.start), AlignUp(iv.end)) {
      ReservedMore(ivs, iv, p);
    }
  }

  lemma ReservedMore(ivs: seq<Interval>, iv: Interval, p: nat)
    ensures Reserved(ivs + [iv], p) <==> Reserved(ivs, p) || InInterval(p, AlignDown(iv.start), AlignUp(iv.end))
  {
    var all := ivs + [iv];
    if Reserved(ivs, p) {
      var k :| 0 <= k < |ivs| && InInterval(p, AlignDown(ivs[k].start), AlignUp(ivs[k].end));
      assert all[k] == ivs[k];
    }
    if InInterval(p, AlignDown(iv.start), AlignUp(iv.end)) { assert all[|ivs|] == iv; }
    if Reserved(all, p) {
      var k :| 0 <= k < |all| && InInterval(p, AlignDown(all[k].start), AlignUp(all[k].end));
      if k < |ivs| { assert ivs[k] == all[k]; }
    }
  }

  // ---- The table while the map is read ----------------------------------------------------------------------------

  /** Every range is the piece of a descriptor before k; origin says which. */
  ghost predicate FromMap(rs: seq<Range>, origin: seq<nat>, ds: seq<Descriptor>, k: nat)
  {
    && |origin| == |rs| && k <= |ds|
    && forall i :: 0 <= i < |rs| ==> origin[i] < k && rs[i] == Piece(ds[origin[i]]) && rs[i].pages > 0
  }

  /** Every descriptor before k has its piece in the table. */
  ghost predicate AllIn(rs: seq<Range>, ds: seq<Descriptor>, k: nat)
  {
    k <= |ds| && forall j :: 0 <= j < k && Piece(ds[j]).pages > 0 ==> Piece(ds[j]) in rs
  }

  lemma NewPieceApart(rs: seq<Range>, origin: seq<nat>, ds: seq<Descriptor>, k: nat)
    requires FirmwareMap(ds) && FromMap(rs, origin, ds, k) && k < |ds| && Piece(ds[k]).pages > 0
    ensures forall i :: 0 <= i < |rs| ==> Disjoint(rs[i], Piece(ds[k]))
  {
    forall i | 0 <= i < |rs| ensures Disjoint(rs[i], Piece(ds[k])) {
      PiecesDisjoint(ds[origin[i]], ds[k]);
    }
  }

  lemma MapGrows(rs: seq<Range>, origin: seq<nat>, ds: seq<Descriptor>, k: nat)
    requires FromMap(rs, origin, ds, k) && k < |ds| && Piece(ds[k]).pages > 0
    ensures FromMap(rs + [Piece(ds[k])], origin + [k], ds, k + 1)
    ensures AllIn(rs, ds, k) ==> AllIn(rs + [Piece(ds[k])], ds, k + 1)
  {
  }

  lemma MapWithin(rs: seq<Range>, origin: seq<nat>, ds: seq<Descriptor>)
    requires FromMap(rs, origin, ds, |ds|)
    ensures OnlyUsable(rs, ds)
  {
    forall p: nat | Covers(rs, p) ensures SomeUsable(ds, p) {
      var i :| 0 <= i < |rs| && rs[i].HasPage(p);
      PieceIsUsable(ds[origin[i]], p);
    }
  }

  lemma MapExact(rs: seq<Range>, ds: seq<Descriptor>)
    requires AllIn(rs, ds, |ds|)
    ensures EveryUsable(rs, ds)
  {
    forall p: nat | SomeUsable(ds, p) ensures Covers(rs, p) {
      var k :| 0 <= k < |ds| && Usable(ds[k], p);
      PieceIsUsable(ds[k], p);
      var i :| 0 <= i < |rs| && rs[i] == Piece(ds[k]);
      assert rs[i].HasPage(p);
    }
  }
}
