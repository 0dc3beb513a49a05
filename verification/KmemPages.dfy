/**
 The page allocator of kernel/core/kmem.c: a table of free ranges that is sorted, merged
 and shifted in place.
 */
module KmemPages {
  import opened KmemRanges
  import opened KmemBoot

  /** reserve_range cannot split a range when the table is full (kernel/core/kmem.c, line 184). */
  ghost predicate Blocked(rs: seq<Range>, max: nat, lo: nat, hi: nat)
  {
    |rs| == max && SomeInside(rs, lo, hi)
  }

  class PageTable {
    const ranges: array<Range>    // free_ranges, of symbolic length KMEM_MAX_RANGES
    var count: nat                // free_range_count
    var total: int                // total_page_count
    var free: int                 // free_page_count
    var failures: nat             // allocation_failures
    ghost var held: set<nat>      // pages handed out by page_alloc
    ghost var dropped: set<nat>   // pages lost by page_free on a full table

    ghost function Table(): seq<Range>
      requires count <= ranges.Length
      reads this, ranges
    {
      ranges[..count]
    }

    /** The table while it is being built. */
    ghost predicate Valid()
      reads this, ranges
    {
      count <= ranges.Length && Good(Table()) && Apart(Table()) && free == Sum(Table())
    }

    /** The table after initialisation: sorted, with gaps, and with nothing unaccounted for. */
    ghost predicate Settled()
      reads this, ranges
    {
      count <= ranges.Length && SettledTable(Table(), total, free, held, dropped)
    }

    constructor (max: nat)
      ensures Settled() && fresh(ranges) && ranges.Length == max && Table() == [] && total == 0
    {
      ranges := new Range[max](_ => Range(0, 0));
      count, total, free, failures := 0, 0, 0, 0;
      held, dropped := {}, {};
    }

    /** remove_range_index. */
    method RemoveIndex(index: nat)
      requires count <= ranges.Length
      modifies ranges, this`count
      ensures count <= ranges.Length
      ensures index >= old(count) ==> count == old(count) && ranges[..] == old(ranges[..])
      ensures index < old(count) ==> count == old(count) - 1 && Table() == Removed(old(Table()), index)
    {
      if index >= count { return; }
      ghost var was := Table();
      var i := index + 1;
      while i < count
        invariant index < i <= count == old(count)
        invariant forall k :: 0 <= k < index ==> ranges[k] == was[k]
        invariant forall k :: index <= k < i - 1 ==> ranges[k] == was[k + 1]
        invariant forall k :: i - 1 < k < count ==> ranges[k] == was[k]
      {
        ranges[i - 1] := ranges[i];
        i := i + 1;
      }
      count := count - 1;
    }

    /** The exchange sort of coalesce_ranges. */
    method SortRanges()
      requires count <= ranges.Length && Good(Table())
      modifies ranges
      ensures Kept(old(Table()), Table()) && SortedByStart(Table())
    {
      hide Kept;
      ghost var was := Table();
      assert Kept(was, was) by { KeptSelf(was); }
      var i := 0;
      while i < count
        invariant 0 <= i <= count && Kept(was, Table())
        invariant forall a, b :: 0 <= a < i && a < b < count ==> ranges[a].start <= ranges[b].start
      {
        var j := i + 1;
        while j < count
          invariant i < j <= count && Kept(was, Table())
          invariant forall a, b :: 0 <= a < i && a < b < count ==> ranges[a].start <= ranges[b].start
          invariant forall b :: i < b < j ==> ranges[i].start <= ranges[b].start
        {
          if ranges[j].start < ranges[i].start {
            KeptSwap(was, Table(), i, j);
            Exchange(i, j);
          }
          j := j + 1;
        }
        i := i + 1;
      }
    }

    method Exchange(i: nat, j: nat)
      requires i < j < count <= ranges.Length
      modifies ranges
      ensures Table() == Swapped(old(Table()), i, j)
      ensures forall k :: 0 <= k < count ==> ranges[k] == old(ranges[if k == i then j else if k == j then i else k])
    {
      ranges[i], ranges[j] := ranges[j], ranges[i];
    }

    /** One round of the merging loop: ranges i and i + 1 become one. */
    method MergeNeighbours(i: nat)
      requires i + 1 < count <= ranges.Length && Good(Table()) && ranges[i].start <= ranges[i + 1].start
      modifies ranges, this`count
      ensures count == old(count) - 1 && Table() == Merge(old(Table()), i)
    {
      ghost var t := Table();
      var end := ranges[i].start + ranges[i].pages * PAGE;
      var nextEnd := ranges[i + 1].start + ranges[i + 1].pages * PAGE;
      if nextEnd > end {
        ranges[i] := Range(ranges[i].start, (nextEnd - ranges[i].start) / PAGE);
      }
      assert Table() == t[i := Merged(t[i], t[i + 1])];
      RemoveIndex(i + 1);
    }

    /** The merging loop of coalesce_ranges. */
    method MergeRanges()
      requires count <= ranges.Length && Good(Table()) && SortedByStart(Table())
      modifies ranges, this`count
      ensures count <= old(count) && Kept(old(Table()), Table()) && Gapped(Table())
    {
      ghost var was := Table();
      var i := 0;
      while i + 1 < count
        invariant 0 <= i && (i < count || count == 0) && count <= old(count) <= ranges.Length
        invariant Kept(was, Table()) && SortedByStart(Table())
        invariant i < count ==> Gapped(Table()[..i + 1])
        decreases count - i
      {
        if ranges[i].start + ranges[i].pages * PAGE >= ranges[i + 1].start {
          MergeShape(Table(), i);
          KeptMerge(was, Table(), i);
          MergeNeighbours(i);
        } else {
          GapGrows(Table(), i);
          i := i + 1;
        }
      }
      assert count > 0 ==> Table()[..i + 1] == Table();
    }

    /** coalesce_ranges. */
    method Coalesce()
      requires count <= ranges.Length && Good(Table())
      modifies ranges, this`count
      ensures count <= old(count) && Kept(old(Table()), Table()) && Gapped(Table())
    {
      ghost var was := Table();
      SortRanges();
      ghost var sorted := Table();
      MergeRanges();
      KeptTwice(was, sorted, Table());
    }

    /** add_free_range. */
    method AddFreeRange(start: nat, pages: nat)
      requires Valid() && (pages > 0 ==> GoodRange(Range(start, pages)))
      requires forall i :: 0 <= i < count ==> Disjoint(Table()[i], Range(start, pages))
      modifies this`count, this`total, this`free, ranges
      ensures Valid() && total - free == old(total - free)
      ensures pages == 0 || old(count) == ranges.Length ==> Table() == old(Table())
      ensures pages > 0 && old(count) < ranges.Length ==> Table() == old(Table()) + [Range(start, pages)]
    {
      if pages == 0 || count >= ranges.Length { return; }
      ghost var was := Table();
      ranges[count] := Range(start, pages);
      count := count + 1;
      total := total + pages;
      free := free + pages;
      SumAppend(was, [Range(start, pages)]);
      SumOne(Range(start, pages));
      assert Table() == was + [Range(start, pages)];
    }

    /** What the loop of reserve_range keeps while it looks at range i. */
    ghost predicate Reserving(was: seq<Range>, i: nat, lo: nat, hi: nat, split: bool)
      reads this, ranges
    {
      && Valid() && i <= count && SameOutside(was, Table(), lo, hi)
      && (forall k :: 0 <= k < i ==>
            Meets(Table()[k], lo, hi) ==> Table() == was && Blocked(was, ranges.Length, lo, hi))
      && (split ==> |was| < ranges.Length && forall k :: i <= k < count ==> !Meets(Table()[k], lo, hi))
      && (SomeInside(was, lo, hi) && !split ==> Table() == was)
      && (!SomeInside(was, lo, hi) ==> !SomeInside(Table(), lo, hi))
    }

    /** reserve_range. */
    method Reserve(start: nat, end: nat)
      requires Valid() && start <= end && end + PAGE <= LIMIT
      modifies this`count, this`total, this`free, ranges
      ensures Valid() && total - free == old(total - free) && count <= old(count) + 1
      ensures Blocked(old(Table()), ranges.Length, AlignDown(start), AlignUp(end)) ==> Table() == old(Table())
      ensures !Blocked(old(Table()), ranges.Length, AlignDown(start), AlignUp(end)) ==>
                forall p: nat :: Covers(Table(), p) <==>
                  Covers(old(Table()), p) && !InInterval(p, AlignDown(start), AlignUp(end))
    {
      hide Apart, SameOutside;
      var lo := AlignDown(start);
      var hi := AlignUp(end);
      ghost var was := Table();
      SameOutsideSelf(was, lo, hi);
      ghost var split := false;
      var i := 0;
      while i < count
        invariant Reserving(was, i, lo, hi, split) && total - free == old(total - free)
        invariant count <= |was| + if split then 1 else 0
        decreases !split, count - i
      {
        var r := ranges[i];
        var rangeEnd := r.start + r.pages * PAGE;
        if !(r.start < hi && lo < rangeEnd) {
          i := i + 1;
        } else if lo <= r.start && hi >= rangeEnd {
          Drop(was, i, lo, hi, split);
        } else if lo <= r.start {
          var removed := (hi - r.start) / PAGE;
          CutFront(r, lo, hi);
          Trim(was, i, Range(r.start + removed * PAGE, r.pages - removed), lo, hi, split);
          i := i + 1;
        } else if hi >= rangeEnd {
          var removed := (rangeEnd - lo) / PAGE;
          CutBack(r, lo, hi);
          Trim(was, i, Range(r.start, r.pages - removed), lo, hi, split);
          i := i + 1;
        } else if count < ranges.Length {
          Split(was, i, lo, hi);
          split := true;
          i := i + 1;
        } else {
          assert Inside(Table()[i], lo, hi);
          i := i + 1;
        }
      }
      if !Blocked(was, ranges.Length, lo, hi) { LostInterval(was, Table(), lo, hi); }
    }

    method Drop(ghost was: seq<Range>, i: nat, ghost lo: nat, ghost hi: nat, ghost split: bool)
      requires Reserving(was, i, lo, hi, split) && i < count && lo <= ranges[i].start && ranges[i].End() <= hi
      requires lo <= hi
      modifies this`count, this`total, this`free, ranges
      ensures Reserving(was, i, lo, hi, split) && total - free == old(total - free) && count == old(count) - 1
    {
      ghost var t := Table();
      DropRange(t, i, lo, hi);
      SumRemove(t, i);
      NoneInside(t, i, lo, hi);
      free := free - ranges[i].pages;
      total := total - ranges[i].pages;
      RemoveIndex(i);
    }

    method Trim(ghost was: seq<Range>, i: nat, r: Range, ghost lo: nat, ghost hi: nat, ghost split: bool)
      requires Reserving(was, i, lo, hi, split) && i < count && Meets(ranges[i], lo, hi) && GoodRange(r)
      requires r.pages <= ranges[i].pages && !Inside(ranges[i], lo, hi)
      requires CutsTo(ranges[i], r, lo, hi) && lo <= hi
      requires ranges[i].start <= r.start && r.End() <= ranges[i].End() && !Meets(r, lo, hi)
      modifies this`total, this`free, ranges
      ensures Reserving(was, i + 1, lo, hi, split) && total - free == old(total - free)
    {
      ghost var t := Table();
      TrimRange(t, i, r, lo, hi);
      SumUpdate(t, i, r);
      NoneInside(t, i, lo, hi);
      free := free - (ranges[i].pages - r.pages);
      total := total - (ranges[i].pages - r.pages);
      ranges[i] := r;
      assert Table() == t[i := r];
    }

    method Split(ghost was: seq<Range>, i: nat, lo: nat, hi: nat)
      requires Reserving(was, i, lo, hi, false) && i < count < ranges.Length && Inside(ranges[i], lo, hi)
      requires lo <= hi && lo % PAGE == 0 && hi % PAGE == 0
      modifies this`count, this`total, this`free, ranges
      ensures Reserving(was, i + 1, lo, hi, true) && total - free == old(total - free) && count == old(count) + 1
    {
      ghost var t := Table();
      var r := ranges[i];
      var left := Range(r.start, (lo - r.start) / PAGE);
      var right := Range(hi, (r.End() - hi) / PAGE);
      CutMiddle(r, lo, hi);
      SplitRange(t, i, left, right, lo, hi);
      SumUpdate(t, i, left);
      SumAppend(t[i := left], [right]);
      SumOne(right);
      forall k | 0 <= k < |t| && k != i ensures !Meets(t[k], lo, hi) { InsideAlone(t, i, k, lo, hi); }
      ranges[i] := left;
      ranges[count] := right;
      count := count + 1;
      free := free - (hi - lo) / PAGE;
      total := total - (hi - lo) / PAGE;
      assert Table() == t[i := left] + [right];
    }

    /** kmem_init on the page table; map_ gives the descriptor at an offset into the memory map. */
    method Init(b: BootInfo, map_: nat -> Descriptor)
      requires HasMap(b) ==> FirmwareMap(Listed(b, map_, 0))
      requires HasMap(b) ==> forall iv :: iv in Reservations(b) ==> NoWrap(iv)
      modifies this, ranges
      ensures Settled() && total == free && held == {} && dropped == {} && failures == 0
      ensures !HasMap(b) ==> Table() == []
      ensures HasMap(b) ==> OnlyUsable(Table(), Listed(b, map_, 0))
      ensures HasMap(b) && Pieces(Listed(b, map_, 0)) <= ranges.Length ==>
                forall p: nat :: SomeUsable(Listed(b, map_, 0), p) && !Reserved(Reservations(b), p) ==>
                  Covers(Table(), p)
      ensures HasMap(b) && Pieces(Listed(b, map_, 0)) + 5 <= ranges.Length ==>
                forall p: nat :: Covers(Table(), p) <==>
                  SomeUsable(Listed(b, map_, 0), p) && !Reserved(Reservations(b), p)
    {
      count, total, free, failures := 0, 0, 0, 0;
      held, dropped := {}, {};
      if b.NoInfo? || b.memoryMap == 0 || b.mapSize == 0 || b.descriptorSize < DESCRIPTOR_BYTES { return; }
      ghost var ds := Listed(b, map_, 0);
      ReadMap(b, map_);
      ReserveAll(b);
      ghost var carved := Table();
      Coalesce();
      InitSettles(carved, Table());
    }

    /** What the loop of kmem_init keeps: the table holds pieces of the first k descriptors, all of them if they fit. */
    ghost predicate Reading(ds: seq<Descriptor>, k: nat, origin: seq<nat>)
      reads this, ranges
    {
      && Valid() && total == free && FromMap(Table(), origin, ds, k)
      && (Pieces(ds) <= ranges.Length ==> count + Pieces(ds[k..]) == Pieces(ds) && AllIn(Table(), ds, k))
    }

    /** The loop of kmem_init over the memory map. */
    method ReadMap(b: BootInfo, map_: nat -> Descriptor)
      requires HasMap(b) && FirmwareMap(Listed(b, map_, 0)) && Valid() && count == 0 && total == free
      modifies this`count, this`total, this`free, ranges
      ensures Valid() && total == free
      ensures OnlyUsable(Table(), Listed(b, map_, 0))
      ensures Pieces(Listed(b, map_, 0)) <= ranges.Length ==>
                && count == Pieces(Listed(b, map_, 0))
                && EveryUsable(Table(), Listed(b, map_, 0))
    {
      hide PageTable.Reading, PageTable.Valid, OnlyUsable, EveryUsable, FirmwareMap, Pieces;
      ghost var ds := Listed(b, map_, 0);
      ghost var k: nat := 0;
      ghost var origin: seq<nat> := [];
      assert ds[0..] == ds;
      ReadingStarts(ds);
      var off := 0;
      while off + DESCRIPTOR_BYTES <= b.mapSize
        invariant k <= |ds| && Reading(ds, k, origin) && Listed(b, map_, off) == ds[k..]
        decreases b.mapSize - off
      {
        var d := map_(off);
        assert ds[k..][0] == d && ds[k..][1..] == ds[k + 1..];
        origin := AddDescriptor(d, ds, k, origin);
        k := k + 1;
        off := off + b.descriptorSize;
      }
      assert k == |ds|;
      ReadingDone(ds, origin);
    }

    lemma ReadingDone(ds: seq<Descriptor>, origin: seq<nat>)
      requires Reading(ds, |ds|, origin)
      ensures Valid() && total == free && OnlyUsable(Table(), ds)
      ensures Pieces(ds) <= ranges.Length ==> count == Pieces(ds) && EveryUsable(Table(), ds)
    {
      hide Good, Apart, OnlyUsable, EveryUsable;
      assert ds[|ds|..] == [];
      MapWithin(Table(), origin, ds);
      if Pieces(ds) <= ranges.Length { MapExact(Table(), ds); }
    }

    lemma ReadingStarts(ds: seq<Descriptor>)
      requires Valid() && count == 0 && total == free
      ensures Reading(ds, 0, [])
    {
      assert ds[0..] == ds;
    }

    /** One pass of that loop. */
    method AddDescriptor(d: Descriptor, ghost ds: seq<Descriptor>, ghost k: nat, ghost origin: seq<nat>)
      returns (ghost origin': seq<nat>)
      requires FirmwareMap(ds) && k < |ds| && ds[k] == d && Reading(ds, k, origin)
      modifies this`count, this`total, this`free, ranges
      ensures Reading(ds, k + 1, origin')
    {
      hide Good, Apart;
      origin' := origin;
      assert ds[k..][1..] == ds[k + 1..];
      var up := AlignUp(d.start);
      var start := if up < MIN_ADDRESS then MIN_ADDRESS else up;
      var end := AlignDown(d.start + d.pages * PAGE);
      if d.kind == CONVENTIONAL && end > start {
        PieceSize(d, start, end);
        PieceGood(d);
        NewPieceApart(Table(), origin, ds, k);
        ghost var before := Table();
        AddFreeRange(start, (end - start) / PAGE);
        if |before| < ranges.Length {
          MapGrows(before, origin, ds, k);
          origin' := origin + [k];
        }
      } else {
        assert Piece(d).pages == 0;
      }
    }

    /** What the calls of reserve_range in kmem_init keep: the intervals so far are gone, if there was room. */
    ghost predicate Carving(was: seq<Range>, done: seq<Interval>)
      reads this, ranges
    {
      && Valid() && total == free && Within(was, Table()) && Spared(was, Table(), done)
      && (|was| + |done| <= ranges.Length ==> Carved(was, Table(), done) && count <= |was| + |done|)
    }

    /** The calls of reserve_range at the end of kmem_init. */
    method ReserveAll(b: BootInfo)
      requires HasMap(b) && Valid() && total == free
      requires forall iv :: iv in Reservations(b) ==> NoWrap(iv)
      modifies this`count, this`total, this`free, ranges
      ensures Valid() && total == free && Within(old(Table()), Table())
      ensures Spared(old(Table()), Table(), Reservations(b))
      ensures old(count) + 5 <= ranges.Length ==> Carved(old(Table()), Table(), Reservations(b))
    {
      hide Good, Apart, Carved, Within, Spared;
      ghost var was, done := Table(), KernelArea(b) + MapArea(b);
      CarveNothing(was);
      ReserveNext(was, [], b.kernelBase, b.kernelBase + b.kernelSize);
      assert [] + KernelArea(b) == KernelArea(b);
      ReserveNext(was, KernelArea(b), b.memoryMap, b.memoryMap + b.mapSize);
      ReserveIf(b.rsdp != 0, was, done, b.rsdp, b.rsdp + PAGE);
      done := done + RsdpArea(b);
      ReserveIf(b.framebufferBase != 0 && b.framebufferHeight != 0 && b.framebufferStride != 0, was, done,
                b.framebufferBase, b.framebufferBase + b.framebufferHeight * b.framebufferStride * 4);
      done := done + FramebufferArea(b);
      ReserveIf(b.dmaBase != 0 && b.dmaSize != 0, was, done, b.dmaBase, b.dmaBase + b.dmaSize);
    }

    method ReserveIf(wanted: bool, ghost was: seq<Range>, ghost done: seq<Interval>, start: nat, end: nat)
      requires Carving(was, done) && (wanted ==> NoWrap(Interval(start, end)))
      modifies this`count, this`total, this`free, ranges
      ensures Carving(was, done + if wanted then [Interval(start, end)] else [])
    {
      if wanted {
        ReserveNext(was, done, start, end);
      } else {
        assert done + [] == done;
      }
    }

    method ReserveNext(ghost was: seq<Range>, ghost done: seq<Interval>, start: nat, end: nat)
      requires Carving(was, done) && NoWrap(Interval(start, end))
      modifies this`count, this`total, this`free, ranges
      ensures Carving(was, done + [Interval(start, end)])
    {
      ghost var t := Table();
      Reserve(start, end);
      SpareMore(was, t, Table(), done, Interval(start, end));
      if |was| + |done| < ranges.Length { CarveMore(was, t, Table(), done, Interval(start, end)); }
    }

    /** page_alloc: the lowest run of n free pages, or 0 when there is none. */
    method PageAlloc(n: nat) returns (addr: nat)
      requires Settled()
      modifies this`count, this`free, this`failures, this`held, ranges
      ensures Settled()
      ensures addr != 0 <==> n > 0 && HasRun(old(Table()), n)
      ensures addr == 0 ==> Table() == old(Table()) && free == old(free) && held == old(held)
      ensures failures == old(failures) + if addr == 0 && n > 0 then 1 else 0
      ensures addr != 0 ==> LowestRun(old(Table()), n, addr) && Lost(old(Table()), Table(), Run(addr / PAGE, n))
      ensures addr != 0 ==> free == old(free) - n
      ensures addr != 0 ==> held == old(held) + Run(addr / PAGE, n) && old(held) !! Run(addr / PAGE, n)
    {
      addr := 0;
      if n == 0 { return; }
      var i := 0;
      while i < count
        invariant 0 <= i <= count && forall k :: 0 <= k < i ==> Table()[k].pages < n
      {
        if ranges[i].pages >= n {
          FirstFit(Table(), i, n);
          addr := TakeRun(i, n);
          return;
        }
        i := i + 1;
      }
      NoFit(Table(), n);
      failures := failures + 1;
    }

    /** The body of the search loop of page_alloc for the range that is large enough. */
    method TakeRun(i: nat, n: nat) returns (addr: nat)
      requires Settled() && i < count && 0 < n <= ranges[i].pages
      modifies this`count, this`free, this`held, ranges
      ensures Settled() && free == old(free) - n && addr == old(ranges[i].start) && addr > 0
      ensures Lost(old(Table()), Table(), Run(addr / PAGE, n))
      ensures held == old(held) + Run(addr / PAGE, n) && old(held) !! Run(addr / PAGE, n)
    {
      ghost var was := Table();
      addr := ranges[i].start;
      ranges[i] := Range(ranges[i].start + n * PAGE, ranges[i].pages - n);
      free := free - n;
      assert Table() == was[i := Range(was[i].start + n * PAGE, was[i].pages - n)];
      if ranges[i].pages == 0 { RemoveIndex(i); }
      assert Table() == TakeFront(was, i, n);
      TakeSettles(was, i, n, total, old(free), held, dropped);
      held := held + Run(addr / PAGE, n);
    }

    /** page_free: a held run goes back to the table, or is dropped when the table is full. */
    method PageFree(addr: nat, n: nat)
      requires Settled()
      requires addr != 0 && n != 0 && addr % PAGE == 0 ==> Run(addr / PAGE, n) <= held
      modifies this`count, this`free, this`held, this`dropped, ranges
      ensures Settled()
      ensures addr == 0 || n == 0 || addr % PAGE != 0 ==>
                Table() == old(Table()) && free == old(free) && held == old(held) && dropped == old(dropped)
      ensures addr != 0 && n != 0 && addr % PAGE == 0 ==> held == old(held) - Run(addr / PAGE, n)
      ensures addr != 0 && n != 0 && addr % PAGE == 0 && old(count) < ranges.Length ==>
                && free == old(free) + n && dropped == old(dropped)
                && Gained(old(Table()), Table(), Run(addr / PAGE, n))
      ensures addr != 0 && n != 0 && addr % PAGE == 0 && old(count) == ranges.Length ==>
                Table() == old(Table()) && free == old(free) && dropped == old(dropped) + Run(addr / PAGE, n)
    {
      if addr == 0 || n == 0 || addr % PAGE != 0 { return; }
      if count < ranges.Length {
        GiveRun(addr, n);
      } else {
        LedgerDrops(Table(), total, held, dropped, Run(addr / PAGE, n));
        dropped := dropped + Run(addr / PAGE, n);
        held := held - Run(addr / PAGE, n);
      }
    }

    method AppendRange(addr: nat, n: nat)
      requires count < ranges.Length
      modifies this`count, this`free, ranges
      ensures count == old(count) + 1 <= ranges.Length && Table() == old(Table()) + [Range(addr, n)]
      ensures free == old(free) + n
    {
      ranges[count] := Range(addr, n);
      count := count + 1;
      free := free + n;
    }

    /** page_free when the table has room. */
    method GiveRun(addr: nat, n: nat)
      requires Settled() && count < ranges.Length
      requires addr != 0 && n != 0 && addr % PAGE == 0 && Run(addr / PAGE, n) <= held
      modifies this`count, this`free, this`held, ranges
      ensures Settled() && held == old(held) - Run(addr / PAGE, n) && free == old(free) + n
      ensures Gained(old(Table()), Table(), Run(addr / PAGE, n))
    {
      hide Kept, Gained, SettledTable, Good, Gapped, Apart;
      ghost var was, r := Table(), Range(addr, n);
      GiveAppends(was, r, total, free, held, dropped);
      AppendRange(addr, n);
      Coalesce();
      GiveSettles(was, r, Table(), total, old(free), held, dropped);
      held := held - Run(addr / PAGE, n);
    }
  }

  // ---- Full tables ----------------------------------------------------------------------------------------

  /** A table of one entry that holds the pages 1 to 3. */
  method ThreePages() returns (pages: PageTable)
    ensures fresh(pages) && fresh(pages.ranges) && pages.Settled() && pages.ranges.Length == 1
    ensures pages.Table() == [Range(PAGE, 3)] && pages.held == {} && pages.dropped == {}
  {
    pages := new PageTable(1);
    pages.AddFreeRange(PAGE, 3);
    assert pages.Table() == [Range(PAGE, 3)];
  }

  /** Reserving the middle page of a full table: the page is still free. */
  method ReserveSkipped() returns (pages: PageTable)
    ensures pages.Valid() && InInterval(2, 2 * PAGE, 3 * PAGE) && Covers(pages.Table(), 2)
  {
    pages := ThreePages();
    ghost var t := pages.Table();
    assert AlignDown(2 * PAGE) == 2 * PAGE && AlignUp(3 * PAGE) == 3 * PAGE;
    assert Inside(t[0], 2 * PAGE, 3 * PAGE) && t[0].HasPage(2);
    pages.Reserve(2 * PAGE, 3 * PAGE);
  }

  /** Freeing a page to a full table: it is neither free nor held any more. */
  method FreedPageLost() returns (pages: PageTable)
    ensures pages.Settled() && 1 in pages.dropped && 1 !in pages.held && !Covers(pages.Table(), 1)
    ensures pages.total == pages.free + 1
  {
    pages := ThreePages();
    FrontRun(pages.Table(), 0, 1);
    assert CoversRun(pages.Table(), 1, 1);
    var addr := pages.PageAlloc(1);
    pages.PageFree(addr, 1);
  }
}
