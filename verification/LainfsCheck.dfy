/**
 tools/lainfs_check_host.c: the directory check and the repair loop.
 */
module LainfsCheck {
  import opened LainfsFormat
  import opened LainfsTree

  datatype Reason = Ok | BadLayout | BadEntryType | BadName | BadParent | BadDirectory | BadFileExtent
      | OverlappingExtents

  /** `id` is the reported entry id, 0 when the reason is not about an entry. */
  datatype CheckResult = CheckResult(reason: Reason, id: nat)

  // ---- Small helpers of the checker ------------------------------------------------------------------

  /** ranges_overlap on 32-bit words. */
  predicate RangesOverlap(x: Extent, y: Extent)
  {
    var xEnd := (x.start + x.blocks) % WORD;
    var yEnd := (y.start + y.blocks) % WORD;
    x.start < yEnd && y.start < xEnd
  }

  /** Inside the partition the 32-bit test is exact: no sum wraps round. */
  lemma OverlapExact(l: Layout, x: Extent, y: Extent)
    requires InBounds(l, x) && InBounds(l, y) && x.blocks > 0 && y.blocks > 0
    ensures RangesOverlap(x, y) <==> !Disjoint(x, y)
  {
  }

  /** Whatever wraps round, the test never reports an overlap of extents that share no block. */
  lemma NoFalseOverlap(x: Extent, y: Extent)
    requires x.blocks > 0 && y.blocks > 0 && RangesOverlap(x, y)
    ensures !Disjoint(x, y)
  {
  }

  /**
   The first pass compares an extent that is already known to be in bounds with one that is not. The
   answer is right if and only if the other one does not wrap round, lies wholly above the first, or
   still covers the first one's start after wrapping round.
   */
  lemma OverlapRightIff(x: Extent, y: Extent)
    requires x.blocks > 0 && y.blocks > 0 && x.start + x.blocks < WORD
    ensures (RangesOverlap(x, y) <==> !Disjoint(x, y)) <==>
            || y.start + y.blocks < WORD
            || x.start + x.blocks <= y.start
            || x.start < y.start + y.blocks - WORD
  {
  }

  /** Outside it, it is not: an extent that runs past 2^32 seems to overlap nothing above its wrapped end. */
  lemma OverlapMisled()
    ensures var (x, y) := (Extent(0xFFFF_FFF0, 0x20), Extent(0xFFFF_FFF8, 1)); !Disjoint(x, y) && !RangesOverlap(x, y)
  {
  }

  /** valid_name; reading the field stops at its NUL or after 31 bytes. */
  method ValidName(name: string) returns (ok: bool)
    requires |name| <= NAME_BYTES
    ensures ok <==> LegalName(name)
    ensures ok <==> 1 <= |name| <= 30 && forall k :: 0 <= k < |name| ==> name[k] !in {'/', '\\', ':', ' ', '\t'}
  {
    var len := 0;
    while len < |name|
      invariant 0 <= len <= |name|
      invariant forall k :: 0 <= k < len ==> LegalChar(name[k])
    {
      var c := name[len];
      if c == '/' || c == '\\' || c == ':' || c == ' ' || c == '\t' { return false; }
      len := len + 1;
    }
    return len != 0 && len < NAME_BYTES;
  }

  lemma {:induction false} TotalSplit(xs: seq<Extent>, i: nat)
    requires i <= |xs|
    ensures TotalBlocks(xs) == TotalBlocks(xs[..i]) + TotalBlocks(xs[i..])
    decreases i
  {
    if i > 0 {
      TotalSplit(xs[1..], i - 1);
      assert xs[..i][1..] == xs[1..][..i - 1] && xs[1..][i - 1..] == xs[i..];
    } else {
      assert xs[..0] == [] && xs[0..] == xs;
    }
  }

  lemma TotalStep(xs: seq<Extent>, i: nat)
    requires i < |xs|
    ensures TotalBlocks(xs[..i + 1]) == TotalBlocks(xs[..i]) + xs[i].blocks
    ensures TotalBlocks(xs[..i + 1]) <= TotalBlocks(xs)
  {
    TotalSplit(xs[..i + 1], i);
    assert xs[..i + 1][..i] == xs[..i] && xs[..i + 1][i..] == [xs[i]];
    assert TotalBlocks([xs[i]]) == xs[i].blocks + TotalBlocks([xs[i]][1..]);
    TotalSplit(xs, i + 1);
  }

  /** entry_extents. */
  method EntryExtents(e: Entry) returns (ok: bool, xs: seq<Extent>)
    ensures ok <==> LegalExtents(e)
    ensures ok ==> xs == ListedExtents(e)
  {
    var required := AllocatedBlocks(e.size);
    if e.meta == 0 {
      xs := [Extent(e.start, required)];
      assert TotalBlocks(xs) == required + TotalBlocks(xs[1..]);
      return true, xs;
    }
    var count := e.meta / EXTENT_UNIT;
    if count == 0 || count > 3 { return false, []; }
    xs := [Extent(e.start, e.meta % EXTENT_UNIT)];
    if count > 1 { xs := xs + [e.extra0]; }
    if count > 2 { xs := xs + [e.extra1]; }
    assert xs == ListedExtents(e);
    var total := 0;
    var i := 0;
    while i < count
      invariant 0 <= i <= count && total == TotalBlocks(xs[..i]) <= required
      invariant forall k :: 0 <= k < i ==> xs[k].blocks > 0
    {
      TotalStep(xs, i);
      if xs[i].blocks == 0 || xs[i].blocks > required - total { return false, xs; }
      total := total + xs[i].blocks;
      i := i + 1;
    }
    assert xs[..i] == xs;
    return total == required, xs;
  }

  ghost function Below(n: nat): (r: set<int>)
    ensures forall j :: j in r <==> 0 <= j < n
  {
    if n == 0 then {} else Below(n - 1) + {n - 1}
  }

  // ---- The volume ----------------------------------------------------------------------------------------

  class Volume {
    const layout: Layout
    const dir: array<Entry>      // the directory in memory
    var saved: seq<Entry>        // the directory on the image

    ghost predicate Valid()
      reads this, dir
    {
      dir.Length < WORD - 1 && forall i :: 0 <= i < dir.Length ==> |dir[i].name| <= NAME_BYTES
    }

    /** find_parent_cycle. */
    method FindParentCycle(id: nat) returns (found: bool, cycle: nat)
      requires IsDir(dir[..], id)
      ensures found ==> OnCycle(dir[..], cycle) && exists k: nat :: Up(dir[..], id, k) == cycle
      ensures found <==> !Stops(dir[..], id)
    {
      ghost var d := dir[..];
      var seen := new bool[dir.Length](_ => false);
      var current := id;
      ghost var k: nat := 0;
      ghost var unseen := Below(dir.Length);
      found, cycle := false, 0;
      while current != 0
        invariant dir[..] == d && current == Up(d, id, k)
        invariant forall j :: 0 <= j < k ==> IsDir(d, Up(d, id, j))
        invariant forall j :: 0 <= j < seen.Length && seen[j] ==> exists m: nat :: m < k && Up(d, id, m) == j + 1
        invariant forall j :: j in unseen <==> 0 <= j < seen.Length && !seen[j]
        decreases unseen
      {
        if current > dir.Length { break; }
        if seen[current - 1] {
          ghost var m: nat :| m < k && Up(d, id, m) == current;
          CycleFound(d, id, m, k);
          return true, current;
        }
        seen[current - 1] := true;
        unseen := unseen - {current - 1};
        if dir[current - 1].used != DIR { break; }
        assert Up(d, id, k + 1) == d[current - 1].parent;
        current := dir[current - 1].parent;
        k := k + 1;
        if current > dir.Length { break; }
      }
      assert StopsAfter(d, id, k);
      assert k > 0 by { assert Up(d, id, 0) == id; }
    }

    /** The checks on the extents of one file entry. */
    method CheckFile(e: Entry) returns (r: Reason)
      ensures r == Ok || r == BadFileExtent || r == OverlappingExtents
      ensures r == Ok <==> LegalFile(layout, e)
      ensures r == OverlappingExtents ==> SelfOverlap(e)
    {
      if e.size > FILE_CAPACITY { return BadFileExtent; }
      var ok, xs := EntryExtents(e);
      if !ok { return BadFileExtent; }
      var total := 0;
      var i := 0;
      while i < |xs|
        invariant 0 <= i <= |xs| && total == TotalBlocks(xs[..i])
        invariant forall k :: 0 <= k < i ==> InBounds(layout, xs[k])
        invariant forall j, k :: 0 <= j < i && j < k < |xs| ==> !RangesOverlap(xs[j], xs[k])
      {
        TotalStep(xs, i);
        if xs[i].blocks == 0 || total > MAX_FILE_BLOCKS - xs[i].blocks
           || xs[i].start < layout.dataStart || xs[i].start + xs[i].blocks > layout.partitionBlocks {
          assert !InBounds(layout, xs[i]);
          return BadFileExtent;
        }
        var other := i + 1;
        while other < |xs|
          invariant i + 1 <= other <= |xs|
          invariant forall k :: i < k < other ==> !RangesOverlap(xs[i], xs[k])
        {
          if RangesOverlap(xs[i], xs[other]) {
            NoFalseOverlap(xs[i], xs[other]);
            return OverlappingExtents;
          }
          other := other + 1;
        }
        total := total + xs[i].blocks;
        i := i + 1;
      }
      forall j, k | 0 <= j < k < |xs| ensures Disjoint(xs[j], xs[k]) { OverlapExact(layout, xs[j], xs[k]); }
      return Ok;
    }

    /** The first pass, for one entry. */
    method CheckEntry(i: nat) returns (r: CheckResult)
      requires Valid() && i < dir.Length
      ensures r.reason == Ok ==> Passes(layout, dir[..], i)
      ensures r.reason != Ok ==> !LegalEntry(layout, dir[..], i)
      ensures r.reason != BadLayout && Justified(layout, dir[..], r)
    {
      ghost var d := dir[..];
      var e := dir[i];
      var id := i + 1;
      if e.used == UNUSED { return CheckResult(Ok, 0); }
      if e.used != FILE && e.used != DIR { return CheckResult(BadEntryType, id); }
      var named := ValidName(e.name);
      if !named { return CheckResult(BadName, id); }
      if e.parent > dir.Length || e.parent == id || (e.parent != 0 && dir[e.parent - 1].used != DIR) {
        if ReachesRoot(d, id) { ReachingParent(d, i); }
        return CheckResult(BadParent, id);
      }
      if e.used == DIR {
        if e.start != 0 || e.size != 0 { return CheckResult(BadDirectory, id); }
        var found, cycle := FindParentCycle(id);
        if found {
          ghost var k: nat :| Up(d, id, k) == cycle;
          CycleMissesRoot(d, id, cycle, k);
          CycleNeverStops(d, cycle, 0);
          return CheckResult(BadParent, cycle);
        }
      } else {
        var f := CheckFile(e);
        if f != Ok { return CheckResult(f, id); }
      }
      return CheckResult(Ok, 0);
    }

    /** The second pass, for one pair of files. */
    method CheckPair(a: Entry, b: Entry) returns (r: Reason)
      ensures r == Ok || r == BadFileExtent || r == OverlappingExtents
      ensures r == BadFileExtent <==> !LegalExtents(a) || !LegalExtents(b)
      ensures r != BadFileExtent ==> (r == OverlappingExtents <==> AnyOverlap(ListedExtents(a), ListedExtents(b)))
    {
      var aOk, xs := EntryExtents(a);
      if !aOk { return BadFileExtent; }
      var bOk, ys := EntryExtents(b);
      if !bOk { return BadFileExtent; }
      var ai := 0;
      while ai < |xs|
        invariant 0 <= ai <= |xs|
        invariant forall i, j :: 0 <= i < ai && 0 <= j < |ys| ==> !RangesOverlap(xs[i], ys[j])
      {
        var bi := 0;
        while bi < |ys|
          invariant 0 <= bi <= |ys|
          invariant forall j :: 0 <= j < bi ==> !RangesOverlap(xs[ai], ys[j])
        {
          if RangesOverlap(xs[ai], ys[bi]) {
            assert AnyOverlap(xs, ys);
            return OverlappingExtents;
          }
          bi := bi + 1;
        }
        ai := ai + 1;
      }
      return Ok;
    }

    /** The second pass: no two files share a block. */
    method CheckOverlaps() returns (r: CheckResult)
      requires forall i :: 0 <= i < dir.Length && dir[i].used == FILE ==> LegalFile(layout, dir[i])
      ensures r.reason == Ok <==> forall i, j :: 0 <= i < j < dir.Length ==> DisjointFiles(dir[i], dir[j])
      ensures r.reason != BadLayout && Justified(layout, dir[..], r)
    {
      hide DisjointFiles, LegalFile, LegalExtents, ListedExtents, AnyOverlap;
      var i := 0;
      while i < dir.Length
        invariant 0 <= i <= dir.Length
        invariant forall m, n :: 0 <= m < i && m < n < dir.Length ==> DisjointFiles(dir[m], dir[n])
      {
        if dir[i].used == FILE {
          var j := i + 1;
          while j < dir.Length
            invariant i + 1 <= j <= dir.Length
            invariant forall n :: i < n < j ==> DisjointFiles(dir[i], dir[n])
          {
            if dir[j].used == FILE {
              var p := CheckPair(dir[i], dir[j]);
              PairExact(layout, dir[i], dir[j]);
              if p != Ok { return CheckResult(p, j + 1); }
            } else {
              NoFilesDisjoint(dir[i], dir[j]);
            }
            j := j + 1;
          }
        } else {
          forall n | i < n < dir.Length ensures DisjointFiles(dir[i], dir[n]) { NoFilesDisjoint(dir[i], dir[n]); }
        }
        i := i + 1;
      }
      return CheckResult(Ok, 0);
    }

    /** check_directory accepts exactly the well-formed directories, and a complaint is justified. */
    method CheckDirectory() returns (r: CheckResult)
      requires Valid()
      ensures r.reason == Ok <==> WellFormed(layout, dir[..])
      ensures Justified(layout, dir[..], r)
    {
      if layout.dirStart == 0 || layout.dirBlocks == 0 || layout.dataStart <= layout.dirStart
         || layout.dirStart + layout.dirBlocks > layout.dataStart || layout.dataStart >= layout.partitionBlocks {
        return CheckResult(BadLayout, 0);
      }
      var i := 0;
      while i < dir.Length
        invariant 0 <= i <= dir.Length
        invariant forall k :: 0 <= k < i ==> Passes(layout, dir[..], k)
      {
        r := CheckEntry(i);
        if r.reason != Ok { return; }
        i := i + 1;
      }
      PassesMeansLegal(layout, dir[..]);
      forall k | 0 <= k < dir.Length && dir[k].used == FILE ensures LegalFile(layout, dir[k]) {
        assert Passes(layout, dir[..], k);
      }
      r := CheckOverlaps();
    }

    /** repair_once: at most one field of the reported entry is reset. */
    method RepairOnce(r: CheckResult) returns (fixed: bool)
      requires Valid()
      modifies dir
      ensures Valid()
      ensures fixed <==> Fixable(layout, old(dir[..]), r)
      ensures dir[..] == if fixed then Repaired(old(dir[..]), r) else old(dir[..])
    {
      if r.id == 0 || r.id > dir.Length { return false; }
      ghost var d := dir[..];
      var e := dir[r.id - 1];
      if e.used != FILE && e.used != DIR { return false; }
      if r.reason == BadParent {
        var broken := e.parent > dir.Length || e.parent == r.id || (e.parent != 0 && dir[e.parent - 1].used != DIR);
        if !broken && e.used == DIR {
          var cycle;
          broken, cycle := FindParentCycle(r.id);
        }
        if broken {
          dir[r.id - 1] := e.(parent := 0);
          return true;
        }
      }
      if r.reason == BadDirectory && e.used == DIR {
        dir[r.id - 1] := e.(start := 0, size := 0);
        return true;
      }
      if r.reason == BadFileExtent && e.meta != 0 && LegacyFieldsValid(layout, e) {
        dir[r.id - 1] := e.(meta := 0, extra0 := Extent(0, 0), extra1 := Extent(0, 0));
        return true;
      }
      return false;
    }

    /** The loop of command_repair, with the cap of one repair more than there are entries. */
    method Repair() returns (ok: bool, repairs: nat, last: CheckResult)
      requires Valid()
      modifies this`saved, dir
      ensures Valid()
      ensures ok ==> WellFormed(layout, dir[..])
      ensures saved == if ok && repairs != 0 then dir[..] else old(saved)
      ensures repairs <= Damage(old(dir[..]))
      ensures SameFiles(old(dir[..]), dir[..])
      ensures !ok && repairs <= dir.Length ==>
                && last.reason != Ok && last.reason != BadParent && last.reason != BadDirectory
                && Justified(layout, dir[..], last) && !Fixable(layout, dir[..], last)
      ensures !ok ==> repairs <= dir.Length + 1
      ensures ok ==> last.reason == Ok
    {
      repairs := 0;
      ok := false;
      last := CheckDirectory();
      while last.reason != Ok
        invariant Valid() && saved == old(saved)
        invariant repairs + Damage(dir[..]) <= Damage(old(dir[..])) && repairs <= dir.Length
        invariant SameFiles(old(dir[..]), dir[..])
        invariant last.reason == Ok <==> WellFormed(layout, dir[..])
        invariant Justified(layout, dir[..], last)
        decreases Damage(dir[..])
      {
        ghost var before := dir[..];
        var fixed := RepairOnce(last);
        JustifiedFixable(layout, before, last);
        if !fixed { return; }
        RepairLowersDamage(layout, before, last);
        repairs := repairs + 1;
        if repairs > dir.Length { return; }
        last := CheckDirectory();
      }
      ok := true;
      if repairs != 0 { saved := dir[..]; }
    }
  }

  // ---- Repair ------------------------------------------------------------------------------------------

  /** legacy_fields_valid. */
  predicate LegacyFieldsValid(l: Layout, e: Entry)
  {
    && e.used == FILE
    && e.size <= FILE_CAPACITY
    && AllocatedBlocks(e.size) <= MAX_FILE_BLOCKS
    && e.start >= l.dataStart
    && e.start + AllocatedBlocks(e.size) <= l.partitionBlocks
  }

  /** The entry without its list of extents. */
  function Legacy(e: Entry): Entry
  {
    e.(meta := 0, extra0 := Extent(0, 0), extra1 := Extent(0, 0))
  }

  /** The test says exactly whether the file is legal without its list of extents. */
  lemma LegacyExact(l: Layout, e: Entry)
    requires e.used == FILE
    ensures LegacyFieldsValid(l, e) <==> LegalFile(l, Legacy(e))
  {
    var x := Extent(e.start, AllocatedBlocks(e.size));
    assert ListedExtents(Legacy(e)) == [x];
    assert TotalBlocks([x]) == x.blocks + TotalBlocks([x][1..]);
  }

  /**
   What is left when a repair gives up: a bad layout, a bad type or name, a block listed twice, or a file that is
   illegal with its list of extents and without.
   */
  lemma GivesUp(l: Layout, d: seq<Entry>, r: CheckResult)
    requires r.reason != Ok && Justified(l, d, r) && !Fixable(l, d, r)
    ensures r.reason == BadLayout ==> !LegalLayout(l)
    ensures r.reason != BadLayout ==>
              && 1 <= r.id <= |d|
              && var e := d[r.id - 1];
                 match r.reason
                 case BadEntryType => e.used > 2
                 case BadName => !LegalName(e.name)
                 case OverlappingExtents => e.used == FILE && SharesBlock(d, r.id - 1)
                 case BadFileExtent => e.used == FILE && !LegalFile(l, e) && (e.meta == 0 || !LegalFile(l, Legacy(e)))
                 case _ => false
  {
    JustifiedFixable(l, d, r);
    if r.reason == BadFileExtent { LegacyExact(l, d[r.id - 1]); }
  }

  /** The reset that the reason calls for. */
  function Repaired(d: seq<Entry>, r: CheckResult): (d': seq<Entry>)
    requires 1 <= r.id <= |d|
    ensures |d'| == |d|
  {
    var e := d[r.id - 1];
    d[r.id - 1 := if r.reason == BadParent then e.(parent := 0)
                  else if r.reason == BadDirectory then e.(start := 0, size := 0)
                  else e.(meta := 0, extra0 := Extent(0, 0), extra1 := Extent(0, 0))]
  }

  function One(b: bool): nat { if b then 1 else 0 }

  /** The fields of an entry that a repair may still reset. */
  function EntryDamage(e: Entry): nat
  {
    One(e.parent != 0) + One(e.used == DIR && (e.start != 0 || e.size != 0)) + One(e.used == FILE && e.meta != 0)
  }

  function Damage(d: seq<Entry>): nat
  {
    if d == [] then 0 else EntryDamage(d[0]) + Damage(d[1..])
  }

  lemma {:induction false} DamageAt(d: seq<Entry>, i: nat, e: Entry)
    requires i < |d|
    ensures Damage(d[i := e]) == Damage(d) - EntryDamage(d[i]) + EntryDamage(e)
    decreases i
  {
    if i == 0 {
      assert d[0 := e][1..] == d[1..];
    } else {
      DamageAt(d[1..], i - 1, e);
      assert d[i := e][1..] == d[1..][i - 1 := e];
    }
  }

  /** When repair_once does something about a complaint. */
  ghost predicate Fixable(l: Layout, d: seq<Entry>, r: CheckResult)
  {
    && 1 <= r.id <= |d|
    && (var e := d[r.id - 1];
        && (e.used == FILE || e.used == DIR)
        && match r.reason
           case BadParent =>
             e.parent > |d| || e.parent == r.id || (e.parent != 0 && !IsDir(d, e.parent))
             || (e.used == DIR && !Stops(d, r.id))
           case BadDirectory => e.used == DIR
           case BadFileExtent => e.meta != 0 && LegacyFieldsValid(l, e)
           case _ => false)
  }

  /** A complaint of the checker about a parent or about directory metadata can always be repaired, a
      reported cycle member included. */
  lemma JustifiedFixable(l: Layout, d: seq<Entry>, r: CheckResult)
    requires Justified(l, d, r)
    ensures r.reason == BadParent || r.reason == BadDirectory ==> Fixable(l, d, r)
  {
    CycleOrStop(d, r.id);
  }

  /** Repairing what the checker complained about strictly lowers the damage and leaves names, types, file
      sizes and file start blocks alone. */
  lemma RepairLowersDamage(l: Layout, d: seq<Entry>, r: CheckResult)
    requires Justified(l, d, r) && Fixable(l, d, r)
    ensures Damage(Repaired(d, r)) < Damage(d)
    ensures SameFiles(d, Repaired(d, r))
  {
    DamageAt(d, r.id - 1, Repaired(d, r)[r.id - 1]);
    assert Up(d, r.id, 0) == r.id;
    assert r.reason == BadParent && d[r.id - 1].parent == 0 ==> StopsAfter(d, r.id, 1);
  }

  /** And it cures what was complained about. */
  lemma RepairCures(l: Layout, d: seq<Entry>, r: CheckResult)
    requires Fixable(l, d, r)
    ensures var d' := Repaired(d, r); var e := d'[r.id - 1];
            && (r.reason == BadParent ==> ReachesRoot(d', r.id))
            && (r.reason == BadDirectory ==> e.start == 0 && e.size == 0)
            && (r.reason == BadFileExtent ==> LegalFile(l, e))
            && (forall i :: 0 <= i < |d| && i != r.id - 1 ==> d'[i] == d[i])
  {
    if r.reason == BadParent {
      var d' := Repaired(d, r);
      assert Up(d', r.id, 0) == r.id && Up(d', r.id, 1) == 0;
      assert ReachesRootIn(d', r.id, 1);
    }
    if r.reason == BadFileExtent { LegacyExact(l, d[r.id - 1]); }
  }

  /** Types and names of all entries, and sizes and start blocks of files. */
  ghost predicate SameFiles(d: seq<Entry>, d': seq<Entry>)
  {
    && |d'| == |d|
    && forall i :: 0 <= i < |d| ==>
         && d'[i].used == d[i].used && d'[i].name == d[i].name
         && (d[i].used == FILE ==> d'[i].size == d[i].size && d'[i].start == d[i].start)
  }

  /** A walk cannot both go round and stop. */
  lemma CycleOrStop(d: seq<Entry>, id: nat)
    ensures OnCycle(d, id) ==> !Stops(d, id)
  {
    if OnCycle(d, id) {
      forall k: nat ensures !StopsAfter(d, id, k) { CycleNeverStops(d, id, k); }
    }
  }

  ghost predicate AnyOverlap(xs: seq<Extent>, ys: seq<Extent>)
  {
    exists i, j :: 0 <= i < |xs| && 0 <= j < |ys| && RangesOverlap(xs[i], ys[j])
  }

  lemma NoFilesDisjoint(a: Entry, b: Entry)
    requires a.used != FILE || b.used != FILE
    ensures DisjointFiles(a, b)
  {
  }

  /** For two legal files the 32-bit tests decide whether they share a block. */
  lemma PairExact(l: Layout, a: Entry, b: Entry)
    requires LegalFile(l, a) && LegalFile(l, b) && a.used == FILE && b.used == FILE
    ensures LegalExtents(a) && LegalExtents(b)
    ensures DisjointFiles(a, b) <==> !AnyOverlap(ListedExtents(a), ListedExtents(b))
  {
    var (xs, ys) := (ListedExtents(a), ListedExtents(b));
    forall i, j | 0 <= i < |xs| && 0 <= j < |ys| ensures RangesOverlap(xs[i], ys[j]) <==> !Disjoint(xs[i], ys[j]) {
      OverlapExact(l, xs[i], ys[j]);
    }
  }

  /** The walk up from `id` does not go round forever. */
  ghost predicate Stops(d: seq<Entry>, id: nat)
  {
    exists k: nat :: k > 0 && StopsAfter(d, id, k)
  }

  /** What the first pass checks of entry i. */
  ghost predicate Passes(l: Layout, d: seq<Entry>, i: nat)
    requires i < |d|
  {
    var e := d[i];
    e.used != UNUSED ==>
      && (e.used == FILE || e.used == DIR)
      && LegalName(e.name)
      && (e.parent == 0 || IsDir(d, e.parent))
      && (e.used == DIR ==> e.start == 0 && e.size == 0 && Stops(d, i + 1))
      && (e.used == FILE ==> LegalFile(l, e))
  }

  /** What a complaint about an entry is worth. */
  ghost predicate Justified(l: Layout, d: seq<Entry>, r: CheckResult)
  {
    && (r.reason == BadLayout ==> !LegalLayout(l))
    && (r.reason != Ok && r.reason != BadLayout ==> 1 <= r.id <= |d| && d[r.id - 1].used != UNUSED)
    && (r.reason == BadEntryType ==> d[r.id - 1].used != FILE && d[r.id - 1].used != DIR)
    && (r.reason == BadName ==> !LegalName(d[r.id - 1].name))
    && (r.reason == BadParent ==> BrokenParent(d, r.id))
    && (r.reason == BadDirectory ==> d[r.id - 1].used == DIR && (d[r.id - 1].start != 0 || d[r.id - 1].size != 0))
    && (r.reason == BadFileExtent ==> d[r.id - 1].used == FILE && !LegalFile(l, d[r.id - 1]))
    && (r.reason == OverlappingExtents ==> d[r.id - 1].used == FILE && SharesBlock(d, r.id - 1))
  }

  /** Two extents of the file have a block in common. */
  ghost predicate SelfOverlap(e: Entry)
  {
    var xs := ListedExtents(e);
    exists j, k :: 0 <= j < k < |xs| && !Disjoint(xs[j], xs[k])
  }

  /** A block of file i is listed twice, by the file itself or by an earlier one. */
  ghost predicate SharesBlock(d: seq<Entry>, i: nat)
    requires i < |d|
  {
    SelfOverlap(d[i]) || exists j :: 0 <= j < i && !DisjointFiles(d[j], d[i])
  }

  /** The first pass accepts exactly the directories whose entries are all legal. */
  lemma PassesMeansLegal(l: Layout, d: seq<Entry>)
    requires forall i :: 0 <= i < |d| ==> Passes(l, d, i)
    ensures forall i :: 0 <= i < |d| ==> LegalEntry(l, d, i)
  {
    forall i | 0 <= i < |d| && d[i].used == DIR ensures ReachesRoot(d, i + 1) {
      assert Passes(l, d, i);
      var k: nat :| k > 0 && StopsAfter(d, i + 1, k);
      forall j | 0 <= j < |d| && d[j].used == DIR
        ensures d[j].parent == 0 || IsDir(d, d[j].parent) { assert Passes(l, d, j); }
      StopsAtRoot(d, i + 1, k);
    }
    forall i | 0 <= i < |d| ensures LegalEntry(l, d, i) {
      assert Passes(l, d, i);
      if d[i].used == FILE {
        assert d[i].parent != 0 ==> d[d[i].parent - 1].used == DIR;
        ReachesThroughParent(d, i);
      }
    }
  }

  /** A parent out of range, a self-parent, a parent that is no directory, or a directory on a cycle. */
  ghost predicate BrokenParent(d: seq<Entry>, id: nat)
  {
    && 1 <= id <= |d|
    && (d[id - 1].used == FILE || d[id - 1].used == DIR)
    && (var p := d[id - 1].parent;
        p > |d| || p == id || (p != 0 && !IsDir(d, p)) || (d[id - 1].used == DIR && OnCycle(d, id)))
  }

  lemma CycleFound(d: seq<Entry>, id: nat, m: nat, k: nat)
    requires m < k && Up(d, id, m) == Up(d, id, k) && forall j :: 0 <= j < k ==> IsDir(d, Up(d, id, j))
    ensures OnCycle(d, Up(d, id, k)) && !Stops(d, id)
  {
    var c := Up(d, id, k);
    UpCompose(d, id, m, k - m);
    forall j | 0 <= j < k - m ensures IsDir(d, Up(d, c, j)) { UpCompose(d, id, m, j); }
    assert CycleOf(d, c, k - m);
    forall n: nat ensures !StopsAfter(d, id, n) {
      if n >= k {
        UpCompose(d, id, k, n - k);
        CycleForever(d, c, k - m, n - k);
      }
    }
  }
}
