/**
 tools/lainfs_seed.c: building a file system image, and what the checker and reader of
 tools/lainfs_check_host.c then find in it.
 */
module LainfsSeed {
  import opened LainfsFormat
  import opened LainfsTree
  import opened LainfsCheck
  import opened LainfsRead

  // ---- The operations as functions -------------------------------------------------------------------

  const MAX_NAME: int := 30

  /** valid_name of the seeder, on the C string it is given. */
  predicate GoodName(name: string)
  {
    0 < |name| <= MAX_NAME && forall k :: 0 <= k < |name| ==> LegalChar(name[k])
  }

  const NO_EXTENT := Extent(0, 0)

  function EmptyEntry(): Entry
  {
    Entry(UNUSED, "", 0, 0, 0, 0, NO_EXTENT, NO_EXTENT)
  }

  /** find_entry_in_dir of the seeder: any used entry of that parent and name, or |dir|. */
  function FindName(dir: seq<Entry>, parent: nat, name: string, from: nat): (r: nat)
    requires from <= |dir|
    ensures from <= r <= |dir|
    ensures r < |dir| ==> dir[r].used != UNUSED && dir[r].parent == parent && dir[r].name == name
    ensures forall i :: from <= i < r ==> !(dir[i].used != UNUSED && dir[i].parent == parent && dir[i].name == name)
    decreases |dir| - from
  {
    if from == |dir| || (dir[from].used != UNUSED && dir[from].parent == parent && dir[from].name == name)
    then from
    else FindName(dir, parent, name, from + 1)
  }

  /** find_free_entry. */
  function FirstUnused(dir: seq<Entry>, from: nat): (r: nat)
    requires from <= |dir|
    ensures from <= r <= |dir|
    ensures r < |dir| ==> dir[r].used == UNUSED
    ensures forall i :: from <= i < r ==> dir[i].used != UNUSED
    decreases |dir| - from
  {
    if from == |dir| || dir[from].used == UNUSED then from else FirstUnused(dir, from + 1)
  }

  /** The blocks from `start` on are data blocks of the partition that no file owns. */
  predicate FreeRun(l: Layout, dir: seq<Entry>, start: nat, blocks: nat)
  {
    && l.dataStart <= start && start + blocks <= l.partitionBlocks
    && forall i :: 0 <= i < |dir| && dir[i].used == FILE ==>
         dir[i].start + AllocatedBlocks(dir[i].size) <= start || start + blocks <= dir[i].start
  }

  /** The lowest free run of that length from `from` on, or -1. */
  function LowestFree(l: Layout, dir: seq<Entry>, blocks: nat, from: nat): (r: int)
    ensures r < 0 ==> forall s: nat :: s >= from ==> !FreeRun(l, dir, s, blocks)
    ensures r >= 0 ==> r >= from && FreeRun(l, dir, r, blocks) && forall s: nat :: from <= s < r ==>
      !FreeRun(l, dir, s, blocks)
    decreases l.partitionBlocks - from
  {
    if from + blocks > l.partitionBlocks then -1
    else if FreeRun(l, dir, from, blocks) then from
    else LowestFree(l, dir, blocks, from + 1)
  }

  datatype DirOutcome = NoDir | HasDir(dir: seq<Entry>, id: nat)

  function DirEntry(parent: u32, name: string): Entry
  {
    Entry(DIR, name, 0, 0, parent, 0, NO_EXTENT, NO_EXTENT)
  }

  /** make_dir. */
  function MakeDir(dir: seq<Entry>, parent: u32, name: string): DirOutcome
  {
    if !GoodName(name) then NoDir else
    var i := FindName(dir, parent, name, 0);
    if i < |dir| then (if dir[i].used == DIR then HasDir(dir, i + 1) else NoDir) else
    var j := FirstUnused(dir, 0);
    if j == |dir| then NoDir else HasDir(dir[j := DirEntry(parent, name)], j + 1)
  }

  /** Block b of the data, padded with zeros. */
  function DataBlock(data: seq<Byte>, b: nat): Block
  {
    seq(BLOCK_SIZE, k requires 0 <= k < BLOCK_SIZE =>
      if b * BLOCK_SIZE + k < |data| then data[b * BLOCK_SIZE + k] else 0)
  }

  function BlockAfter(disk: seq<Block>, start: nat, n: nat, data: seq<Byte>, i: nat): Block
    requires i < |disk|
  {
    if start <= i < start + n then DataBlock(data, i - start) else disk[i]
  }

  /** The disk after writing n blocks of data from `start` on. */
  function Written(disk: seq<Block>, start: nat, n: nat, data: seq<Byte>): (r: seq<Block>)
    ensures |r| == |disk|
    ensures forall i :: 0 <= i < |disk| ==> r[i] == BlockAfter(disk, start, n, data, i)
  {
    seq(|disk|, i requires 0 <= i < |disk| => BlockAfter(disk, start, n, data, i))
  }

  datatype FileOutcome = NoFile | HasFile(dir: seq<Entry>, disk: seq<Block>, index: nat)

  function FileEntry(parent: u32, name: string, start: u32, size: u32): Entry
  {
    Entry(FILE, name, start, size, parent, 0, NO_EXTENT, NO_EXTENT)
  }

  /** save_file. */
  function SaveFile(l: Layout, dir: seq<Entry>, disk: seq<Block>, parent: u32, name: string,
                    data: seq<Byte>): FileOutcome
    requires |data| < WORD
  {
    if !GoodName(name) || |data| > FILE_CAPACITY || FindName(dir, parent, name, 0) < |dir| then NoFile else
    var j := FirstUnused(dir, 0);
    if j == |dir| then NoFile else
    var n := AllocatedBlocks(|data|);
    var start := LowestFree(l, dir, n, l.dataStart);
    if start < 0 then NoFile else
    HasFile(dir[j := FileEntry(parent, name, start, |data|)], Written(disk, start, n, data), j)
  }

  // ---- When they succeed ----------------------------------------------------------------------------------------

  /** A name a tool accepts, written out. */
  predicate PlainName(name: string)
  {
    1 <= |name| <= 30 && forall k :: 0 <= k < |name| ==> name[k] !in {'/', '\\', ':', ' ', '\t'}
  }

  /** Some entry of that parent and name is in use. */
  predicate NameTaken(dir: seq<Entry>, parent: nat, name: string)
  {
    exists i :: 0 <= i < |dir| && Bears(dir[i], parent, name)
  }

  predicate Bears(e: Entry, parent: nat, name: string)
  {
    e.used != UNUSED && e.parent == parent && e.name == name
  }

  /** The first entry that is not in use. */
  predicate FirstSlot(dir: seq<Entry>, j: nat)
  {
    j < |dir| && dir[j].used == UNUSED && forall i :: 0 <= i < j ==> dir[i].used != UNUSED
  }

  /** The block belongs to the file. */
  ghost predicate Owns(e: Entry, b: nat)
  {
    e.used == FILE && exists n: nat :: LeastBlocks(n, e.size) && e.start <= b < e.start + n
  }

  /** A data block of the partition that no file owns. */
  ghost predicate FreeBlock(l: Layout, dir: seq<Entry>, b: nat)
  {
    l.dataStart <= b < l.partitionBlocks && forall i :: 0 <= i < |dir| ==> !Owns(dir[i], b)
  }

  ghost predicate FreeBlocks(l: Layout, dir: seq<Entry>, start: nat, n: nat)
  {
    forall b: nat :: start <= b < start + n ==> FreeBlock(l, dir, b)
  }

  lemma LeastIsAllocated(n: nat, size: u32)
    requires size <= FILE_CAPACITY
    ensures LeastBlocks(n, size) <==> n == AllocatedBlocks(size)
  {
  }

  lemma OwnsExact(e: Entry, b: nat)
    requires e.size <= FILE_CAPACITY
    ensures Owns(e, b) <==> e.used == FILE && e.start <= b < e.start + AllocatedBlocks(e.size)
  {
    LeastIsAllocated(AllocatedBlocks(e.size), e.size);
    if Owns(e, b) {
      var n: nat :| LeastBlocks(n, e.size) && e.start <= b < e.start + n;
      LeastIsAllocated(n, e.size);
    }
  }

  /** The seeder's test for a run is about its blocks. */
  lemma FreeRunExact(l: Layout, dir: seq<Entry>, start: nat, n: nat)
    requires Seeded(l, dir) && n > 0
    ensures FreeRun(l, dir, start, n) <==> FreeBlocks(l, dir, start, n)
  {
    hide Owns, LeastBlocks;
    forall i, b: nat | 0 <= i < |dir| && dir[i].used == FILE
      ensures Owns(dir[i], b) <==> dir[i].start <= b < dir[i].start + AllocatedBlocks(dir[i].size) {
      assert SeededEntry(l, dir, i);
      OwnsExact(dir[i], b);
    }
    if FreeRun(l, dir, start, n) {
      forall b: nat | start <= b < start + n ensures FreeBlock(l, dir, b) {
        forall i | 0 <= i < |dir| ensures !Owns(dir[i], b) {
          if dir[i].used != FILE { NotOwner(dir[i], b); }
        }
      }
    }
    if FreeBlocks(l, dir, start, n) {
      assert FreeBlock(l, dir, start) && FreeBlock(l, dir, start + n - 1);
      forall i | 0 <= i < |dir| && dir[i].used == FILE
        ensures dir[i].start + AllocatedBlocks(dir[i].size) <= start || start + n <= dir[i].start {
        assert !Owns(dir[i], start);
        assert start <= dir[i].start < start + n ==> FreeBlock(l, dir, dir[i].start);
      }
    }
  }

  lemma NotOwner(e: Entry, b: nat)
    requires e.used != FILE
    ensures !Owns(e, b)
  {
  }

  lemma NameExact(name: string)
    ensures GoodName(name) <==> PlainName(name)
  {
  }

  lemma TakenExact(dir: seq<Entry>, parent: nat, name: string)
    ensures NameTaken(dir, parent, name) <==> FindName(dir, parent, name, 0) < |dir|
  {
    var i := FindName(dir, parent, name, 0);
    if i < |dir| { assert Bears(dir[i], parent, name); }
  }

  /** The file that save_file adds: first slot, lowest place, and its data on the disk. */
  ghost predicate Saved(l: Layout, dir: seq<Entry>, disk: seq<Block>, parent: u32, name: string, data: seq<Byte>,
                        o: FileOutcome)
  {
    && o.HasFile? && FirstSlot(dir, o.index) && |data| < WORD && o.index < |o.dir|
    && var e := o.dir[o.index];
       var n := AllocatedBlocks(|data|);
       && o.dir == dir[o.index := Entry(1, name, e.start, |data|, parent, 0, Extent(0, 0), Extent(0, 0))]
       && FreeBlocks(l, dir, e.start, n) && (forall s: nat :: s < e.start ==> !FreeBlocks(l, dir, s, n))
       && o.disk == Written(disk, e.start, n, data)
  }

  /** There is room for so many bytes. */
  ghost predicate RoomFor(l: Layout, dir: seq<Entry>, size: nat)
  {
    exists s: nat, n: nat :: LeastBlocks(n, size) && FreeBlocks(l, dir, s, n)
  }

  /**
   save_file succeeds if and only if the name is plain and not taken, the file is no larger than 4 MiB, an entry is
   unused and there is room; and what it then adds.
   */
  lemma SaveFileIff(l: Layout, dir: seq<Entry>, disk: seq<Block>, parent: u32, name: string, data: seq<Byte>)
    requires Seeded(l, dir) && |data| < WORD
    ensures var o := SaveFile(l, dir, disk, parent, name, data);
            && (o.HasFile? <==>
                  && PlainName(name) && |data| <= 4 * 1024 * 1024 && !NameTaken(dir, parent, name)
                  && (exists j :: 0 <= j < |dir| && dir[j].used == UNUSED) && RoomFor(l, dir, |data|))
            && (o.HasFile? ==> Saved(l, dir, disk, parent, name, data, o))
  {
    hide Seeded, FreeRun, FreeBlocks, LeastBlocks, NameTaken, GoodName, PlainName;
    var o := SaveFile(l, dir, disk, parent, name, data);
    NameExact(name);
    TakenExact(dir, parent, name);
    if |data| <= FILE_CAPACITY {
      var n := AllocatedBlocks(|data|);
      forall s: nat ensures FreeRun(l, dir, s, n) <==> FreeBlocks(l, dir, s, n) { FreeRunExact(l, dir, s, n); }
      forall m: nat ensures LeastBlocks(m, |data|) <==> m == n { LeastIsAllocated(m, |data|); }
      forall s: nat | s < l.dataStart ensures !FreeRun(l, dir, s, n) { BelowData(l, dir, s, n); }
    }
  }

  lemma BelowData(l: Layout, dir: seq<Entry>, s: nat, n: nat)
    requires s < l.dataStart
    ensures !FreeRun(l, dir, s, n)
  {
  }

  /**
   make_dir succeeds if and only if the name is plain and either a directory bears it, which is then the answer, or
   nothing does and an entry is unused, which then becomes the directory.
   */
  lemma MakeDirIff(l: Layout, dir: seq<Entry>, parent: u32, name: string)
    requires Seeded(l, dir)
    ensures var o := MakeDir(dir, parent, name);
            var there := exists i :: 0 <= i < |dir| && Bears(dir[i], parent, name) && dir[i].used == 2;
            && (o.HasDir? <==>
                  && PlainName(name)
                  && (there || (!NameTaken(dir, parent, name) && exists j :: 0 <= j < |dir| && dir[j].used == UNUSED)))
            && (o.HasDir? && there ==>
                  o.dir == dir && 1 <= o.id <= |dir| && Bears(dir[o.id - 1], parent, name) && dir[o.id - 1].used == 2)
            && (o.HasDir? && !there ==>
                  && o.id >= 1 && FirstSlot(dir, o.id - 1)
                  && o.dir == dir[o.id - 1 := Entry(2, name, 0, 0, parent, 0, Extent(0, 0), Extent(0, 0))])
  {
    hide GoodName, PlainName;
    NameExact(name);
    TakenExact(dir, parent, name);
    var i := FindName(dir, parent, name, 0);
    if i < |dir| {
      assert Bears(dir[i], parent, name);
      forall k | 0 <= k < |dir| && Bears(dir[k], parent, name) ensures k == i { }
    }
  }

  // ---- What every image the seeder builds looks like --------------------------------------------------------

  ghost predicate SeededEntry(l: Layout, dir: seq<Entry>, i: nat)
    requires i < |dir|
  {
    var e := dir[i];
    && |e.name| <= NAME_BYTES
    && (e.used != UNUSED ==>
         && (e.used == FILE || e.used == DIR)
         && LegalName(e.name)
         && e.meta == 0
         && (e.parent == 0 || (e.parent <= i && IsDir(dir, e.parent)))
         && (e.used == DIR ==> e.start == 0 && e.size == 0)
         && (e.used == FILE ==> e.size <= FILE_CAPACITY && InBounds(l, Extent(e.start, AllocatedBlocks(e.size)))))
  }

  ghost predicate UniqueNames(dir: seq<Entry>)
  {
    forall i, j :: 0 <= i < j < |dir| && dir[i].used != UNUSED && dir[j].used != UNUSED ==>
      dir[i].parent != dir[j].parent || dir[i].name != dir[j].name
  }

  /** Entries are filled from the front, parents before children. */
  ghost predicate Seeded(l: Layout, dir: seq<Entry>)
  {
    && LegalLayout(l) && |dir| < WORD - 1
    && (forall i :: 0 <= i < |dir| ==> SeededEntry(l, dir, i))
    && (forall i, j :: 0 <= i < j < |dir| && dir[j].used != UNUSED ==> dir[i].used != UNUSED)
    && UniqueNames(dir)
    && (forall i, j :: 0 <= i < j < |dir| ==> DisjointFiles(dir[i], dir[j]))
  }

  lemma FormatSeeded(l: Layout, n: nat)
    requires LegalLayout(l) && n < WORD - 1
    ensures Seeded(l, seq(n, _ => EmptyEntry()))
  {
  }

  /** A new entry in the first unused slot, under a fresh name. */
  lemma AddEntry(l: Layout, dir: seq<Entry>, j: nat, e: Entry)
    requires Seeded(l, dir) && j == FirstUnused(dir, 0) < |dir|
    requires e.used != UNUSED && (e.parent == 0 || IsDir(dir, e.parent))
    requires FindName(dir, e.parent, e.name, 0) == |dir|
    requires e.parent <= j ==> SeededEntry(l, dir[j := e], j)
    requires e.used == FILE ==> FreeRun(l, dir, e.start, AllocatedBlocks(e.size)) && e.meta == 0
    ensures Seeded(l, dir[j := e])
  {
    var dir' := dir[j := e];
    assert IsDir(dir, e.parent) ==> dir[e.parent - 1].used == DIR;
    assert e.parent <= j;
    forall i | 0 <= i < |dir'| ensures SeededEntry(l, dir', i) {
      if i != j { assert SeededEntry(l, dir, i); }
    }
    if e.used == FILE {
      forall i | 0 <= i < |dir| && i != j ensures DisjointFiles(dir[i], e) && DisjointFiles(e, dir[i]) {
        assert SeededEntry(l, dir, i);
      }
    }
  }

  lemma MakeDirSeeded(l: Layout, dir: seq<Entry>, parent: u32, name: string)
    requires Seeded(l, dir) && (parent == 0 || IsDir(dir, parent))
    ensures var o := MakeDir(dir, parent, name); o.HasDir? ==>
      && Seeded(l, o.dir) && IsDir(o.dir, o.id) && o.dir[o.id - 1].parent == parent && o.dir[o.id - 1].name == name
      && Grows(dir, o.dir)
  {
    if GoodName(name) && FindName(dir, parent, name, 0) == |dir| && FirstUnused(dir, 0) < |dir| {
      AddEntry(l, dir, FirstUnused(dir, 0), DirEntry(parent, name));
    }
  }

  lemma SaveFileSeeded(l: Layout, dir: seq<Entry>, disk: seq<Block>, parent: u32, name: string, data: seq<Byte>)
    requires Seeded(l, dir) && (parent == 0 || IsDir(dir, parent)) && |data| < WORD
    ensures var o := SaveFile(l, dir, disk, parent, name, data); o.HasFile? ==>
      && Seeded(l, o.dir) && o.index < |o.dir| && Grows(dir, o.dir) && dir[o.index].used == UNUSED
      && (var e := o.dir[o.index]; e.used == FILE && e.parent == parent && e.name == name && e.size == |data|)
  {
    var o := SaveFile(l, dir, disk, parent, name, data);
    if o.HasFile? {
      AddEntry(l, dir, o.index, o.dir[o.index]);
    }
  }

  /** Entries in use stay as they are. */
  ghost predicate Grows(dir: seq<Entry>, dir': seq<Entry>)
  {
    |dir'| == |dir| && forall i :: 0 <= i < |dir| && dir[i].used != UNUSED ==> dir'[i] == dir[i]
  }

  // ---- The checker accepts it ------------------------------------------------------------------------------------

  lemma {:induction false} SeededReachesRoot(l: Layout, dir: seq<Entry>, i: nat)
    requires Seeded(l, dir) && i < |dir| && dir[i].used != UNUSED
    ensures ReachesRoot(dir, i + 1)
    decreases i
  {
    assert SeededEntry(l, dir, i);
    if dir[i].parent != 0 { SeededReachesRoot(l, dir, dir[i].parent - 1); }
    ReachesThroughParent(dir, i);
  }

  /** Every directory the seeder can build is accepted by check_directory. */
  lemma SeededWellFormed(l: Layout, dir: seq<Entry>)
    requires Seeded(l, dir)
    ensures WellFormed(l, dir)
  {
    forall i | 0 <= i < |dir| ensures LegalEntry(l, dir, i) {
      assert SeededEntry(l, dir, i);
      if dir[i].used != UNUSED { SeededReachesRoot(l, dir, i); }
      if dir[i].used == FILE { SingleExtent(dir[i]); }
    }
  }

  lemma SingleExtent(e: Entry)
    requires e.meta == 0
    ensures ListedExtents(e) == [Extent(e.start, AllocatedBlocks(e.size))] && LegalExtents(e)
  {
    var xs := ListedExtents(e);
    assert TotalBlocks(xs) == xs[0].blocks + TotalBlocks(xs[1..]);
  }

  // ---- Reading back ------------------------------------------------------------------------------------------------

  predicate FileOnDisk(disk: seq<Block>, e: Entry)
  {
    e.used == FILE && e.meta == 0 && e.size <= FILE_CAPACITY && e.start + AllocatedBlocks(e.size) <= |disk|
  }

  /** The contents of a single-extent file, byte by byte. */
  lemma ContentsAt(disk: seq<Block>, e: Entry)
    requires FileOnDisk(disk, e)
    ensures LegalExtents(e) && OnDisk(disk, ListedExtents(e)) && |Contents(disk, e)| == e.size
    ensures forall k :: 0 <= k < e.size ==> k / BLOCK_SIZE < AllocatedBlocks(e.size)
    ensures forall k :: 0 <= k < e.size ==> Contents(disk, e)[k] == disk[e.start + k / BLOCK_SIZE][k % BLOCK_SIZE]
  {
    SingleExtent(e);
    var xs := ListedExtents(e);
    assert BlockList(xs) == Run(e.start, AllocatedBlocks(e.size)) + BlockList(xs[1..]);
    assert BlockList(xs) == Run(e.start, AllocatedBlocks(e.size));
    forall k | 0 <= k < e.size ensures k / BLOCK_SIZE < AllocatedBlocks(e.size)
    {
      assert k < AllocatedBlocks(e.size) * BLOCK_SIZE;
    }
    forall k | 0 <= k < e.size ensures Contents(disk, e)[k] == disk[e.start + k / BLOCK_SIZE][k % BLOCK_SIZE]
    {
      ByteAt(disk, BlockList(xs), k);
    }
  }

  /** What was written is what is read. */
  lemma ReadsWhatWasWritten(disk: seq<Block>, e: Entry, data: seq<Byte>)
    requires FileOnDisk(disk, e) && e.size == |data|
    ensures var disk' := Written(disk, e.start, AllocatedBlocks(e.size), data);
      LegalExtents(e) && OnDisk(disk', ListedExtents(e)) && Contents(disk', e) == data
  {
    var disk' := Written(disk, e.start, AllocatedBlocks(e.size), data);
    ContentsAt(disk', e);
    forall k | 0 <= k < |data| ensures Contents(disk', e)[k] == data[k] {
      var b := k / BLOCK_SIZE;
      assert disk'[e.start + b] == DataBlock(data, b);
      assert b * BLOCK_SIZE + k % BLOCK_SIZE == k;
    }
  }

  /** Writing blocks that the file does not own leaves its contents alone. */
  lemma OthersUndisturbed(disk: seq<Block>, e: Entry, start: nat, n: nat, data: seq<Byte>)
    requires FileOnDisk(disk, e)
    requires start + n <= e.start || e.start + AllocatedBlocks(e.size) <= start
    ensures var disk' := Written(disk, start, n, data);
      LegalExtents(e) && OnDisk(disk', ListedExtents(e)) && Contents(disk', e) == Contents(disk, e)
  {
    var disk' := Written(disk, start, n, data);
    ContentsAt(disk, e);
    ContentsAt(disk', e);
  }

  // ---- Paths -------------------------------------------------------------------------------------------------------

  /** The ids on the way from the root to `id`. */
  function PathIds(l: Layout, dir: seq<Entry>, id: nat): (r: seq<nat>)
    requires Seeded(l, dir) && id <= |dir| && (id != 0 ==> dir[id - 1].used != UNUSED)
    ensures id != 0 ==> |r| > 0 && r[|r| - 1] == id
    decreases id
  {
    if id == 0 then [] else
    assert SeededEntry(l, dir, id - 1);
    PathIds(l, dir, dir[id - 1].parent) + [id]
  }

  function NameOf(dir: seq<Entry>, id: nat): string
    requires 1 <= id <= |dir|
  {
    dir[id - 1].name
  }

  /** The names of a list of entries. */
  function Names(dir: seq<Entry>, ids: seq<nat>): (r: seq<string>)
    requires forall i :: 0 <= i < |ids| ==> 1 <= ids[i] <= |dir|
    ensures |r| == |ids| && forall k :: 0 <= k < |ids| ==> r[k] == NameOf(dir, ids[k])
  {
    seq(|ids|, k requires 0 <= k < |ids| => NameOf(dir, ids[k]))
  }

  /** The components from position k on, separated by slashes. */
  function Join(names: seq<string>, k: nat): string
    requires k < |names|
    decreases |names| - k
  {
    if k == |names| - 1 then names[k] else names[k] + "/" + Join(names, k + 1)
  }

  /** Each id hangs below the one before it, and all but the last are directories. */
  ghost predicate IsPath(dir: seq<Entry>, ids: seq<nat>)
  {
    && (forall k :: 0 <= k < |ids| ==> 1 <= ids[k] <= |dir| && dir[ids[k] - 1].used != UNUSED)
    && (forall k {:trigger ParentOf(ids, 0, k)} :: 0 <= k < |ids| ==> dir[ids[k] - 1].parent == ParentOf(ids, 0, k))
    && (forall k :: 0 <= k < |ids| - 1 ==> dir[ids[k] - 1].used == DIR)
  }

  lemma {:induction false} PathIdsIsPath(l: Layout, dir: seq<Entry>, id: nat)
    requires Seeded(l, dir) && id <= |dir| && (id != 0 ==> dir[id - 1].used != UNUSED)
    ensures IsPath(dir, PathIds(l, dir, id))
    decreases id
  {
    if id != 0 {
      assert SeededEntry(l, dir, id - 1);
      PathIdsIsPath(l, dir, dir[id - 1].parent);
      LongerPath(dir, PathIds(l, dir, dir[id - 1].parent), id);
    }
  }

  lemma LongerPath(dir: seq<Entry>, ids: seq<nat>, id: nat)
    requires IsPath(dir, ids) && 1 <= id <= |dir| && dir[id - 1].used != UNUSED
    requires dir[id - 1].parent == if ids == [] then 0 else ids[|ids| - 1]
    requires ids != [] ==> dir[ids[|ids| - 1] - 1].used == DIR
    ensures IsPath(dir, ids + [id])
  {
    var all := ids + [id];
    forall k | 0 <= k < |all|
      ensures 1 <= all[k] <= |dir| && dir[all[k] - 1].used != UNUSED
      ensures dir[all[k] - 1].parent == ParentOf(all, 0, k)
      ensures k < |all| - 1 ==> dir[all[k] - 1].used == DIR {
      assert ParentOf(all, 0, k) == ParentOf(ids, 0, k);
    }
  }

  /** The full path of an entry. */
  function PathTo(l: Layout, dir: seq<Entry>, id: nat): string
    requires Seeded(l, dir) && 1 <= id <= |dir| && dir[id - 1].used != UNUSED
  {
    PathIdsIsPath(l, dir, id);
    Join(Names(dir, PathIds(l, dir, id)), 0)
  }

  /** Under unique names a lookup finds the entry itself. */
  lemma FindsItself(l: Layout, dir: seq<Entry>, i: nat)
    requires Seeded(l, dir) && i < |dir| && dir[i].used != UNUSED
    ensures FindEntry(dir, dir[i].parent, dir[i].name, dir[i].used, 0) == i
    ensures forall u :: u != dir[i].used && u != UNUSED ==> FindEntry(dir, dir[i].parent, dir[i].name, u, 0) == |dir|
  {
  }

  /** A component followed by a slash or by the end is cut off exactly. */
  lemma {:induction false} CutsComponent(path: string, pos: nat, end: nat)
    requires pos <= end <= |path| && (end < |path| ==> IsSeparator(path[end]))
    requires forall k :: pos <= k < end ==> !IsSeparator(path[k])
    ensures ComponentEnd(path, pos) == end
    decreases end - pos
  {
    if pos < end { CutsComponent(path, pos + 1, end); }
  }

  /** Looking up component k finds entry ids[k]: as a directory, or, at the end of the path, as a file. */
  ghost predicate LooksUp(dir: seq<Entry>, ids: seq<nat>, names: seq<string>, k: nat)
    requires |ids| == |names| && k < |ids|
  {
    var p := ParentOf(ids, 0, k);
    && ids[k] >= 1
    && (|| FindEntry(dir, p, names[k], DIR, 0) == ids[k] - 1 < |dir|
        || (k == |ids| - 1 && FindEntry(dir, p, names[k], DIR, 0) == |dir|
            && FindEntry(dir, p, names[k], FILE, 0) == ids[k] - 1 < |dir|))
  }

  /** A name that can stand in a path: not empty, no separator, not too long. */
  predicate Component(name: string)
  {
    0 < |name| < COMPONENT_SIZE && forall k :: 0 <= k < |name| ==> !IsSeparator(name[k])
  }

  ghost predicate LooksUpFrom(dir: seq<Entry>, ids: seq<nat>, names: seq<string>, k: nat)
    requires |ids| == |names| && k < |ids|
    decreases |ids| - k
  {
    LooksUp(dir, ids, names, k) && Component(names[k]) && (k < |ids| - 1 ==> LooksUpFrom(dir, ids, names, k + 1))
  }

  lemma {:induction false} AllLookUp(l: Layout, dir: seq<Entry>, ids: seq<nat>, names: seq<string>, k: nat)
    requires Seeded(l, dir) && IsPath(dir, ids) && names == Names(dir, ids) && k < |ids|
    ensures LooksUpFrom(dir, ids, names, k)
    decreases |ids| - k
  {
    if k < |ids| - 1 { AllLookUp(l, dir, ids, names, k + 1); }
    LooksUpAt(l, dir, ids, k);
  }

  lemma LooksUpAt(l: Layout, dir: seq<Entry>, ids: seq<nat>, k: nat)
    requires Seeded(l, dir) && IsPath(dir, ids) && k < |ids|
    ensures LooksUp(dir, ids, Names(dir, ids), k) && Component(Names(dir, ids)[k])
  {
    assert SeededEntry(l, dir, ids[k] - 1);
    FindsItself(l, dir, ids[k] - 1);
    hide Seeded, FindEntry, UniqueNames;
    LegalComponent(dir[ids[k] - 1].name);
  }

  lemma LegalComponent(name: string)
    requires LegalName(name)
    ensures Component(name)
  {
  }

  /** Component k starts at pos, ends after its name and is followed by component k + 1 or by nothing. */
  lemma CutAt(names: seq<string>, path: string, pos: nat, k: nat)
    requires k < |names| && Component(names[k]) && (k < |names| - 1 ==> Component(names[k + 1]))
    requires pos <= |path| && path[pos..] == Join(names, k)
    ensures var end := pos + |names[k]|;
      && end <= |path| && path[pos..end] == names[k]
      && SkipSeparators(path, pos) == pos && ComponentEnd(path, pos) == end
      && (if k == |names| - 1 then SkipSeparators(path, end) == |path|
          else end + 1 < |path| && SkipSeparators(path, end) == end + 1 && path[end + 1..] == Join(names, k + 1))
  {
    var name := names[k];
    var end := pos + |name|;
    assert path[pos..][..|name|] == name;
    forall j | pos <= j < end ensures !IsSeparator(path[j]) {
      assert path[j] == path[pos..][j - pos] == name[j - pos];
    }
    if k < |names| - 1 {
      assert path[pos..][|name|] == '/';
      assert path[pos..][|name| + 1..] == path[end + 1..] == Join(names, k + 1);
      assert path[end + 1] == Join(names, k + 1)[0] == names[k + 1][0];
    }
    CutsComponent(path, pos, end);
  }

  /** The component at `pos` is `name`. */
  predicate CutTo(path: string, pos: nat, name: string)
  {
    var end := pos + |name|;
    && pos < end <= |path| && |name| < COMPONENT_SIZE && path[pos..end] == name
    && SkipSeparators(path, pos) == pos && ComponentEnd(path, pos) == end
  }

  /** From `pos` on, the path spells the components from k on. */
  ghost predicate Spells(names: seq<string>, path: string, pos: nat, k: nat)
    requires k < |names|
    decreases |names| - k
  {
    var end := pos + |names[k]|;
    && CutTo(path, pos, names[k])
    && (if k == |names| - 1 then SkipSeparators(path, end) == |path|
        else end + 1 < |path| && SkipSeparators(path, end) == end + 1 && Spells(names, path, end + 1, k + 1))
  }

  lemma {:induction false} JoinSpells(names: seq<string>, path: string, pos: nat, k: nat)
    requires k < |names| && forall i :: 0 <= i < |names| ==> Component(names[i])
    requires pos <= |path| && path[pos..] == Join(names, k)
    ensures Spells(names, path, pos, k)
    decreases |names| - k
  {
    CutAt(names, path, pos, k);
    if k < |names| - 1 { JoinSpells(names, path, pos + |names[k]| + 1, k + 1); }
  }

  /** One component that names a directory, with more to come. */
  lemma StepsInto(dir: seq<Entry>, path: string, pos: nat, parent: nat, name: string, d: nat)
    requires CutTo(path, pos, name) && pos + |name| + 1 < |path|
      && SkipSeparators(path, pos + |name|) == pos + |name| + 1
    requires FindEntry(dir, parent, name, DIR, 0) == d < |dir|
    ensures Resolve(dir, path, pos, parent) == Resolve(dir, path, pos + |name| + 1, d + 1)
  {
    hide SkipSeparators, ComponentEnd, FindEntry;
  }

  /** The last component. */
  lemma EndsAt(dir: seq<Entry>, path: string, pos: nat, parent: nat, name: string)
    requires CutTo(path, pos, name) && SkipSeparators(path, pos + |name|) == |path|
    ensures var (d, f) := (FindEntry(dir, parent, name, DIR, 0), FindEntry(dir, parent, name, FILE, 0));
      && (d < |dir| ==> Resolve(dir, path, pos, parent) == Found(d))
      && (d == |dir| && f < |dir| ==> Resolve(dir, path, pos, parent) == Found(f))
  {
    hide SkipSeparators, ComponentEnd, FindEntry;
  }

  /** Resolving the rest of a path from where it starts. */
  lemma {:induction false} ResolvesFrom(dir: seq<Entry>, ids: seq<nat>, names: seq<string>, path: string, pos: nat,
                                        k: nat)
    requires |ids| == |names| && k < |ids| && Spells(names, path, pos, k) && LooksUpFrom(dir, ids, names, k)
    ensures ids[|ids| - 1] >= 1
    ensures Resolve(dir, path, pos, ParentOf(ids, 0, k)) == Found(ids[|ids| - 1] - 1)
    decreases |ids| - k
  {
    hide Resolve, SkipSeparators, ComponentEnd, FindEntry, CutTo;
    if k < |ids| - 1 {
      ResolvesFrom(dir, ids, names, path, pos + |names[k]| + 1, k + 1);
      StepsInto(dir, path, pos, ParentOf(ids, 0, k), names[k], ids[k] - 1);
    } else {
      EndsAt(dir, path, pos, ParentOf(ids, 0, k), names[k]);
    }
  }

  /** The full path of every entry resolves to that entry. */
  lemma PathResolves(l: Layout, dir: seq<Entry>, id: nat)
    requires Seeded(l, dir) && 1 <= id <= |dir| && dir[id - 1].used != UNUSED
    ensures Resolve(dir, PathTo(l, dir, id), 0, 0) == Found(id - 1)
  {
    PathIdsIsPath(l, dir, id);
    var (path, ids) := (PathTo(l, dir, id), PathIds(l, dir, id));
    AllLookUp(l, dir, ids, Names(dir, ids), 0);
    forall k | 0 <= k < |ids| ensures Component(Names(dir, ids)[k]) { LooksUpAt(l, dir, ids, k); }
    ResolvesWhole(dir, ids, Names(dir, ids), path);
  }

  lemma ResolvesWhole(dir: seq<Entry>, ids: seq<nat>, names: seq<string>, path: string)
    requires |ids| == |names| > 0 && path == Join(names, 0) && LooksUpFrom(dir, ids, names, 0)
    requires forall k :: 0 <= k < |names| ==> Component(names[k])
    ensures ids[|ids| - 1] >= 1 && Resolve(dir, path, 0, 0) == Found(ids[|ids| - 1] - 1)
  {
    assert path[0..] == path;
    JoinSpells(names, path, 0, 0);
    ResolvesFrom(dir, ids, names, path, 0, 0);
  }

  /** Adding entries changes no path. */
  lemma {:induction false} PathKept(l: Layout, dir: seq<Entry>, dir': seq<Entry>, id: nat)
    requires Seeded(l, dir) && Seeded(l, dir') && Grows(dir, dir') && id <= |dir|
      && (id != 0 ==> dir[id - 1].used != UNUSED)
    ensures PathIds(l, dir', id) == PathIds(l, dir, id)
    decreases id
  {
    if id != 0 {
      assert SeededEntry(l, dir, id - 1);
      PathKept(l, dir, dir', dir[id - 1].parent);
    }
  }

  lemma PathToKept(l: Layout, dir: seq<Entry>, dir': seq<Entry>, id: nat)
    requires Seeded(l, dir) && Seeded(l, dir') && Grows(dir, dir') && 1 <= id <= |dir| && dir[id - 1].used != UNUSED
    ensures PathTo(l, dir', id) == PathTo(l, dir, id)
  {
    assert |dir'| == |dir| && dir'[id - 1] == dir[id - 1];
    hide Seeded, Grows, Names, NameOf, Join;
    PathKept(l, dir, dir', id);
    PathIdsIsPath(l, dir, id);
    PathIdsIsPath(l, dir', id);
    NamesKept(dir, dir', PathIds(l, dir, id));
  }

  lemma NamesKept(dir: seq<Entry>, dir': seq<Entry>, ids: seq<nat>)
    requires IsPath(dir, ids) && IsPath(dir', ids) && Grows(dir, dir')
    ensures Names(dir', ids) == Names(dir, ids)
  {
  }

  // ---- Whole seeding runs -----------------------------------------------------------------------------------------

  datatype Fs = Fs(dir: seq<Entry>, disk: seq<Block>)

  datatype Op = Mkdir(parent: u32, name: string) | Save(parent: u32, name: string, data: seq<Byte>)

  /** The caller names the root or a directory it has made, and passes a 32-bit size. */
  predicate Callable(fs: Fs, op: Op)
  {
    && (op.parent == 0 || IsDir(fs.dir, op.parent))
    && (op.Save? ==> |op.data| < WORD)
  }

  /** A failing call changes nothing. */
  function Apply(l: Layout, fs: Fs, op: Op): Fs
    requires Callable(fs, op)
  {
    match op
    case Mkdir(parent, name) =>
      var o := MakeDir(fs.dir, parent, name);
      if o.HasDir? then fs.(dir := o.dir) else fs
    case Save(parent, name, data) =>
      var o := SaveFile(l, fs.dir, fs.disk, parent, name, data);
      if o.HasFile? then Fs(o.dir, o.disk) else fs
  }

  /** `states` is what `ops` make of a freshly formatted partition. */
  ghost predicate SeedRun(l: Layout, states: seq<Fs>, ops: seq<Op>)
  {
    && |states| == |ops| + 1
    && LegalLayout(l) && |states[0].dir| < WORD - 1
    && states[0].dir == seq(|states[0].dir|, _ => EmptyEntry())
    && |states[0].disk| == l.partitionBlocks
    && forall k :: 0 <= k < |ops| ==> AppliedAt(l, states, ops, k)
  }

  ghost predicate AppliedAt(l: Layout, states: seq<Fs>, ops: seq<Op>, k: nat)
    requires k < |ops| < |states|
  {
    Callable(states[k], ops[k]) && states[k + 1] == Apply(l, states[k], ops[k])
  }

  ghost predicate FsOk(l: Layout, fs: Fs)
  {
    Seeded(l, fs.dir) && |fs.disk| == l.partitionBlocks
  }

  /** Every file is on the disk. */
  lemma SeededOnDisk(l: Layout, fs: Fs, i: nat)
    requires FsOk(l, fs) && i < |fs.dir| && fs.dir[i].used == FILE
    ensures FileOnDisk(fs.disk, fs.dir[i]) && LegalExtents(fs.dir[i]) && OnDisk(fs.disk, ListedExtents(fs.dir[i]))
  {
    assert SeededEntry(l, fs.dir, i);
    ContentsAt(fs.disk, fs.dir[i]);
  }

  /** Files stay where they are and keep their bytes. */
  ghost predicate Keeps(l: Layout, fs: Fs, fs': Fs)
    requires FsOk(l, fs) && FsOk(l, fs')
  {
    && Grows(fs.dir, fs'.dir)
    && forall i :: 0 <= i < |fs.dir| && fs.dir[i].used == FILE ==> SameContents(l, fs, fs', i)
  }

  ghost predicate SameContents(l: Layout, fs: Fs, fs': Fs, i: nat)
    requires FsOk(l, fs) && FsOk(l, fs') && i < |fs.dir| && fs.dir[i].used == FILE && Grows(fs.dir, fs'.dir)
  {
    SeededOnDisk(l, fs, i);
    SeededOnDisk(l, fs', i);
    Contents(fs'.disk, fs'.dir[i]) == Contents(fs.disk, fs.dir[i])
  }

  lemma SaveKeeps(l: Layout, fs: Fs, parent: u32, name: string, data: seq<Byte>)
    requires FsOk(l, fs) && Callable(fs, Save(parent, name, data))
      && SaveFile(l, fs.dir, fs.disk, parent, name, data).HasFile?
    ensures var o := SaveFile(l, fs.dir, fs.disk, parent, name, data);
      && FsOk(l, Fs(o.dir, o.disk)) && Keeps(l, fs, Fs(o.dir, o.disk))
      && o.index < |o.dir| && o.dir[o.index].used == FILE && FileOnDisk(o.disk, o.dir[o.index])
      && LegalExtents(o.dir[o.index]) && OnDisk(o.disk, ListedExtents(o.dir[o.index]))
      && Contents(o.disk, o.dir[o.index]) == data
  {
    var o := SaveFile(l, fs.dir, fs.disk, parent, name, data);
    var e := o.dir[o.index];
    SaveFileSeeded(l, fs.dir, fs.disk, parent, name, data);
    forall i | 0 <= i < |fs.dir| && fs.dir[i].used == FILE ensures SameContents(l, fs, Fs(o.dir, o.disk), i) {
      SeededOnDisk(l, fs, i);
      OthersUndisturbed(fs.disk, fs.dir[i], e.start, AllocatedBlocks(e.size), data);
    }
    ReadsWhatWasWritten(fs.disk, e, data);
  }

  lemma ApplyKeeps(l: Layout, fs: Fs, op: Op)
    requires FsOk(l, fs) && Callable(fs, op)
    ensures FsOk(l, Apply(l, fs, op)) && Keeps(l, fs, Apply(l, fs, op))
  {
    match op
    case Mkdir(parent, name) => MakeDirSeeded(l, fs.dir, parent, name);
    case Save(parent, name, data) =>
      if SaveFile(l, fs.dir, fs.disk, parent, name, data).HasFile? { SaveKeeps(l, fs, parent, name, data); }
  }

  /** Every state of every run is seeded, so the checker accepts it, and keeps what earlier states hold. */
  lemma {:induction false} RunOk(l: Layout, states: seq<Fs>, ops: seq<Op>, k: nat)
    requires SeedRun(l, states, ops) && k <= |ops|
    ensures FsOk(l, states[k]) && WellFormed(l, states[k].dir) && UniqueNames(states[k].dir)
  {
    if k == 0 {
      FormatSeeded(l, |states[0].dir|);
    } else {
      RunOk(l, states, ops, k - 1);
      assert AppliedAt(l, states, ops, k - 1);
      ApplyKeeps(l, states[k - 1], ops[k - 1]);
    }
    SeededWellFormed(l, states[k].dir);
  }

  lemma {:induction false} RunKeeps(l: Layout, states: seq<Fs>, ops: seq<Op>, k: nat, m: nat)
    requires SeedRun(l, states, ops) && k <= m <= |ops|
    ensures FsOk(l, states[k]) && FsOk(l, states[m]) && Keeps(l, states[k], states[m])
  {
    RunOk(l, states, ops, k);
    RunOk(l, states, ops, m);
    if k < m {
      RunKeeps(l, states, ops, k, m - 1);
      assert AppliedAt(l, states, ops, m - 1);
      ApplyKeeps(l, states[m - 1], ops[m - 1]);
      KeepsOn(l, states[k], states[m - 1], states[m]);
    }
  }

  lemma KeepsOn(l: Layout, a: Fs, b: Fs, c: Fs)
    requires FsOk(l, a) && FsOk(l, b) && FsOk(l, c) && Keeps(l, a, b) && Keeps(l, b, c)
    ensures Keeps(l, a, c)
  {
    forall i | 0 <= i < |a.dir| && a.dir[i].used == FILE ensures SameContents(l, a, c, i) {
      assert SameContents(l, a, b, i) && SameContents(l, b, c, i);
    }
  }

  /** The round trip across the two tools: a file saved at step k is found under its path and reads back
      exactly as saved, in the state right after and in every later one. */
  lemma RoundTrip(l: Layout, states: seq<Fs>, ops: seq<Op>, k: nat, m: nat)
    requires SeedRun(l, states, ops) && k < m <= |ops| && ops[k].Save? && |ops[k].data| < WORD
    requires SaveFile(l, states[k].dir, states[k].disk, ops[k].parent, ops[k].name, ops[k].data).HasFile?
    ensures var i := SaveFile(l, states[k].dir, states[k].disk, ops[k].parent, ops[k].name, ops[k].data).index;
      && i < |states[m].dir| == |states[k + 1].dir| && FsOk(l, states[k + 1]) && FsOk(l, states[m])
      && states[k + 1].dir[i].used == FILE == states[m].dir[i].used
      && (var path := PathTo(l, states[k + 1].dir, i + 1);
          && Resolve(states[m].dir, path, 0, 0) == Found(i)
          && LegalExtents(states[m].dir[i]) && OnDisk(states[m].disk, ListedExtents(states[m].dir[i]))
          && Contents(states[m].disk, states[m].dir[i]) == ops[k].data)
  {
    var o := SaveFile(l, states[k].dir, states[k].disk, ops[k].parent, ops[k].name, ops[k].data);
    RunOk(l, states, ops, k);
    assert AppliedAt(l, states, ops, k);
    SaveKeeps(l, states[k], ops[k].parent, ops[k].name, ops[k].data);
    RunKeeps(l, states, ops, k + 1, m);
    assert SameContents(l, states[k + 1], states[m], o.index);
    SeededOnDisk(l, states[m], o.index);
    PathToKept(l, states[k + 1].dir, states[m].dir, o.index + 1);
    PathResolves(l, states[m].dir, o.index + 1);
  }

  // ---- The tool's own loops ---------------------------------------------------------------------------------------

  class Seeder {
    const layout: Layout
    const dir: array<Entry>
    const disk: array<Block>

    ghost predicate Valid()
      reads this, dir, disk
    {
      FsOk(layout, Fs(dir[..], disk[..]))
    }

    /** format_lainfs clears the directory of a partition with room for data. */
    constructor (layout: Layout, entries: nat)
      requires LegalLayout(layout) && entries < WORD - 1
      ensures Valid() && fresh(dir) && fresh(disk) && this.layout == layout
      ensures dir[..] == seq(entries, _ => EmptyEntry())
    {
      this.layout := layout;
      dir := new Entry[entries](_ => EmptyEntry());
      disk := new Block[layout.partitionBlocks](_ => seq(BLOCK_SIZE, _ => 0));
      new;
      assert dir[..] == seq(entries, _ => EmptyEntry());
      FormatSeeded(layout, entries);
    }

    method FindEntryInDir(parent: u32, name: string) returns (r: nat)
      ensures r == FindName(dir[..], parent, name, 0)
    {
      r := 0;
      while r < dir.Length
        invariant 0 <= r <= dir.Length && FindName(dir[..], parent, name, 0) == FindName(dir[..], parent, name, r)
      {
        if dir[r].used != UNUSED && dir[r].parent == parent && dir[r].name == name { return; }
        r := r + 1;
      }
    }

    method FindFreeEntry() returns (r: nat)
      ensures r == FirstUnused(dir[..], 0)
    {
      r := 0;
      while r < dir.Length
        invariant 0 <= r <= dir.Length && FirstUnused(dir[..], 0) == FirstUnused(dir[..], r)
      {
        if dir[r].used == UNUSED { return; }
        r := r + 1;
      }
    }

    /** extent_is_free, for a run inside the partition; the 32-bit overlap test is exact there. */
    method ExtentIsFree(start: u32, blocks: u32) returns (free: bool)
      requires Valid() && blocks > 0 && start + blocks <= layout.partitionBlocks
      ensures free <==> FreeRun(layout, dir[..], start, blocks)
    {
      if start < layout.dataStart { return false; }
      var i := 0;
      while i < dir.Length
        invariant 0 <= i <= dir.Length
        invariant forall k :: 0 <= k < i && dir[k].used == FILE ==>
          dir[k].start + AllocatedBlocks(dir[k].size) <= start || start + blocks <= dir[k].start
      {
        if dir[i].used == FILE {
          var own := Extent(dir[i].start, AllocatedBlocks(dir[i].size));
          assert SeededEntry(layout, dir[..], i);
          OverlapExact(layout, Extent(start, blocks), own);
          if RangesOverlap(Extent(start, blocks), own) {
            assert dir[..][i].used == FILE;
            return false;
          }
        }
        i := i + 1;
      }
      return true;
    }

    /** find_free_extent: the lowest start of a free run of that length; it fails only when there is none. */
    method FindFreeExtent(blocks: u32) returns (start: int)
      requires Valid() && 0 < blocks <= MAX_FILE_BLOCKS
      ensures start == LowestFree(layout, dir[..], blocks, layout.dataStart)
    {
      start := layout.dataStart;
      while start + blocks <= layout.partitionBlocks
        invariant layout.dataStart <= start
        invariant LowestFree(layout, dir[..], blocks, layout.dataStart) == LowestFree(layout, dir[..], blocks, start)
        decreases layout.partitionBlocks - start
      {
        var free := ExtentIsFree(start, blocks);
        if free { return; }
        start := start + 1;
      }
      start := -1;
    }

    method MakeDirectory(parent: u32, name: string) returns (ok: bool, id: nat)
      requires Valid() && (parent == 0 || IsDir(dir[..], parent))
      modifies dir
      ensures Valid() && (ok <==> MakeDir(old(dir[..]), parent, name).HasDir?)
      ensures ok ==> HasDir(dir[..], id) == MakeDir(old(dir[..]), parent, name)
      ensures !ok ==> dir[..] == old(dir[..])
    {
      ghost var was := dir[..];
      MakeDirSeeded(layout, was, parent, name);
      if !(0 < |name| <= MAX_NAME && forall k :: 0 <= k < |name| ==> LegalChar(name[k])) { return false, 0; }
      var i := FindEntryInDir(parent, name);
      if i < dir.Length { return dir[i].used == DIR, i + 1; }
      var j := FindFreeEntry();
      if j == dir.Length { return false, 0; }
      dir[j] := Entry(DIR, name, 0, 0, parent, 0, NO_EXTENT, NO_EXTENT);
      return true, j + 1;
    }

    /** The block-writing loop of save_file. */
    method WriteData(start: nat, n: nat, data: seq<Byte>)
      requires start + n <= disk.Length
      modifies disk
      ensures disk[..] == Written(old(disk[..]), start, n, data)
    {
      ghost var was := disk[..];
      var b := 0;
      while b < n
        invariant 0 <= b <= n && forall i :: 0 <= i < disk.Length ==> disk[i] == BlockAfter(was, start, b, data, i)
      {
        var base := b * BLOCK_SIZE;
        var left := if |data| > base then |data| - base else 0;
        var chunk := if left < BLOCK_SIZE then left else BLOCK_SIZE;
        var sector := seq(BLOCK_SIZE, k requires 0 <= k < BLOCK_SIZE => if k < chunk then data[base + k] else 0);
        assert sector == DataBlock(data, b);
        disk[start + b] := sector;
        b := b + 1;
      }
    }

    method SaveFileAt(parent: u32, name: string, data: seq<Byte>) returns (ok: bool)
      requires Valid() && (parent == 0 || IsDir(dir[..], parent)) && |data| < WORD
      modifies dir, disk
      ensures Valid() && (ok <==> SaveFile(layout, old(dir[..]), old(disk[..]), parent, name, data).HasFile?)
      ensures ok ==>
        var o := SaveFile(layout, old(dir[..]), old(disk[..]), parent, name,
            data); dir[..] == o.dir && disk[..] == o.disk
      ensures !ok ==> dir[..] == old(dir[..]) && disk[..] == old(disk[..])
    {
      ghost var (d0, k0) := (dir[..], disk[..]);
      SaveFileSeeded(layout, d0, k0, parent, name, data);
      if !(0 < |name| <= MAX_NAME && forall k :: 0 <= k < |name| ==> LegalChar(name[k])) || |data| > FILE_CAPACITY {
        return false;
      }
      var i := FindEntryInDir(parent, name);
      if i < dir.Length { return false; }
      var j := FindFreeEntry();
      if j == dir.Length { return false; }
      var n := AllocatedBlocks(|data|);
      var start := FindFreeExtent(n);
      if start < 0 { return false; }
      dir[j] := Entry(FILE, name, start, |data|, parent, 0, NO_EXTENT, NO_EXTENT);
      WriteData(start, n, data);
      return true;
    }
  }
}
