/**
 The on-disk format of LainFS as tools/lainfs_check_host.c and tools/lainfs_seed.c read and
 write it, and what a well-formed directory is. The directory has a symbolic number of entries.
 */
module LainfsFormat {

  const WORD: int := 0x1_0000_0000
  type u32 = x: int | 0 <= x < WORD

  const BLOCK_SIZE: int := 512
  const FILE_CAPACITY: int := 4 * 1024 * 1024
  const MAX_FILE_BLOCKS: int := FILE_CAPACITY / BLOCK_SIZE
  const EXTENT_UNIT: int := 0x100_0000      // 1 << LAINFS_EXTENT_COUNT_SHIFT

  const NAME_BYTES: int := 31

  const UNUSED: int := 0
  const FILE: int := 1
  const DIR: int := 2

  datatype Extent = Extent(start: u32, blocks: u32)

  /** A directory entry. `parent`, `meta`, `extra0` and `extra1` are the four fields the tools keep in
      `reserved`. `name` is the C string in the 31-byte name field: the bytes before its first NUL, or all 31
      when it holds none; no tool reads the bytes after the NUL. */
  datatype Entry = Entry(used: nat, name: string, start: u32, size: u32, parent: u32, meta: u32, extra0: Extent,
                         extra1: Extent)

  /** The fields of the superblock that the directory check reads, and the size of the partition. */
  datatype Layout = Layout(dirStart: u32, dirBlocks: u32, dataStart: u32, partitionBlocks: u32)

  // ---- Names -------------------------------------------------------------------------------------

  predicate LegalChar(c: char)
  {
    c != '/' && c != '\\' && c != ':' && c != ' ' && c != '\t'
  }

  /** One to thirty legal characters; thirty-one would mean that the field holds no NUL. */
  predicate LegalName(name: string)
  {
    0 < |name| < NAME_BYTES && forall k :: 0 <= k < |name| ==> LegalChar(name[k])
  }

  // ---- The tree -----------------------------------------------------------------------------------

  predicate IsDir(dir: seq<Entry>, id: int)
  {
    1 <= id <= |dir| && dir[id - 1].used == DIR
  }

  /** The id reached from `id` by k steps towards the root; the root is 0 and is its own parent. */
  function Up(dir: seq<Entry>, id: nat, k: nat): nat
  {
    if k == 0 then id else
    var below := Up(dir, id, k - 1);
    if 1 <= below <= |dir| then dir[below - 1].parent else 0
  }

  /** The parent chain of `id` arrives at the root, through directories only. */
  ghost predicate ReachesRoot(dir: seq<Entry>, id: nat)
  {
    exists k: nat :: ReachesRootIn(dir, id, k)
  }

  ghost predicate ReachesRootIn(dir: seq<Entry>, id: nat, k: nat)
  {
    Up(dir, id, k) == 0 && forall j :: 0 < j < k ==> IsDir(dir, Up(dir, id, j))
  }

  // ---- Extents --------------------------------------------------------------------------------------

  /** blocks_for_size on 32-bit words. */
  function BlocksForSize(size: u32): (r: u32)
    ensures size <= FILE_CAPACITY ==> r <= MAX_FILE_BLOCKS
    ensures size <= WORD - BLOCK_SIZE ==> size <= r * BLOCK_SIZE < size + BLOCK_SIZE
    ensures size > WORD - BLOCK_SIZE ==> r == 0
  {
    ((size + BLOCK_SIZE - 1) % WORD) / BLOCK_SIZE
  }

  /** So many blocks hold the bytes and one less do not; there is always one. */
  predicate LeastBlocks(n: nat, size: nat)
  {
    n >= 1 && size <= n * BLOCK_SIZE && (n == 1 || (n - 1) * BLOCK_SIZE < size)
  }

  /** An empty file still owns one block. */
  function AllocatedBlocks(size: u32): (r: u32)
    ensures r >= 1
    ensures size <= WORD - BLOCK_SIZE ==> LeastBlocks(r, size)
    ensures size <= FILE_CAPACITY ==> r <= MAX_FILE_BLOCKS
  {
    if BlocksForSize(size) == 0 then 1 else BlocksForSize(size)
  }

  /** The extents an entry lists, before they are checked: one for a legacy entry, else the first `meta >> 24`. */
  function ListedExtents(e: Entry): (xs: seq<Extent>)
    ensures |xs| <= 3
  {
    if e.meta == 0 then [Extent(e.start, AllocatedBlocks(e.size))] else
    var count := e.meta / EXTENT_UNIT;
    if 1 <= count <= 3 then [Extent(e.start, e.meta % EXTENT_UNIT), e.extra0, e.extra1][..count] else []
  }

  function TotalBlocks(xs: seq<Extent>): nat
  {
    if xs == [] then 0 else xs[0].blocks + TotalBlocks(xs[1..])
  }

  /** The listed extents are non-empty and together exactly as long as the file needs. */
  predicate LegalExtents(e: Entry)
  {
    var xs := ListedExtents(e);
    && 1 <= |xs|
    && (forall k :: 0 <= k < |xs| ==> xs[k].blocks > 0)
    && TotalBlocks(xs) == AllocatedBlocks(e.size)
  }

  predicate InBounds(l: Layout, x: Extent)
  {
    x.start >= l.dataStart && x.start + x.blocks <= l.partitionBlocks
  }

  /** No block belongs to both; arithmetic without wrap-around. */
  predicate Disjoint(x: Extent, y: Extent)
  {
    x.start + x.blocks <= y.start || y.start + y.blocks <= x.start
  }

  // ---- Well-formed directories ------------------------------------------------------------------------

  predicate LegalLayout(l: Layout)
  {
    && 0 < l.dirStart && 0 < l.dirBlocks
    && l.dirStart + l.dirBlocks <= l.dataStart
    && l.dataStart < l.partitionBlocks
  }

  predicate LegalFile(l: Layout, e: Entry)
  {
    && e.size <= FILE_CAPACITY
    && LegalExtents(e)
    && (var xs := ListedExtents(e);
        && (forall k :: 0 <= k < |xs| ==> InBounds(l, xs[k]))
        && (forall j, k :: 0 <= j < k < |xs| ==> Disjoint(xs[j], xs[k])))
  }

  ghost predicate LegalEntry(l: Layout, dir: seq<Entry>, i: nat)
    requires i < |dir|
  {
    var e := dir[i];
    e.used != UNUSED ==>
      && (e.used == FILE || e.used == DIR)
      && LegalName(e.name)
      && ReachesRoot(dir, i + 1)
      && (e.used == DIR ==> e.start == 0 && e.size == 0)
      && (e.used == FILE ==> LegalFile(l, e))
  }

  predicate DisjointFiles(e: Entry, f: Entry)
  {
    e.used == FILE && f.used == FILE ==>
      var (xs, ys) := (ListedExtents(e), ListedExtents(f));
      forall j, k :: 0 <= j < |xs| && 0 <= k < |ys| ==> Disjoint(xs[j], ys[k])
  }

  /** Legal layout, types and names; every entry hangs off the root; file extents are in bounds and share no block. */
  ghost predicate WellFormed(l: Layout, dir: seq<Entry>)
  {
    && LegalLayout(l)
    && (forall i :: 0 <= i < |dir| ==> LegalEntry(l, dir, i))
    && (forall i, j :: 0 <= i < j < |dir| ==> DisjointFiles(dir[i], dir[j]))
  }
}
