/**
 * The two-region sector cache of assign2/cachemem.c as operations on values: a direct-mapped region and, in
 * front of it, 36 protected lines for indirection blocks, each owned by the inode it was read for.
 */
module CacheSpec {
  import opened Basics
  import opened Disksim

  const INODE_CACHE_LINES := 36
  const MINIMUM_INODE_CACHE_SPACE := 256
  const CACHEMEM_MAX_SIZE := 64 * 1024 * 1024
  const BYTES_IN_KB := 1024
  const CACHE_LINE_BYTES := 516   // sizeof(cache_line): a 4-byte int and 512 bytes
  const INODE_LINE_BYTES := 536   // sizeof(inode_cache_line): 4 + 4 padding + 8 + 4 + 512, 8-byte aligned
  const MULTIPLIER := 2630849305

  datatype Line = Line(sector: int, buf: Block)

  /** `inp` is the address of the owning inode, 0 for NULL. */
  datatype InodeLine = InodeLine(sector: int, inp: nat, kind: int, buf: Block)

  datatype Mem = Mem(plain: seq<Line>, prot: seq<InodeLine>)

  predicate SameShape(m: Mem, r: Mem) {
    |r.plain| == |m.plain| && |r.prot| == |m.prot|
  }

  // ---------------------------------------------------------------- typeandindirection

  /** The packed int that inode.c passes down: type in the upper half, level of indirection in the lower. */
  function Kind(directory: bool, level: nat): int {
    (if directory then 65536 else 0) + level
  }

  predicate IsDirectory(kind: int) { kind / 65536 != 0 }

  predicate IsSingly(kind: int) { kind % 65536 == 1 }

  // ---------------------------------------------------------------- layout of the one block of memory

  predicate AcceptedSize(sizeInKB: int) {
    0 < sizeInKB <= CACHEMEM_MAX_SIZE / 1024 && sizeInKB % 4 == 0
  }

  predicate InodeCacheEnabled(sizeInKB: int) { sizeInKB >= MINIMUM_INODE_CACHE_SPACE }

  function PlainStart(sizeInKB: int): int {
    if InodeCacheEnabled(sizeInKB) then INODE_CACHE_LINES * INODE_LINE_BYTES else 0
  }

  function MaxCacheLine(sizeInKB: int): int {
    (sizeInKB * BYTES_IN_KB - PlainStart(sizeInKB)) / CACHE_LINE_BYTES
  }

  function InodeLines(sizeInKB: int): nat {
    if InodeCacheEnabled(sizeInKB) then INODE_CACHE_LINES else 0
  }

  /** Byte offset of line `i` of the protected region. */
  function InodeLineAt(i: nat): int { i * INODE_LINE_BYTES }

  /** Byte offset of line `k` of the direct-mapped region. */
  function PlainLineAt(sizeInKB: int, k: nat): int { PlainStart(sizeInKB) + k * CACHE_LINE_BYTES }

  /** The two regions lie side by side inside the allocation: every protected line ends before the direct-mapped
      region starts, lines follow each other without overlap, and none runs past the end. */
  lemma RegionsDisjoint(sizeInKB: int)
    requires AcceptedSize(sizeInKB)
    ensures MaxCacheLine(sizeInKB) >= 1
    ensures forall i: nat {:trigger InodeLineAt(i)} :: i < InodeLines(sizeInKB) ==>
              InodeLineAt(i) + INODE_LINE_BYTES == InodeLineAt(i + 1) <= PlainLineAt(sizeInKB, 0)
    ensures forall k: nat {:trigger PlainLineAt(sizeInKB, k)} :: k < MaxCacheLine(sizeInKB) ==>
              PlainLineAt(sizeInKB, k) + CACHE_LINE_BYTES == PlainLineAt(sizeInKB, k + 1) <= sizeInKB * BYTES_IN_KB
  {
  }

  // ---------------------------------------------------------------- the direct-mapped region

  /** The source multiplies in a signed long and converts to unsigned long: arithmetic modulo 2^64. */
  function Index(sector: int, range: nat): (r: nat)
    requires range > 0
    ensures r < range
  {
    ((sector - 1) * MULTIPLIER) % 0x1_0000_0000_0000_0000 % range
  }

  function SavePlain(m: Mem, sector: int, buf: Block): (r: Mem)
    requires |m.plain| > 0
    ensures SameShape(m, r)
  {
    m.(plain := m.plain[Index(sector, |m.plain|) := Line(sector, buf)])
  }

  // ---------------------------------------------------------------- the protected region

  /** The least index whose line satisfies `p`, or the length if there is none. */
  function First(p: InodeLine -> bool, lines: seq<InodeLine>): (r: nat)
    ensures r <= |lines|
    ensures r < |lines| ==> p(lines[r])
    ensures forall k :: 0 <= k < r ==> !p(lines[k])
  {
    if lines == [] || p(lines[0]) then 0 else First(p, lines[1..]) + 1
  }

  function FreeForFile(inp: nat): InodeLine -> bool {
    (l: InodeLine) => l.inp == 0 || (!IsDirectory(l.kind) && l.inp != inp)
  }

  function SinglyOf(inp: nat): InodeLine -> bool {
    (l: InodeLine) => l.inp == inp && IsSingly(l.kind)
  }

  predicate FreeForDirectory(l: InodeLine) { l.inp == 0 || !IsDirectory(l.kind) }

  predicate Singly(l: InodeLine) { IsSingly(l.kind) }

  function Put(m: Mem, i: nat, line: InodeLine): (r: Mem)
    requires i < |m.prot|
    ensures SameShape(m, r)
  {
    m.(prot := m.prot[i := line])
  }

  /** The displaced line moves to the direct-mapped region. */
  function Demote(m: Mem, i: nat, line: InodeLine): (r: Mem)
    requires i < |m.prot| && |m.plain| > 0
    ensures SameShape(m, r)
  {
    Put(SavePlain(m, m.prot[i].sector, m.prot[i].buf), i, line)
  }

  /** save_file_sector_in_inode_cache; None is its return value -1. */
  function SaveFile(m: Mem, line: InodeLine): (r: Option<Mem>)
    requires |m.plain| > 0
    ensures r.Some? ==> SameShape(m, r.value)
  {
    var free := First(FreeForFile(line.inp), m.prot);
    if free < |m.prot| then Some(Put(m, free, line)) else
    var victim := First(Singly, m.prot);
    if victim < |m.prot| then Some(Demote(m, victim, line)) else None
  }

  /** save_directory_sector_in_inode_cache; None is its return value -1. */
  function SaveDirectory(m: Mem, line: InodeLine): (r: Option<Mem>)
    requires |m.plain| > 0
    ensures r.Some? ==> SameShape(m, r.value)
  {
    var own := First(SinglyOf(line.inp), m.prot);
    if own < |m.prot| then Some(Put(m, own, line)) else
    var free := First(FreeForDirectory, m.prot);
    if free < |m.prot| then Some(Put(m, free, line)) else
    var victim := First(Singly, m.prot);
    if victim < |m.prot| then Some(Demote(m, victim, line)) else None
  }

  /** save_sector_in_inode_cache. */
  function SaveInode(m: Mem, line: InodeLine): (r: Mem)
    requires |m.plain| > 0
    ensures SameShape(m, r)
  {
    if m.prot == [] then SavePlain(m, line.sector, line.buf)
    else
      var saved := if IsDirectory(line.kind) then SaveDirectory(m, line) else SaveFile(m, line);
      if saved.Some? then saved.value else SavePlain(m, line.sector, line.buf)
  }

  function Erase(m: Mem, inp: nat): (r: Mem)
    ensures SameShape(m, r)
  {
    m.(prot := seq(|m.prot|, i requires 0 <= i < |m.prot| =>
                     if m.prot[i].inp == inp then m.prot[i].(inp := 0) else m.prot[i]))
  }

  function SectorIs(sector: int): InodeLine -> bool {
    (l: InodeLine) => l.sector == sector
  }

  /** fetch_sector_in_cache; None is CACHE_ERROR. */
  function Fetch(m: Mem, sector: int): Option<Block>
    requires |m.plain| > 0
  {
    var line := m.plain[Index(sector, |m.plain|)];
    if line.sector == sector then Some(line.buf) else
    var i := First(SectorIs(sector), m.prot);
    if i < |m.prot| then Some(m.prot[i].buf) else None
  }

  // ---------------------------------------------------------------- diskimg.c above it

  datatype Access =
    | Sector(sector: int)
    | InodeSector(sector: int, inp: nat, kind: int)
    | EraseOwner(owner: nat)

  /** diskimg_readsector, diskimg_readsector_inode and the erase that Fileops_close performs. `buf` is what the
      caller's buffer held before. */
  function Perform(m: Mem, disk: Disk, a: Access, buf: Block): (r: (Mem, (int, Block)))
    requires |m.plain| > 0
    ensures SameShape(m, r.0)
  {
    if a.EraseOwner? then (Erase(m, a.owner), (0, buf)) else
    var hit := if a.sector != 0 then Fetch(m, a.sector) else None;
    if hit.Some? then (m, (SECTOR_SIZE, hit.value)) else
    var r := ReadSector(disk, a.sector, buf);
    if r.0 == -1 || a.sector == 0 then (m, r)
    else if a.Sector? then (SavePlain(m, a.sector, r.1), r)
    else (SaveInode(m, InodeLine(a.sector, a.inp, a.kind, r.1)), r)
  }

  /** A run of accesses, each with whatever its caller's buffer held. */
  function PerformAll(m: Mem, disk: Disk, run: seq<(Access, Block)>): (r: Mem)
    requires |m.plain| > 0
    ensures SameShape(m, r)
    decreases |run|
  {
    if run == [] then m else PerformAll(Perform(m, disk, run[0].0, run[0].1).0, disk, run[1..])
  }
}
