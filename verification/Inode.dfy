/**
 * Inodes of the Unix V6 file system (assign2/assign1/inode.c): their place on the disk, and the lookup of a
 * file block through up to two levels of index blocks, read through the cache.
 */
module Inode {
  import opened Basics
  import opened Disksim
  import opened CacheSpec
  import opened CacheMem

  const SUCCESS := 0
  const FAILURE := -1
  const ROOT_INUMBER := 1
  const INODE_START_SECTOR := 2
  const INODES_IN_SECTOR := 16
  const MAX_INODE_BLOCKNUM := 32768
  const STARTING_BLOCKNUM_IN_DOUBLY_INDIRECT_BLOCK := 1792
  const INDEXES_IN_BLOCK := 256
  const DIRECT_INDEXES := 8
  const DOUBLY_INDIRECT_INDEX := 7
  const SINGLE_INDIRECTION_INDEXES := 7

  type Word = w: int | 0 <= w < 65536

  /** The fields of an on-disk inode that the read path uses. */
  datatype INode = INode(mode: Word, size0: Byte, size1: Word, addr: seq<Word>)

  type Ino = i: INode | |i.addr| == 8 witness INode(0, 0, 0, [0, 0, 0, 0, 0, 0, 0, 0])

  /** The mounted file system: its disk, s_isize from its superblock, and the cache in front of the disk. */
  class UnixFileSystem {
    const disk: Disk
    const isize: nat
    const cache: Cache

    constructor (disk: Disk, isize: nat, cache: Cache)
      ensures this.disk == disk && this.isize == isize && this.cache == cache
    {
      this.disk := disk;
      this.isize := isize;
      this.cache := cache;
    }

    ghost predicate Ok()
      reads cache.plain, cache.prot
    {
      cache.Agrees(disk)
    }
  }

  // ---------------------------------------------------------------- decoding

  /** Entry `i` of a sector read as an array of uint16_t (little-endian). */
  function Entry(b: Block, i: nat): Word
    requires i < INDEXES_IN_BLOCK
  {
    b[2 * i] as int + 256 * b[2 * i + 1] as int
  }

  /** The inode at slot `k` of a sector: 32 bytes with i_mode at offset 0, i_size0 at 5, i_size1 at 6 and
      i_addr at 8. */
  function Decode(b: Block, k: nat): Ino
    requires k < INODES_IN_SECTOR
  {
    var addr := seq<Word>(8, i requires 0 <= i < 8 => Entry(b, 16 * k + 4 + i));
    assert |addr| == 8;
    INode(Entry(b, 16 * k), b[32 * k + 5], Entry(b, 16 * k + 3), addr)
  }

  predicate IsAllocated(i: Ino) { i.mode / 0x8000 % 2 == 1 }

  predicate IsDir(i: Ino) { i.mode / 0x2000 % 4 == 2 }

  predicate IsRegular(i: Ino) { i.mode / 0x2000 % 4 == 0 }

  predicate IsLarge(i: Ino) { i.mode / 0x1000 % 2 == 1 }

  /** inode_getsize: a 24-bit size split over two fields. */
  function GetSize(i: Ino): nat { i.size0 as int * 65536 + i.size1 }

  function NumBlocks(size: nat): nat { (size + SECTOR_SIZE - 1) / SECTOR_SIZE }

  // ---------------------------------------------------------------- the tree of index blocks

  datatype Path =
    | Direct(slot: nat)
    | Single(slot: nat, entry: nat)
    | Double(entry1: nat, entry2: nat)
    | NoPath

  /** How a block number is found: 8 direct entries in a small file; in a large one 7 single index blocks of 256
      entries and one double index block. */
  function PathTo(i: Ino, blockNum: int): Path {
    if !(0 <= blockNum < MAX_INODE_BLOCKNUM) then NoPath
    else if !IsLarge(i) then if blockNum < DIRECT_INDEXES then Direct(blockNum) else NoPath
    else if blockNum < STARTING_BLOCKNUM_IN_DOUBLY_INDIRECT_BLOCK then
      Single(blockNum / INDEXES_IN_BLOCK, blockNum % INDEXES_IN_BLOCK)
    else Double(blockNum / INDEXES_IN_BLOCK - SINGLE_INDIRECTION_INDEXES, blockNum % INDEXES_IN_BLOCK)
  }

  predicate InRange(p: Path) {
    match p
    case Direct(slot) => slot < DIRECT_INDEXES
    case Single(slot, entry) => slot < SINGLE_INDIRECTION_INDEXES && entry < INDEXES_IN_BLOCK
    case Double(entry1, entry2) => entry1 < INDEXES_IN_BLOCK && entry2 < INDEXES_IN_BLOCK
    case NoPath => true
  }

  /** Every index stays inside the block it indexes, every block number of a large file has a path, and no two
      block numbers share one. */
  lemma PathsAreDistinct(i: Ino, a: int, b: int)
    ensures InRange(PathTo(i, a))
    ensures IsLarge(i) && 0 <= a < MAX_INODE_BLOCKNUM ==> !PathTo(i, a).NoPath?
    ensures PathTo(i, a) == PathTo(i, b) && !PathTo(i, a).NoPath? ==> a == b
  {
    if 0 <= a < MAX_INODE_BLOCKNUM && 0 <= b < MAX_INODE_BLOCKNUM {
      assert a == INDEXES_IN_BLOCK * (a / INDEXES_IN_BLOCK) + a % INDEXES_IN_BLOCK;
      assert b == INDEXES_IN_BLOCK * (b / INDEXES_IN_BLOCK) + b % INDEXES_IN_BLOCK;
    }
  }

  /** The index blocks on the way to a block lie on the disk. */
  predicate Reachable(disk: Disk, i: Ino, blockNum: int) {
    PathsAreDistinct(i, blockNum, blockNum);
    match PathTo(i, blockNum)
    case Direct(_) => true
    case Single(slot, _) => i.addr[slot] < |disk|
    case Double(entry1, _) => i.addr[DOUBLY_INDIRECT_INDEX] < |disk|
                              && Entry(disk[i.addr[DOUBLY_INDIRECT_INDEX]], entry1) < |disk|
    case NoPath => true
  }

  /** The sector that holds a block, followed through the tree on the disk itself. */
  function BlockAddress(disk: Disk, i: Ino, blockNum: int): int
    requires Reachable(disk, i, blockNum)
  {
    PathsAreDistinct(i, blockNum, blockNum);
    match PathTo(i, blockNum)
    case Direct(slot) => i.addr[slot]
    case Single(slot, entry) => Entry(disk[i.addr[slot]], entry)
    case Double(entry1, entry2) => Entry(disk[Entry(disk[i.addr[DOUBLY_INDIRECT_INDEX]], entry1)], entry2)
    case NoPath => FAILURE
  }

  // ---------------------------------------------------------------- the same as one flat list

  /** The 256 words of a sector, low byte first; zeros if it is not on the disk. */
  function WordsOf(disk: Disk, sector: int): (r: seq<Word>)
    ensures |r| == 256
  {
    seq<Word>(256, k requires 0 <= k < 256 =>
      if 0 <= sector < |disk| then disk[sector][2 * k] as int + 256 * disk[sector][2 * k + 1] as int else 0)
  }

  /** The words of several sectors, one sector after the other. */
  function Listed(disk: Disk, sectors: seq<Word>): seq<Word> {
    if sectors == [] then [] else WordsOf(disk, sectors[0]) + Listed(disk, sectors[1..])
  }

  /** The sectors of a file in the order of its blocks: the eight addresses of a small file; for a large one what the
      blocks at the first seven addresses list, then what the blocks list that are listed by the block at the last. */
  function AddressList(disk: Disk, i: Ino): seq<Word> {
    if !IsLarge(i) then i.addr
    else Listed(disk, i.addr[..7]) + Listed(disk, WordsOf(disk, i.addr[7]))
  }

  lemma {:induction false} ListedAt(disk: Disk, sectors: seq<Word>, a: nat, b: nat)
    requires a < |sectors| && b < 256
    ensures |Listed(disk, sectors)| == 256 * |sectors|
    ensures Listed(disk, sectors)[256 * a + b] == WordsOf(disk, sectors[a])[b]
  {
    if |sectors| > 1 {
      ListedAt(disk, sectors[1..], if a > 0 then a - 1 else 0, b);
    }
  }

  lemma AddressListLength(disk: Disk, i: Ino)
    ensures |AddressList(disk, i)| == if IsLarge(i) then 67328 else 8
  {
    ListedAt(disk, i.addr[..7], 0, 0);
    ListedAt(disk, WordsOf(disk, i.addr[7]), 0, 0);
  }

  lemma SingleIsListed(disk: Disk, i: Ino, a: nat, b: nat)
    requires IsLarge(i) && a < 7 && b < 256
    ensures 256 * a + b < |AddressList(disk, i)| && AddressList(disk, i)[256 * a + b] == WordsOf(disk, i.addr[a])[b]
  {
    AddressListLength(disk, i);
    ListedAt(disk, i.addr[..7], a, b);
  }

  lemma DoubleIsListed(disk: Disk, i: Ino, a: nat, b: nat)
    requires IsLarge(i) && a < 256 && b < 256
    ensures 1792 + 256 * a + b < |AddressList(disk, i)|
    ensures AddressList(disk, i)[1792 + 256 * a + b] == WordsOf(disk, WordsOf(disk, i.addr[7])[a])[b]
  {
    AddressListLength(disk, i);
    ListedAt(disk, i.addr[..7], 0, 0);
    ListedAt(disk, WordsOf(disk, i.addr[7]), a, b);
  }

  lemma SingleAddress(disk: Disk, i: Ino, a: nat, b: nat)
    requires IsLarge(i) && a < 7 && b < 256 && Reachable(disk, i, 256 * a + b)
    ensures BlockAddress(disk, i, 256 * a + b) == WordsOf(disk, i.addr[a])[b]
  {
    assert (256 * a + b) / 256 == a && (256 * a + b) % 256 == b;
  }

  lemma DoubleAddress(disk: Disk, i: Ino, a: nat, b: nat)
    requires IsLarge(i) && 1792 + 256 * a + b < 32768 && b < 256 && Reachable(disk, i, 1792 + 256 * a + b)
    ensures a < 256 && BlockAddress(disk, i, 1792 + 256 * a + b) == WordsOf(disk, WordsOf(disk, i.addr[7])[a])[b]
  {
    assert (1792 + 256 * a + b) / 256 == a + 7 && (1792 + 256 * a + b) % 256 == b;
  }

  /** Block `k` of a file is the one that the list has at index `k`. */
  lemma AddressIsListed(disk: Disk, i: Ino, k: int)
    requires Reachable(disk, i, k)
    ensures |AddressList(disk, i)| == if IsLarge(i) then 67328 else 8
    ensures BlockAddress(disk, i, k)
            == if 0 <= k < 32768 && k < |AddressList(disk, i)| then AddressList(disk, i)[k] else FAILURE
  {
    AddressListLength(disk, i);
    if IsLarge(i) && 0 <= k < 1792 {
      var a, b := k / 256, k % 256;
      SingleAddress(disk, i, a, b);
      SingleIsListed(disk, i, a, b);
    } else if IsLarge(i) && 1792 <= k < 32768 {
      var a, b := k / 256 - 7, k % 256;
      DoubleAddress(disk, i, a, b);
      DoubleIsListed(disk, i, a, b);
    }
  }

  // ---------------------------------------------------------------- inode_iget

  predicate ValidInumber(isize: nat, inumber: int) {
    0 < inumber <= isize * INODES_IN_SECTOR
  }

  /** The inode table lies on the disk, as on every disk whose superblock is right about s_isize. */
  predicate TableOnDisk(disk: Disk, isize: nat) { INODE_START_SECTOR + isize <= |disk| }

  function InodeOnDisk(disk: Disk, isize: nat, inumber: int): Ino
    requires ValidInumber(isize, inumber) && TableOnDisk(disk, isize)
  {
    Decode(disk[INODE_START_SECTOR + (inumber - ROOT_INUMBER) / INODES_IN_SECTOR],
           (inumber - ROOT_INUMBER) % INODES_IN_SECTOR)
  }

  method IGet(fs: UnixFileSystem, inumber: int, before: Ino) returns (err: int, inode: Ino)
    requires fs.Ok()
    modifies fs.cache.plain, fs.cache.prot
    ensures fs.Ok()
    ensures err == SUCCESS || err == FAILURE
    ensures !ValidInumber(fs.isize, inumber) ==> err == FAILURE
    ensures ValidInumber(fs.isize, inumber) && TableOnDisk(fs.disk, fs.isize) ==>
              err == SUCCESS && inode == InodeOnDisk(fs.disk, fs.isize, inumber)
  {
    if ValidInumber(fs.isize, inumber) {
      var sector := INODE_START_SECTOR + (inumber - ROOT_INUMBER) / INODES_IN_SECTOR;
      var inodeSector: Block := *;
      var ret;
      ret, inodeSector := fs.cache.ReadSector(fs.disk, sector, inodeSector);
      if ret != SECTOR_SIZE {
        return FAILURE, before;
      }
      return SUCCESS, Decode(inodeSector, (inumber - ROOT_INUMBER) % INODES_IN_SECTOR);
    }
    return FAILURE, before;
  }

  // ---------------------------------------------------------------- inode_indexlookup

  method FindInDoublyIndirectBlock(fs: UnixFileSystem, inode: Ino, inp: nat, blockNum: int, double: Block)
    returns (r: int, ghost before: Block)
    requires fs.Ok() && STARTING_BLOCKNUM_IN_DOUBLY_INDIRECT_BLOCK <= blockNum < MAX_INODE_BLOCKNUM
    modifies fs.cache.plain, fs.cache.prot
    ensures fs.Ok() && FAILURE <= r < 65536
    ensures var next := Entry(double, blockNum / INDEXES_IN_BLOCK - SINGLE_INDIRECTION_INDEXES);
            && (next < |fs.disk| ==> r == Entry(fs.disk[next], blockNum % INDEXES_IN_BLOCK))
            && (fs.cache.isAllocated ==>
                  fs.cache.Contents()
                  == Perform(old(fs.cache.Contents()), fs.disk, InodeSector(next, inp, Kind(IsDir(inode), 1)),
                             before).0)
  {
    var next := Entry(double, blockNum / INDEXES_IN_BLOCK - SINGLE_INDIRECTION_INDEXES);
    var single: Block := *;
    var ret;
    before := single;
    ret, single := fs.cache.ReadSectorInode(fs.disk, next, single, inp, Kind(IsDir(inode), 1));
    if ret != SECTOR_SIZE {
      return FAILURE, before;
    }
    return Entry(single, blockNum % INDEXES_IN_BLOCK), before;
  }

  /** The index blocks that a lookup reads, each for its owner and with its level of indirection. */
  predicate LookupReads(run: seq<(Access, Block)>, inode: Ino, inp: nat, blockNum: int) {
    var kind := if IsDir(inode) then 65536 else 0;
    if 0 <= blockNum < 1792 then |run| == 1 && run[0].0 == InodeSector(inode.addr[blockNum / 256], inp, kind + 1)
    else
      && 1 <= |run| <= 2 && run[0].0 == InodeSector(inode.addr[7], inp, kind + 2)
      && (|run| == 2 ==> run[1].0.InodeSector? && run[1].0.inp == inp && run[1].0.kind == kind + 1)
  }

  method FindForLargeFile(fs: UnixFileSystem, inode: Ino, inp: nat, blockNum: int)
    returns (r: int, ghost run: seq<(Access, Block)>)
    requires fs.Ok() && IsLarge(inode) && 0 <= blockNum < MAX_INODE_BLOCKNUM
    modifies fs.cache.plain, fs.cache.prot
    ensures fs.Ok() && FAILURE <= r < 65536
    ensures Reachable(fs.disk, inode, blockNum) ==> r == BlockAddress(fs.disk, inode, blockNum)
    ensures LookupReads(run, inode, inp, blockNum)
    ensures fs.cache.isAllocated ==> fs.cache.Contents() == PerformAll(old(fs.cache.Contents()), fs.disk, run)
  {
    var content: Block := *;
    var ret;
    if blockNum < STARTING_BLOCKNUM_IN_DOUBLY_INDIRECT_BLOCK {
      var sector := inode.addr[blockNum / INDEXES_IN_BLOCK];
      run := [(InodeSector(sector, inp, Kind(IsDir(inode), 1)), content)];
      ret, content := fs.cache.ReadSectorInode(fs.disk, sector, content, inp, Kind(IsDir(inode), 1));
      assert run[1..] == [];
      if ret != SECTOR_SIZE {
        return FAILURE, run;
      }
      return Entry(content, blockNum % INDEXES_IN_BLOCK), run;
    } else {
      var sector := inode.addr[DOUBLY_INDIRECT_INDEX];
      run := [(InodeSector(sector, inp, Kind(IsDir(inode), 2)), content)];
      ret, content := fs.cache.ReadSectorInode(fs.disk, sector, content, inp, Kind(IsDir(inode), 2));
      assert run[1..] == [];
      if ret != SECTOR_SIZE {
        return FAILURE, run;
      }
      ghost var before;
      r, before := FindInDoublyIndirectBlock(fs, inode, inp, blockNum, content);
      var next := Entry(content, blockNum / INDEXES_IN_BLOCK - SINGLE_INDIRECTION_INDEXES);
      if fs.cache.isAllocated {
        PerformTwo(old(fs.cache.Contents()), fs.disk, run[0], (InodeSector(next, inp, Kind(IsDir(inode), 1)), before));
      }
      run := [run[0], (InodeSector(next, inp, Kind(IsDir(inode), 1)), before)];
    }
  }

  lemma PerformTwo(m: Mem, disk: Disk, a: (Access, Block), b: (Access, Block))
    requires |m.plain| > 0
    ensures PerformAll(m, disk, [a, b]) == Perform(Perform(m, disk, a.0, a.1).0, disk, b.0, b.1).0
  {
    assert [a, b][1..] == [b] && [b][1..] == [];
    var m' := Perform(m, disk, a.0, a.1).0;
    assert PerformAll(m', disk, [b]) == PerformAll(Perform(m', disk, b.0, b.1).0, disk, []);
  }

  /** Lookup through the cache gives the sector that the tree on the disk gives. */
  method IndexLookup(fs: UnixFileSystem, inode: Ino, inp: nat, blockNum: int) returns (r: int)
    requires fs.Ok()
    modifies fs.cache.plain, fs.cache.prot
    ensures fs.Ok() && FAILURE <= r < 65536
    ensures Reachable(fs.disk, inode, blockNum) ==> r == BlockAddress(fs.disk, inode, blockNum)
    ensures Reachable(fs.disk, inode, blockNum) ==>
              var sectors := AddressList(fs.disk, inode);
              r == if 0 <= blockNum < 32768 && blockNum < |sectors| then sectors[blockNum] else FAILURE
  {
    if Reachable(fs.disk, inode, blockNum) {
      AddressIsListed(fs.disk, inode, blockNum);
    }
    if 0 <= blockNum < MAX_INODE_BLOCKNUM {
      if IsLarge(inode) {
        ghost var run;
        r, run := FindForLargeFile(fs, inode, inp, blockNum);
      } else if blockNum < DIRECT_INDEXES {
        r := inode.addr[blockNum];
      } else {
        r := FAILURE;
      }
    } else {
      r := FAILURE;
    }
  }
}
