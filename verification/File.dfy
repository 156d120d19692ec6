/** Reading a file block by block (assign2/assign1/file.c) and the block loop of assign2/assign1/chksumfile.c. */
module File {
  import opened Basics
  import opened Disksim
  import opened CacheMem
  import opened Inode

  /** The sector of a block, and the index blocks on the way to it, lie on the disk. */
  predicate Readable(disk: Disk, i: Ino, blockNum: int) {
    Reachable(disk, i, blockNum) && 0 <= BlockAddress(disk, i, blockNum) < |disk|
  }

  function BlockContent(disk: Disk, i: Ino, blockNum: int): Block
    requires Readable(disk, i, blockNum)
  {
    disk[BlockAddress(disk, i, blockNum)]
  }

  /** Every block that the size of the inode promises can be read. */
  ghost predicate WellFormed(disk: Disk, i: Ino) {
    forall blockNum :: 0 <= blockNum < NumBlocks(GetSize(i)) ==> Readable(disk, i, blockNum)
  }

  /** Byte k of a file is byte k % 512 of its block k / 512. */
  ghost function ByteOf(disk: Disk, i: Ino, k: nat): Byte
    requires WellFormed(disk, i) && k < GetSize(i)
  {
    BlockContent(disk, i, k / SECTOR_SIZE)[k % SECTOR_SIZE]
  }

  ghost function BytesUpTo(disk: Disk, i: Ino, n: nat): (r: seq<Byte>)
    requires WellFormed(disk, i) && n <= GetSize(i)
    ensures |r| == n
  {
    if n == 0 then [] else BytesUpTo(disk, i, n - 1) + [ByteOf(disk, i, n - 1)]
  }

  /** The flat byte string that an inode stands for. */
  ghost function Contents(disk: Disk, i: Ino): (r: seq<Byte>)
    requires WellFormed(disk, i)
    ensures |r| == GetSize(i)
  {
    BytesUpTo(disk, i, GetSize(i))
  }

  lemma {:induction false} BytesUpToAt(disk: Disk, i: Ino, n: nat, k: nat)
    requires WellFormed(disk, i) && k < n <= GetSize(i)
    ensures BytesUpTo(disk, i, n)[k] == ByteOf(disk, i, k)
  {
    if k < n - 1 {
      BytesUpToAt(disk, i, n - 1, k);
    }
  }

  lemma ContentsAt(disk: Disk, i: Ino, k: nat)
    requires WellFormed(disk, i) && k < GetSize(i)
    ensures Contents(disk, i)[k] == ByteOf(disk, i, k)
  {
    BytesUpToAt(disk, i, GetSize(i), k);
  }

  /** The valid-byte arithmetic of file_getblock. */
  function ValidBytes(size: nat, blockNum: nat): nat {
    if size < (blockNum + 1) * SECTOR_SIZE then size % SECTOR_SIZE else SECTOR_SIZE
  }

  /** The bytes of the file that lie in a block. */
  function BytesInBlock(size: nat, blockNum: nat): nat {
    if size <= blockNum * SECTOR_SIZE then 0
    else if size - blockNum * SECTOR_SIZE < SECTOR_SIZE then size - blockNum * SECTOR_SIZE
    else SECTOR_SIZE
  }

  /** The arithmetic counts the block's bytes correctly exactly when the block starts before the end of the file,
      or the file fills its last block: further out it repeats the length of the partial last block. */
  lemma ValidBytesExactly(size: nat, blockNum: nat)
    ensures ValidBytes(size, blockNum) == BytesInBlock(size, blockNum)
            <==> blockNum * SECTOR_SIZE < size || size % SECTOR_SIZE == 0
  {
    var start := blockNum * SECTOR_SIZE;
    if start < size < start + SECTOR_SIZE {
      assert size / SECTOR_SIZE == blockNum;
    } else if size == start {
      assert size % SECTOR_SIZE == 0;
    }
  }

  /** file_getblock_optimized. For every image the result is -1 or the valid-byte count; if the block can be read
      it is the count, and the buffer holds the block. */
  method GetBlock(fs: UnixFileSystem, blockNum: int, before: Block, inode: Ino, inp: nat, igetRet: int)
    returns (ret: int, buf: Block)
    requires fs.Ok()
    modifies fs.cache.plain, fs.cache.prot
    ensures fs.Ok()
    ensures ret == FAILURE || (blockNum >= 0 && ret == ValidBytes(GetSize(inode), blockNum))
    ensures !(0 <= blockNum < MAX_INODE_BLOCKNUM) || igetRet < 0 ==> ret == FAILURE
    ensures 0 <= blockNum && igetRet >= 0 && Readable(fs.disk, inode, blockNum) ==>
              ret == ValidBytes(GetSize(inode), blockNum) && buf == BlockContent(fs.disk, inode, blockNum)
  {
    if !(0 <= blockNum < MAX_INODE_BLOCKNUM) {
      return FAILURE, before;
    }
    if igetRet < 0 {
      return FAILURE, before;
    }
    var sector := IndexLookup(fs, inode, inp, blockNum);
    ret, buf := fs.cache.ReadSector(fs.disk, sector, before);
    if ret != SECTOR_SIZE {
      return FAILURE, buf;
    }
    var size := GetSize(inode);
    if size < (blockNum + 1) * SECTOR_SIZE {
      ret := size % SECTOR_SIZE;
    }
  }

  /** A small file of 100 bytes in sector 3, whose inode still has an address for a second block. */
  function SmallFile(): Ino { INode(0x8000, 0, 100, [3, 4, 0, 0, 0, 0, 0, 0]) }

  /** It happens: block 1 of such a file is said to hold 100 bytes, where the file has none. */
  method GetBlockPastEnd(fs: UnixFileSystem, before: Block, inp: nat) returns (ret: int, buf: Block)
    requires fs.Ok() && |fs.disk| > 4
    modifies fs.cache.plain, fs.cache.prot
    ensures fs.Ok() && WellFormed(fs.disk, SmallFile()) && |Contents(fs.disk, SmallFile())| == 100
    ensures ret == 100 && buf == fs.disk[4] && BytesInBlock(100, 1) == 0
  {
    assert PathTo(SmallFile(), 1) == Direct(1) && BlockAddress(fs.disk, SmallFile(), 1) == 4;
    ret, buf := GetBlock(fs, 1, before, SmallFile(), inp, SUCCESS);
  }

  /** file_getblock: the same after fetching the inode, on every call. */
  method GetBlockByInumber(fs: UnixFileSystem, inumber: int, blockNum: int, before: Block, frame: nat)
    returns (ret: int, buf: Block)
    requires fs.Ok()
    modifies fs.cache.plain, fs.cache.prot
    ensures fs.Ok() && FAILURE <= ret <= SECTOR_SIZE
    ensures ValidInumber(fs.isize, inumber) && TableOnDisk(fs.disk, fs.isize) && 0 <= blockNum < MAX_INODE_BLOCKNUM ==>
              var inode := InodeOnDisk(fs.disk, fs.isize, inumber);
              Readable(fs.disk, inode, blockNum) ==>
                ret == ValidBytes(GetSize(inode), blockNum) && buf == BlockContent(fs.disk, inode, blockNum)
  {
    if !ValidInumber(fs.isize, inumber) || !(0 <= blockNum < MAX_INODE_BLOCKNUM) {
      return FAILURE, before;
    }
    var inode: Ino := *;
    var err;
    err, inode := IGet(fs, inumber, inode);
    if err < 0 {
      return FAILURE, before;
    }
    var sector := IndexLookup(fs, inode, frame, blockNum);
    ret, buf := fs.cache.ReadSector(fs.disk, sector, before);
    if ret != SECTOR_SIZE {
      return FAILURE, buf;
    }
    var size := GetSize(inode);
    if size < (blockNum + 1) * SECTOR_SIZE {
      ret := size % SECTOR_SIZE;
    }
  }

  /** The data that optimized_chksumfile_byinode feeds to SHA1_Update: on a well-formed inode exactly the file. */
  method HashedBytes(fs: UnixFileSystem, inode: Ino, inp: nat, igetRet: int) returns (ok: bool, data: seq<Byte>)
    requires fs.Ok()
    modifies fs.cache.plain, fs.cache.prot
    ensures fs.Ok()
    ensures igetRet < 0 || !IsAllocated(inode) ==> !ok
    ensures igetRet >= 0 && IsAllocated(inode) && WellFormed(fs.disk, inode) ==>
              ok && data == Contents(fs.disk, inode)
  {
    data := [];
    if igetRet < 0 {
      return false, data;
    }
    if !IsAllocated(inode) {
      return false, data;
    }
    var size := GetSize(inode);
    var offset := 0;
    while offset < size
      invariant offset % SECTOR_SIZE == 0 && 0 <= offset < size + SECTOR_SIZE
      invariant fs.Ok()
      invariant HashedTo(fs.disk, inode, data, offset)
    {
      var blockNum := offset / SECTOR_SIZE;
      var buf: Block := *;
      var bytesMoved;
      bytesMoved, buf := GetBlock(fs, blockNum, buf, inode, inp, igetRet);
      if bytesMoved < 0 {
        return false, data;
      }
      HashNext(fs.disk, inode, data, offset, bytesMoved, buf);
      data := data + buf[..bytesMoved];
      offset := offset + SECTOR_SIZE;
    }
    return true, data;
  }

  /** On a well-formed inode the data are the contents up to the offset. */
  ghost predicate HashedTo(disk: Disk, i: Ino, data: seq<Byte>, offset: nat) {
    WellFormed(disk, i) ==> data == Contents(disk, i)[..if offset < GetSize(i) then offset else GetSize(i)]
  }

  lemma HashNext(disk: Disk, i: Ino, data: seq<Byte>, offset: nat, count: nat, buf: Block)
    requires HashedTo(disk, i, data, offset) && offset % SECTOR_SIZE == 0 && offset < GetSize(i) && count <= SECTOR_SIZE
    requires WellFormed(disk, i) && Readable(disk, i, offset / SECTOR_SIZE) ==>
               && count == ValidBytes(GetSize(i), offset / SECTOR_SIZE)
               && buf == BlockContent(disk, i, offset / SECTOR_SIZE)
    ensures HashedTo(disk, i, data + buf[..count], offset + SECTOR_SIZE)
  {
    if WellFormed(disk, i) {
      NextBlock(disk, i, offset / SECTOR_SIZE);
    }
  }

  /** Appending the valid bytes of block `blockNum` extends the prefix of the contents by one block. */
  lemma NextBlock(disk: Disk, i: Ino, blockNum: nat)
    requires WellFormed(disk, i) && blockNum * SECTOR_SIZE < GetSize(i)
    ensures Readable(disk, i, blockNum)
    ensures var size := GetSize(i);
            var next := (blockNum + 1) * SECTOR_SIZE;
            Contents(disk, i)[..blockNum * SECTOR_SIZE]
              + BlockContent(disk, i, blockNum)[..ValidBytes(size, blockNum)]
            == Contents(disk, i)[..if next < size then next else size]
  {
    var size := GetSize(i);
    var start := blockNum * SECTOR_SIZE;
    ValidBytesExactly(size, blockNum);
    forall k | start <= k < size && k < start + SECTOR_SIZE
      ensures Contents(disk, i)[k] == BlockContent(disk, i, blockNum)[k - start]
    {
      ContentsAt(disk, i, k);
      assert k / SECTOR_SIZE == blockNum && k % SECTOR_SIZE == k - start;
    }
  }

  /** The same for chksumfile_byinumber, which fetches the inode again for every block. */
  method HashedBytesByInumber(fs: UnixFileSystem, inumber: int, frame: nat) returns (ok: bool, data: seq<Byte>)
    requires fs.Ok()
    modifies fs.cache.plain, fs.cache.prot
    ensures fs.Ok()
    ensures !ValidInumber(fs.isize, inumber) ==> !ok
    ensures ValidInumber(fs.isize, inumber) && TableOnDisk(fs.disk, fs.isize) ==>
              var inode := InodeOnDisk(fs.disk, fs.isize, inumber);
              && (!IsAllocated(inode) ==> !ok)
              && (IsAllocated(inode) && WellFormed(fs.disk, inode) ==> ok && data == Contents(fs.disk, inode))
  {
    data := [];
    var inode: Ino := *;
    var err;
    err, inode := IGet(fs, inumber, inode);
    if err < 0 {
      return false, data;
    }
    if !IsAllocated(inode) {
      return false, data;
    }
    ghost var known := TableOnDisk(fs.disk, fs.isize) && ValidInumber(fs.isize, inumber);
    var size := GetSize(inode);
    var offset := 0;
    while offset < size
      invariant offset % SECTOR_SIZE == 0 && 0 <= offset < size + SECTOR_SIZE
      invariant fs.Ok()
      invariant known ==> HashedTo(fs.disk, inode, data, offset)
    {
      var blockNum := offset / SECTOR_SIZE;
      var buf: Block := *;
      var bytesMoved;
      if known && WellFormed(fs.disk, inode) {
        BlockIsReadable(fs.disk, inode, blockNum);
      }
      bytesMoved, buf := GetBlockByInumber(fs, inumber, blockNum, buf, frame);
      if bytesMoved < 0 {
        return false, data;
      }
      if known {
        HashNext(fs.disk, inode, data, offset, bytesMoved, buf);
      }
      data := data + buf[..bytesMoved];
      offset := offset + SECTOR_SIZE;
    }
    return true, data;
  }

  lemma BlockIsReadable(disk: Disk, i: Ino, blockNum: nat)
    requires WellFormed(disk, i) && blockNum * SECTOR_SIZE < GetSize(i)
    ensures Readable(disk, i, blockNum) && blockNum < MAX_INODE_BLOCKNUM
  {
  }
}
