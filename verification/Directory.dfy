/** Finding a name in a directory (assign2/assign1/directory.c): block by block, the first matching entry. */
module Directory {
  import opened Basics
  import opened Disksim
  import opened CacheSpec
  import opened CacheMem
  import opened Inode
  import opened File

  const DIRENT_SIZE := 16
  const NAME_SIZE := 14

  /** Every allocated inode of the disk is well-formed, and the inode table is on the disk. */
  ghost predicate GoodDisk(disk: Disk, isize: nat) {
    && TableOnDisk(disk, isize)
    && forall n :: ValidInumber(isize, n) && IsAllocated(InodeOnDisk(disk, isize, n)) ==>
         WellFormed(disk, InodeOnDisk(disk, isize, n))
  }

  /** What is compared with the 14 bytes of d_name: at most 13 characters of the name, padded with NULs. */
  function Key(name: CString): (r: seq<Byte>)
    ensures |r| == NAME_SIZE
  {
    seq<Byte>(NAME_SIZE, i => if 0 <= i < |name| && i < NAME_SIZE - 1 then name[i] else 0)
  }

  function NameAt(data: seq<Byte>, e: nat): seq<Byte>
    requires DIRENT_SIZE * e + DIRENT_SIZE <= |data|
  {
    data[DIRENT_SIZE * e + 2..DIRENT_SIZE * e + DIRENT_SIZE]
  }

  function InumberAt(data: seq<Byte>, e: nat): Word
    requires DIRENT_SIZE * e + DIRENT_SIZE <= |data|
  {
    data[DIRENT_SIZE * e] as int + 256 * data[DIRENT_SIZE * e + 1] as int
  }

  function NumEntries(data: seq<Byte>): nat { |data| / DIRENT_SIZE }

  /** The inumber of the first entry with the given name, in the flat list of entries of a directory. */
  ghost function FindEntry(data: seq<Byte>, key: seq<Byte>, from: nat): Option<Word>
    requires from <= NumEntries(data)
    decreases NumEntries(data) - from
  {
    if from == NumEntries(data) then None
    else if NameAt(data, from) == key then Some(InumberAt(data, from))
    else FindEntry(data, key, from + 1)
  }

  /** directory_findname's result on the disk itself. */
  ghost function FindNameOnDisk(disk: Disk, isize: nat, name: CString, dirinumber: int): Option<Word>
    requires GoodDisk(disk, isize)
  {
    if !ValidInumber(isize, dirinumber) then None else
    var i := InodeOnDisk(disk, isize, dirinumber);
    if !IsAllocated(i) || !IsDir(i) then None else FindEntry(Contents(disk, i), Key(name), 0)
  }

  /** The number of whole entries in block `b`, and where they are in the directory. */
  lemma BlockEntries(size: nat, b: nat)
    requires b * SECTOR_SIZE < size
    ensures var n := ValidBytes(size, b) / DIRENT_SIZE;
            && 32 * b + n <= size / DIRENT_SIZE && n <= 32
            && (if (b + 1) * SECTOR_SIZE >= size then 32 * b + n == size / DIRENT_SIZE else n == 32)
  {
    ValidBytesExactly(size, b);
  }

  /** Entries do not straddle blocks: entry j of block b is entry 32 * b + j of the directory. */
  lemma EntryOfBlock(disk: Disk, i: Ino, b: nat, j: nat)
    requires WellFormed(disk, i) && b * SECTOR_SIZE < GetSize(i) && Readable(disk, i, b)
    requires j < ValidBytes(GetSize(i), b) / DIRENT_SIZE
    ensures 32 * b + j < NumEntries(Contents(disk, i)) && j < 32
    ensures NameAt(Contents(disk, i), 32 * b + j) == NameAt(BlockContent(disk, i, b), j)
    ensures InumberAt(Contents(disk, i), 32 * b + j) == InumberAt(BlockContent(disk, i, b), j)
  {
    BlockEntries(GetSize(i), b);
    var start := DIRENT_SIZE * (32 * b + j);
    forall at | start <= at < start + DIRENT_SIZE
      ensures Contents(disk, i)[at] == BlockContent(disk, i, b)[at - b * SECTOR_SIZE]
    {
      ContentsAt(disk, i, at);
      assert at / SECTOR_SIZE == b && at % SECTOR_SIZE == at - b * SECTOR_SIZE;
    }
  }

  /** `found` is the first of the `n` entries of a block that has the name. */
  ghost predicate FirstIn(block: Block, n: nat, key: seq<Byte>, found: Option<nat>)
    requires n <= 32
  {
    match found
    case Some(j) => j < n && NameAt(block, j) == key && forall k :: 0 <= k < j ==> NameAt(block, k) != key
    case None => forall k :: 0 <= k < n ==> NameAt(block, k) != key
  }

  /** Looking past the entries of a block that do not match. */
  lemma {:induction false} SkipEntries(disk: Disk, i: Ino, b: nat, key: seq<Byte>, count: nat)
    requires WellFormed(disk, i) && b * SECTOR_SIZE < GetSize(i) && Readable(disk, i, b)
    requires count <= ValidBytes(GetSize(i), b) / DIRENT_SIZE <= 32
    requires FirstIn(BlockContent(disk, i, b), count, key, None)
    ensures 32 * b + count <= NumEntries(Contents(disk, i))
    ensures FindEntry(Contents(disk, i), key, 32 * b) == FindEntry(Contents(disk, i), key, 32 * b + count)
  {
    BlockEntries(GetSize(i), b);
    if count > 0 {
      SkipEntries(disk, i, b, key, count - 1);
      assert NameAt(BlockContent(disk, i, b), count - 1) != key;
      EntryOfBlock(disk, i, b, count - 1);
      SkipEntry(Contents(disk, i), key, 32 * b + count - 1);
    }
  }

  lemma SkipEntry(data: seq<Byte>, key: seq<Byte>, e: nat)
    requires e < NumEntries(data) && NameAt(data, e) != key
    ensures FindEntry(data, key, e) == FindEntry(data, key, e + 1)
  {
  }

  lemma MeetEntry(data: seq<Byte>, key: seq<Byte>, e: nat)
    requires e < NumEntries(data) && NameAt(data, e) == key
    ensures FindEntry(data, key, e) == Some(InumberAt(data, e))
  {
  }

  function EntriesBefore(offset: nat, size: nat): nat {
    if offset < size then offset / DIRENT_SIZE else size / DIRENT_SIZE
  }

  lemma EntriesBeforeBlock(size: nat, b: nat)
    requires b * SECTOR_SIZE < size
    ensures EntriesBefore(b * SECTOR_SIZE, size) == 32 * b
    ensures EntriesBefore((b + 1) * SECTOR_SIZE, size) == 32 * b + ValidBytes(size, b) / DIRENT_SIZE
    ensures 32 * b + ValidBytes(size, b) / DIRENT_SIZE <= size / DIRENT_SIZE
  {
    BlockEntries(size, b);
  }

  /** The search may continue at the entry that starts at `offset`. */
  ghost predicate SearchedTo(disk: Disk, i: Ino, key: seq<Byte>, offset: nat)
    requires WellFormed(disk, i)
  {
    FindEntry(Contents(disk, i), key, 0) == FindEntry(Contents(disk, i), key, EntriesBefore(offset, GetSize(i)))
  }

  /** After one block the search is over or has advanced by that block. */
  lemma AdvanceSearch(disk: Disk, i: Ino, key: seq<Byte>, offset: nat, block: Block, n: nat, found: Option<nat>)
    requires WellFormed(disk, i) && offset % SECTOR_SIZE == 0 && offset < GetSize(i)
    requires Readable(disk, i, offset / SECTOR_SIZE) && block == BlockContent(disk, i, offset / SECTOR_SIZE)
    requires n == ValidBytes(GetSize(i), offset / SECTOR_SIZE) / DIRENT_SIZE && n <= 32
    requires FirstIn(block, n, key, found)
    requires SearchedTo(disk, i, key, offset)
    ensures found.Some? ==> FindEntry(Contents(disk, i), key, 0) == Some(InumberAt(block, found.value))
    ensures found.None? ==> SearchedTo(disk, i, key, offset + SECTOR_SIZE)
  {
    var b := offset / SECTOR_SIZE;
    EntriesBeforeBlock(GetSize(i), b);
    if found.Some? {
      FoundInBlock(disk, i, b, key, found.value);
    } else {
      SkipEntries(disk, i, b, key, n);
    }
  }

  lemma FoundInBlock(disk: Disk, i: Ino, b: nat, key: seq<Byte>, j: nat)
    requires WellFormed(disk, i) && b * SECTOR_SIZE < GetSize(i) && Readable(disk, i, b)
    requires j < ValidBytes(GetSize(i), b) / DIRENT_SIZE <= 32
    requires FirstIn(BlockContent(disk, i, b), j, key, None) && NameAt(BlockContent(disk, i, b), j) == key
    ensures 32 * b <= NumEntries(Contents(disk, i))
    ensures FindEntry(Contents(disk, i), key, 32 * b) == Some(InumberAt(BlockContent(disk, i, b), j))
  {
    SkipEntries(disk, i, b, key, j);
    EntryOfBlock(disk, i, b, j);
    MeetEntry(Contents(disk, i), key, 32 * b + j);
  }

  /** lfind over the entries of one block. */
  method FindInBlock(block: Block, numEntries: nat, key: seq<Byte>) returns (found: Option<nat>)
    requires numEntries <= 32
    ensures FirstIn(block, numEntries, key, found)
  {
    for j := 0 to numEntries
      invariant forall k :: 0 <= k < j ==> NameAt(block, k) != key
    {
      if NameAt(block, j) == key {
        return Some(j);
      }
    }
    return None;
  }

  /** The block loop of directory_findname. */
  method SearchBlocks(fs: UnixFileSystem, dirin: Ino, key: seq<Byte>, frame: nat) returns (ret: int, inumber: Word)
    requires fs.Ok()
    modifies fs.cache.plain, fs.cache.prot
    ensures fs.Ok() && (ret == SUCCESS || ret == FAILURE)
    ensures WellFormed(fs.disk, dirin) ==>
              match FindEntry(Contents(fs.disk, dirin), key, 0)
              case Some(n) => ret == SUCCESS && inumber == n
              case None => ret == FAILURE
  {
    inumber := 0;
    var size := GetSize(dirin);
    var offset := 0;
    while offset < size
      invariant offset % SECTOR_SIZE == 0 && 0 <= offset < size + SECTOR_SIZE
      invariant fs.Ok()
      invariant WellFormed(fs.disk, dirin) ==> SearchedTo(fs.disk, dirin, key, offset)
    {
      var blockNum := offset / SECTOR_SIZE;
      var entries: Block := *;
      var validBytes;
      validBytes, entries := GetBlock(fs, blockNum, entries, dirin, frame, SUCCESS);
      if validBytes < 0 {
        return FAILURE, inumber;
      }
      var numEntries := validBytes / DIRENT_SIZE;
      var found := FindInBlock(entries, numEntries, key);
      if WellFormed(fs.disk, dirin) {
        AdvanceSearch(fs.disk, dirin, key, offset, entries, numEntries, found);
      }
      if found.Some? {
        return SUCCESS, InumberAt(entries, found.value);
      }
      offset := offset + SECTOR_SIZE;
    }
    return FAILURE, inumber;
  }

  /** directory_findname: on a good disk, the first entry of the flat list with that name, or failure. */
  method FindName(fs: UnixFileSystem, name: CString, dirinumber: int, frame: nat) returns (ret: int, inumber: Word)
    requires fs.Ok()
    modifies fs.cache.plain, fs.cache.prot
    ensures fs.Ok() && (ret == SUCCESS || ret == FAILURE)
    ensures GoodDisk(fs.disk, fs.isize) ==>
              match FindNameOnDisk(fs.disk, fs.isize, name, dirinumber)
              case Some(n) => ret == SUCCESS && inumber == n
              case None => ret == FAILURE
  {
    if !ValidInumber(fs.isize, dirinumber) {
      return FAILURE, 0;
    }
    var dirin: Ino := *;
    var err;
    err, dirin := IGet(fs, dirinumber, dirin);
    if err < 0 {
      return FAILURE, 0;
    }
    if !IsAllocated(dirin) || !IsDir(dirin) {
      return FAILURE, 0;
    }
    ret, inumber := SearchBlocks(fs, dirin, Key(name), frame);
  }
}
