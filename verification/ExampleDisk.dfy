/** A disk of five sectors that meets what the theorems about scanning ask for: its root directory holds one file. */
module ExampleDisk {
  import opened Basics
  import opened Disksim
  import opened Inode
  import opened File
  import opened Directory
  import opened Pathname
  import opened Pathstore
  import opened Scan
  import opened ScanTheorems
  import opened DiskSearch

  /** Inode 1 is a directory of 16 bytes in sector 3, inode 2 a file of 2 bytes in sector 4. */
  ghost predicate IsTable(b: Block) {
    && b[1] == 192 && b[6] == 16 && b[8] == 3 && b[33] == 128 && b[38] == 2 && b[40] == 4
    && forall k :: 0 <= k < SECTOR_SIZE && k !in {1, 6, 8, 33, 38, 40} ==> b[k] == 0
  }

  /** One entry: inode 2 under the name "a". */
  ghost predicate IsRoot(data: seq<Byte>) {
    |data| >= DIRENT_SIZE && data[0] == 2 && data[2] == 97
    && forall k :: 0 <= k < DIRENT_SIZE && k != 0 && k != 2 ==> data[k] == 0
  }

  ghost predicate IsImage(disk: Disk) {
    |disk| == 5 && IsTable(disk[2]) && IsRoot(disk[3]) && disk[4][0] == 104 && disk[4][1] == 105
  }

  function InodeOf(disk: Disk, n: int): Ino
    requires |disk| == 5 && ValidInumber(1, n)
  {
    InodeOnDisk(disk, 1, n)
  }

  lemma Fields(disk: Disk, n: int)
    requires IsImage(disk) && ValidInumber(1, n)
    ensures InodeOf(disk, n).mode == if n == 1 then 0xC000 else if n == 2 then 0x8000 else 0
    ensures n <= 2 ==> InodeOf(disk, n).addr[0] == n + 2 && GetSize(InodeOf(disk, n)) == (if n == 1 then 16 else 2)
  {
    assert InodeOf(disk, n) == Decode(disk[2], n - 1);
    assert InodeOf(disk, n).addr[0] == Entry(disk[2], 16 * (n - 1) + 4);
  }

  lemma Readables(disk: Disk, n: int)
    requires IsImage(disk) && 1 <= n <= 2
    ensures WellFormed(disk, InodeOf(disk, n)) && Readable(disk, InodeOf(disk, n), 0)
    ensures BlockAddress(disk, InodeOf(disk, n), 0) == n + 2
  {
    Fields(disk, n);
  }

  lemma DiskIsGood(disk: Disk)
    requires IsImage(disk)
    ensures GoodDisk(disk, 1)
  {
    forall n | ValidInumber(1, n) && IsAllocated(InodeOf(disk, n)) ensures WellFormed(disk, InodeOf(disk, n)) {
      Fields(disk, n);
      Readables(disk, n);
    }
  }

  /** Byte k of either file. */
  lemma ByteAt(disk: Disk, n: int, k: nat)
    requires IsImage(disk) && 1 <= n <= 2 && k < (if n == 1 then 16 else 2)
    ensures WellFormed(disk, InodeOf(disk, n)) && GetSize(InodeOf(disk, n)) == if n == 1 then 16 else 2
    ensures Contents(disk, InodeOf(disk, n))[k] == disk[n + 2][k]
  {
    Fields(disk, n);
    Readables(disk, n);
    ContentsAt(disk, InodeOf(disk, n), k);
  }

  lemma RootHasOneEntry(data: seq<Byte>)
    requires |data| == DIRENT_SIZE && IsRoot(data)
    ensures NumEntries(data) == 1 && DirentAt(data, 0) == data
    ensures EntryName(data) == [97] && EntryInumber(data) == 2
    ensures FindEntry(data, Key([97]), 0) == Some(2)
  {
    assert data[2..] == [97 as Byte] + data[3..];
    assert UpToNul(data[3..]) == [];
    assert NameAt(data, 0) == Key([97]);
  }

  lemma RootContents(disk: Disk) returns (data: seq<Byte>)
    requires IsImage(disk)
    ensures WellFormed(disk, InodeOf(disk, 1)) && data == Contents(disk, InodeOf(disk, 1))
    ensures |data| == DIRENT_SIZE && IsRoot(data)
  {
    Readables(disk, 1);
    data := Contents(disk, InodeOf(disk, 1));
    Fields(disk, 1);
    forall k | 0 <= k < DIRENT_SIZE ensures data[k] == disk[3][k] {
      ByteAt(disk, 1, k);
    }
  }

  function Depth(inumber: int): nat { if inumber == ROOT_INUMBER then 1 else 0 }

  lemma RootFits(data: seq<Byte>)
    requires |data| == DIRENT_SIZE && IsRoot(data)
    ensures DirectoryFits(data, Depth, 1)
  {
    RootHasOneEntry(data);
    forall e | 0 <= e < NumEntries(data) ensures EntryFits(data, DIRENT_SIZE * e, Depth, 1) {
      assert e == 0 && data[0..DIRENT_SIZE] == data;
    }
  }

  lemma ImageIsTree(m: Setting)
    requires IsImage(m.disk) && m.isize == 1
    ensures Good(m) && IsTree(m, Depth)
  {
    DiskIsGood(m.disk);
    var data := RootContents(m.disk);
    RootFits(data);
    forall n | ValidInumber(m.isize, n) && IsAllocated(InodeOf(m.disk, n)) && !IsRegular(InodeOf(m.disk, n))
      ensures IsDir(InodeOf(m.disk, n)) && DirectoryFits(Contents(m.disk, InodeOf(m.disk, n)), Depth, n)
    {
      Fields(m.disk, n);
    }
  }

  lemma FileIsBelow(m: Setting)
    requires IsImage(m.disk) && m.isize == 1 && Good(m)
    ensures IsFile(m, 2) && Below(m, Depth, ROOT_INUMBER, 2)
  {
    Fields(m.disk, 1);
    Fields(m.disk, 2);
    var data := RootContents(m.disk);
    RootHasOneEntry(data);
    assert LeadsBelow(m, Depth, ROOT_INUMBER, 0, 2);
  }

  /** The theorems about scanning a disk have instances: here they promise a file with the word "hi". */
  lemma ExampleIsIndexable(sha1: seq<Byte> -> Checksum) returns (m: Setting)
    ensures m.sha1 == sha1 && IndexableDisk(m, Depth) && IsFile(m, 2) && Below(m, Depth, ROOT_INUMBER, 2)
    ensures Contents(m.disk, InodeOnDisk(m.disk, m.isize, 2)) == [104, 105]
  {
    var zeros: Block := Zeros(SECTOR_SIZE);
    var table: Block := zeros[1 := 192][6 := 16][8 := 3][33 := 128][38 := 2][40 := 4];
    m := Setting([zeros, zeros, table, zeros[0 := 2][2 := 97], zeros[0 := 104][1 := 105]], 1, sha1, true);
    assert IsTable(m.disk[2]) && IsRoot(m.disk[3]);
    ImageIsTree(m);
    FileIsBelow(m);
    ByteAt(m.disk, 2, 0);
    ByteAt(m.disk, 2, 1);
  }
}
