/**
 * The formats of a Unix V6 disk, written down byte by byte (assign2/assign1/ino.h, direntv6.h), and that reading gives
 * back what a disk so written holds.
 */
module Layout {
  import opened Basics
  import opened Disksim
  import opened Inode
  import opened File
  import opened Directory
  import opened Scan

  /** A 16-bit word, low byte first. */
  predicate HoldsWord(data: seq<Byte>, at: nat, w: Word) {
    at + 2 <= |data| && data[at] == w % 256 && data[at + 1] == w / 256
  }

  // ---------------------------------------------------------------- inodes

  /** The 32 bytes of an inode: its mode, four bytes of which the last is the upper byte of the size, the rest of the
      size, eight addresses, and the times. */
  predicate HoldsInode(b: Block, at: nat, i: Ino) {
    && at + 32 <= 512 && HoldsWord(b, at, i.mode) && b[at + 5] == i.size0 && HoldsWord(b, at + 6, i.size1)
    && forall j :: 0 <= j < 8 ==> HoldsWord(b, at + 8 + 2 * j, i.addr[j])
  }

  lemma InodeReadBack(b: Block, k: nat, i: Ino)
    requires k < 16 && HoldsInode(b, 32 * k, i)
    ensures Decode(b, k) == i
  {
    forall j | 0 <= j < 8 ensures Decode(b, k).addr[j] == i.addr[j] {
      assert HoldsWord(b, 32 * k + 8 + 2 * j, i.addr[j]);
      assert Decode(b, k).addr[j] == Entry(b, 16 * k + 4 + j);
    }
    assert Decode(b, k).addr == i.addr;
  }

  /** The inode table: from sector 2 on, 16 inodes a sector, the first with number 1. */
  ghost predicate HoldsTable(disk: Disk, inodes: seq<Ino>, sectors: nat) {
    && 2 + sectors <= |disk| && |inodes| == 16 * sectors
    && forall t: nat, k: nat :: t < sectors && k < 16 ==> HoldsInode(disk[2 + t], 32 * k, inodes[16 * t + k])
  }

  lemma TableReadBack(disk: Disk, inodes: seq<Ino>, sectors: nat, n: int)
    requires HoldsTable(disk, inodes, sectors)
    ensures TableOnDisk(disk, sectors) && (ValidInumber(sectors, n) <==> 1 <= n <= |inodes|)
    ensures 1 <= n <= |inodes| ==> InodeOnDisk(disk, sectors, n) == inodes[n - 1]
  {
    if 1 <= n <= |inodes| {
      var t, k := (n - 1) / 16, (n - 1) % 16;
      assert 16 * t + k == n - 1 && HoldsInode(disk[2 + t], 32 * k, inodes[16 * t + k]);
      InodeReadBack(disk[2 + t], k, inodes[n - 1]);
    }
  }

  /** The bits of a mode: allocated, the kind of file, large, and the others. */
  function ModeOf(used: bool, kind: nat, large: bool, others: nat): Word
    requires kind < 4 && others < 0x1000
  {
    (if used then 0x8000 else 0) + 0x2000 * kind + (if large then 0x1000 else 0) + others
  }

  lemma ModeReadBack(used: bool, kind: nat, large: bool, others: nat, i: Ino)
    requires kind < 4 && others < 0x1000 && i.mode == ModeOf(used, kind, large, others)
    ensures (IsAllocated(i) <==> used) && (IsLarge(i) <==> large)
    ensures (IsRegular(i) <==> kind == 0) && (IsDir(i) <==> kind == 2)
  {
  }

  lemma SizeReadBack(size: nat, i: Ino)
    requires size < 0x100_0000 && i.size0 == size / 65536 && i.size1 == size % 65536
    ensures GetSize(i) == size
  {
  }

  /** An index block that lists 256 sectors is read as that list. */
  lemma WordsReadBack(disk: Disk, sector: nat, words: seq<Word>)
    requires sector < |disk| && |words| == 256 && forall k :: 0 <= k < 256 ==> HoldsWord(disk[sector], 2 * k, words[k])
    ensures WordsOf(disk, sector) == words
    ensures forall k :: 0 <= k < 256 ==> Entry(disk[sector], k) == words[k]
  {
    forall k | 0 <= k < 256 ensures WordsOf(disk, sector)[k] == words[k] == Entry(disk[sector], k) {
      assert HoldsWord(disk[sector], 2 * k, words[k]);
    }
  }

  /** Byte k of a file is byte k % 512 of the sector that its flat list of sectors has at k / 512. */
  lemma ContentsListed(disk: Disk, i: Ino, k: nat)
    requires WellFormed(disk, i) && k < GetSize(i)
    ensures var sectors := AddressList(disk, i);
            k / 512 < |sectors| && sectors[k / 512] < |disk| && Contents(disk, i)[k] == disk[sectors[k / 512]][k % 512]
  {
    ContentsAt(disk, i, k);
    assert Readable(disk, i, k / 512);
    AddressIsListed(disk, i, k / 512);
  }

  // ---------------------------------------------------------------- directories

  /** A directory entry: an inode number and 14 bytes of name, filled up with NULs. */
  predicate HoldsEntry(data: seq<Byte>, at: nat, name: CString, inumber: Word) {
    && at + 16 <= |data| && |name| <= 14 && HoldsWord(data, at, inumber)
    && forall j :: 0 <= j < 14 ==> data[at + 2 + j] == if j < |name| then name[j] else 0
  }

  lemma {:induction false} NameReadBack(bytes: seq<Byte>, name: CString)
    requires |name| <= |bytes| && forall j :: 0 <= j < |bytes| ==> bytes[j] == if j < |name| then name[j] else 0
    ensures UpToNul(bytes) == name
  {
    if name != [] {
      assert bytes[0] == name[0] && name[0] in name;
      NameReadBack(bytes[1..], name[1..]);
      assert name == [name[0]] + name[1..];
    }
  }

  lemma EntryReadBack(data: seq<Byte>, e: nat, name: CString, inumber: Word)
    requires HoldsEntry(data, 16 * e, name, inumber)
    ensures InumberAt(data, e) == inumber
    ensures EntryName(data[16 * e..16 * e + 16]) == name && EntryInumber(data[16 * e..16 * e + 16]) == inumber
    ensures |name| <= 13 ==> NameAt(data, e) == Key(name)
  {
    var d := data[16 * e..16 * e + 16];
    NameReadBack(d[2..], name);
  }

  /** Names of at most 13 characters are told apart. */
  lemma KeysDiffer(a: CString, b: CString)
    requires |a| <= 13 && |b| <= 13
    ensures Key(a) == Key(b) <==> a == b
  {
    if Key(a) == Key(b) {
      KeyReadBack(a);
      KeyReadBack(b);
    }
  }

  lemma KeyReadBack(a: CString)
    requires |a| <= 13
    ensures UpToNul(Key(a)) == a
  {
    NameReadBack(Key(a), a);
  }

  datatype Named = Named(name: CString, inumber: Word)

  ghost predicate HoldsDirectory(data: seq<Byte>, entries: seq<Named>) {
    && |data| == 16 * |entries|
    && forall e :: 0 <= e < |entries| ==>
         |entries[e].name| <= 13 && HoldsEntry(data, 16 * e, entries[e].name, entries[e].inumber)
  }

  /** Looking up a name in a directory so written finds the first entry with just that name, and nothing if there is
      none. */
  lemma {:induction false} LookupReadBack(data: seq<Byte>, entries: seq<Named>, name: CString, from: nat)
    requires HoldsDirectory(data, entries) && |name| <= 13 && from <= |entries|
    ensures forall e :: from <= e < |entries| && entries[e].name == name
                        && (forall k :: from <= k < e ==> entries[k].name != name) ==>
              FindEntry(data, Key(name), from) == Some(entries[e].inumber)
    ensures (forall e :: from <= e < |entries| ==> entries[e].name != name) ==>
              FindEntry(data, Key(name), from).None?
    decreases |entries| - from
  {
    if from < |entries| {
      EntryReadBack(data, from, entries[from].name, entries[from].inumber);
      KeysDiffer(entries[from].name, name);
      LookupReadBack(data, entries, name, from + 1);
    }
  }
}
