/**
 * Detecting files that are already indexed: assign2/pathstore.c, which keeps a checksum with every stored path,
 * and assign2/pathstore-original.c, which recomputes both checksums on every comparison. SHA-1 is an
 * uninterpreted function.
 */
module Pathstore {
  import opened Basics
  import opened Disksim
  import opened CacheSpec
  import opened CacheMem
  import opened Inode
  import opened File
  import opened Directory
  import opened Pathname
  import opened Fileops

  const CHKSUMFILE_SIZE := 20

  type Checksum = c: seq<Byte> | |c| == CHKSUMFILE_SIZE witness seq(CHKSUMFILE_SIZE, i => 0)

  const ZERO_CHECKSUM: Checksum := seq(CHKSUMFILE_SIZE, i => 0)

  // ---------------------------------------------------------------- what a path stands for

  /** The contents of the allocated inode that a path resolves to. */
  ghost function FileAt(disk: Disk, isize: nat, pathname: CString): Option<seq<Byte>>
    requires GoodDisk(disk, isize)
  {
    var n := Resolve(disk, isize, pathname);
    if ValidInumber(isize, n) && IsAllocated(InodeOnDisk(disk, isize, n))
    then Some(Contents(disk, InodeOnDisk(disk, isize, n)))
    else None
  }

  /** What reading an inode to the end gives: nothing if it is not allocated. */
  ghost function StreamOf(disk: Disk, i: Ino): seq<Byte>
    requires IsAllocated(i) ==> WellFormed(disk, i)
  {
    if IsAllocated(i) then Contents(disk, i) else []
  }

  /** What opening a path and reading it to the end gives. */
  ghost function StreamAt(disk: Disk, isize: nat, pathname: CString): Option<seq<Byte>>
    requires GoodDisk(disk, isize)
  {
    var n := Resolve(disk, isize, pathname);
    if ValidInumber(isize, n) then Some(StreamOf(disk, InodeOnDisk(disk, isize, n))) else None
  }

  /** The simple rule: no stored path has the same name or the same contents. */
  ghost predicate IsNew(disk: Disk, isize: nat, names: seq<CString>, pathname: CString)
    requires GoodDisk(disk, isize)
  {
    forall k :: 0 <= k < |names| ==>
      names[k] != pathname && FileAt(disk, isize, names[k]) != FileAt(disk, isize, pathname)
  }

  /** The contents that a list of paths stands for. */
  ghost function FilesAt(disk: Disk, isize: nat, names: seq<CString>): (r: seq<Option<seq<Byte>>>)
    requires GoodDisk(disk, isize)
    ensures |r| == |names|
  {
    if names == [] then [] else [FileAt(disk, isize, names[0])] + FilesAt(disk, isize, names[1..])
  }

  lemma {:induction false} FilesAtIndex(disk: Disk, isize: nat, names: seq<CString>, k: nat)
    requires GoodDisk(disk, isize) && k < |names|
    ensures FilesAt(disk, isize, names)[k] == FileAt(disk, isize, names[k])
  {
    if k > 0 {
      FilesAtIndex(disk, isize, names[1..], k - 1);
    }
  }

  predicate AllDistinct<T(==)>(s: seq<T>) {
    forall i, k :: 0 <= i < k < |s| ==> s[i] != s[k]
  }

  /** Stored paths can be read, and no two of them have the same contents. */
  ghost predicate DistinctFiles(disk: Disk, isize: nat, names: seq<CString>)
    requires GoodDisk(disk, isize)
  {
    None !in FilesAt(disk, isize, names) && AllDistinct(FilesAt(disk, isize, names))
  }

  lemma NewFileKeepsDistinct(disk: Disk, isize: nat, names: seq<CString>, pathname: CString)
    requires GoodDisk(disk, isize) && DistinctFiles(disk, isize, names)
    requires IsNew(disk, isize, names, pathname) && FileAt(disk, isize, pathname).Some?
    ensures DistinctFiles(disk, isize, [pathname] + names)
  {
    assert ([pathname] + names)[1..] == names;
    forall k | 0 <= k < |names| ensures FilesAt(disk, isize, names)[k] != FileAt(disk, isize, pathname) {
      FilesAtIndex(disk, isize, names, k);
    }
    ConsDistinct(FileAt(disk, isize, pathname), FilesAt(disk, isize, names));
  }

  lemma ConsDistinct<T>(x: T, s: seq<T>)
    requires AllDistinct(s) && forall k :: 0 <= k < |s| ==> s[k] != x
    ensures AllDistinct([x] + s)
  {
  }

  // ---------------------------------------------------------------- comparing two open files

  function ByteOrEnd(data: seq<Byte>, k: nat): int {
    if k < |data| then data[k] as int else -1
  }

  predicate AgreeTo(a: seq<Byte>, b: seq<Byte>, k: nat) {
    k <= |a| && k <= |b| && a[..k] == b[..k]
  }

  /** Two files that agree up to `k` are equal exactly when the bytes at `k` are both missing, and different if
      those bytes differ. */
  lemma AgreeUpTo(a: seq<Byte>, b: seq<Byte>, k: nat)
    requires AgreeTo(a, b, k)
    ensures ByteOrEnd(a, k) != ByteOrEnd(b, k) ==> a != b
    ensures ByteOrEnd(a, k) == ByteOrEnd(b, k) == -1 ==> a == b
    ensures ByteOrEnd(a, k) == ByteOrEnd(b, k) != -1 ==> AgreeTo(a, b, k + 1)
  {
    if ByteOrEnd(a, k) == ByteOrEnd(b, k) == -1 {
      assert a == a[..k] && b == b[..k];
    }
  }

  /** An open slot whose stream of bytes is known. */
  ghost predicate HasStream(disk: Disk, s: Slot) {
    s.pathname.Some? && s.inumber >= 0 && s.igetRet >= 0 && (IsAllocated(s.inode) ==> WellFormed(disk, s.inode))
  }

  function One(b: bool): nat { if b then 1 else 0 }

  /** What one call of getchar does to an open slot, and what it returns when the stream is known. */
  ghost predicate Advanced(disk: Disk, before: Slot, after: Slot, ch: int) {
    && ViewOf(after) == ViewOf(before).(cursor := before.cursor + One(ch >= 0))
    && (ch >= 0 ==> after.cursor <= GetSize(before.inode))
    && (HasStream(disk, before) && 0 <= before.cursor ==> ch == ByteOrEnd(StreamOf(disk, before.inode), before.cursor))
  }

  /** One call of getchar on each of two descriptors. */
  method NextPair(files: FileTable, fd1: nat, fd2: nat) returns (ch1: int, ch2: int)
    requires files.Ok() && fd1 < MAX_FILES && fd2 < MAX_FILES && fd1 != fd2
    requires Open(files.table[fd1]) && Open(files.table[fd2])
    modifies files.table, files.fs.cache.plain, files.fs.cache.prot
    ensures files.Ok() && -1 <= ch1 && -1 <= ch2
    ensures forall k :: 0 <= k < MAX_FILES && k != fd1 && k != fd2 ==> files.table[k] == old(files.table[k])
    ensures Advanced(files.fs.disk, old(files.table[fd1]), files.table[fd1], ch1)
    ensures Advanced(files.fs.disk, old(files.table[fd2]), files.table[fd2], ch2)
  {
    SlotsOkAt(files.fs.disk, files.prefetched, files.table[..], MAX_FILES, fd1);
    SlotsOkAt(files.fs.disk, files.prefetched, files.table[..], MAX_FILES, fd2);
    ch1 := files.Getchar(fd1);
    ch2 := files.Getchar(fd2);
  }

  /** The comparison loop of IsSameFile on two descriptors at the start of their files. */
  method SameContents(files: FileTable, fd1: nat, fd2: nat) returns (same: bool)
    requires files.Ok() && fd1 < MAX_FILES && fd2 < MAX_FILES && fd1 != fd2
    requires Open(files.table[fd1]) && files.table[fd1].cursor == 0
    requires Open(files.table[fd2]) && files.table[fd2].cursor == 0
    modifies files.table, files.fs.cache.plain, files.fs.cache.prot
    ensures files.Ok() && Open(files.table[fd1]) && Open(files.table[fd2])
    ensures forall k :: 0 <= k < MAX_FILES && k != fd1 && k != fd2 ==> files.table[k] == old(files.table[k])
    ensures old(HasStream(files.fs.disk, files.table[fd1]) && HasStream(files.fs.disk, files.table[fd2])) ==>
              same == (StreamOf(files.fs.disk, old(files.table[fd1].inode))
                       == StreamOf(files.fs.disk, old(files.table[fd2].inode)))
  {
    ghost var s1, s2 := files.table[fd1], files.table[fd2];
    ghost var good := HasStream(files.fs.disk, s1) && HasStream(files.fs.disk, s2);
    ghost var data1 := if good then StreamOf(files.fs.disk, s1.inode) else [];
    ghost var data2 := if good then StreamOf(files.fs.disk, s2.inode) else [];
    ghost var k: nat := 0;
    var ch1, ch2 := NextPair(files, fd1, fd2);
    while ch1 == ch2 && ch1 != -1
      invariant files.Ok() && -1 <= ch1 && -1 <= ch2
      invariant forall j :: 0 <= j < MAX_FILES && j != fd1 && j != fd2 ==> files.table[j] == old(files.table[j])
      invariant ViewOf(files.table[fd1]) == ViewOf(s1).(cursor := k + One(ch1 >= 0))
      invariant ViewOf(files.table[fd2]) == ViewOf(s2).(cursor := k + One(ch2 >= 0))
      invariant ch1 >= 0 ==> k < GetSize(s1.inode)
      invariant good ==> AgreeTo(data1, data2, k) && ch1 == ByteOrEnd(data1, k) && ch2 == ByteOrEnd(data2, k)
      decreases GetSize(s1.inode) - k
    {
      if good {
        AgreeUpTo(data1, data2, k);
      }
      k := k + 1;
      ch1, ch2 := NextPair(files, fd1, fd2);
    }
    if good {
      AgreeUpTo(data1, data2, k);
    }
    return ch1 == ch2;
  }

  // ---------------------------------------------------------------- opening two paths

  /** A slot just taken by Fileops_open for a path. */
  ghost predicate OpenedAt(disk: Disk, isize: nat, pathname: CString, s: Slot)
    requires GoodDisk(disk, isize)
  {
    && HasStream(disk, s) && StreamAt(disk, isize, pathname) == Some(StreamOf(disk, s.inode))
  }

  /** A table with at most one free slot has none left after one was taken; with two it still has one. */
  lemma AfterFirstOpen(before: seq<Slot>, fd: nat, after: seq<Slot>)
    requires fd < |before| == |after| && !Open(before[fd]) && Open(after[fd])
    requires after == before[fd := after[fd]]
    ensures FreeSlots(before) >= 2 <==> exists k :: 0 <= k < |after| && !Open(after[k])
  {
    FreeSlotsUpdate(before, fd, after[fd]);
    FreeSlotIff(after);
  }

  /** The two calls of Fileops_open; if the second fails the first file is closed again. On a good disk they succeed
      exactly if both paths resolve and two slots are free. */
  method OpenBoth(files: FileTable, pathname1: CString, pathname2: CString, frame: nat)
    returns (ok: bool, fd1: int, fd2: int)
    requires files.Ok()
    modifies files.table, files.fs.cache.plain, files.fs.cache.prot
    ensures files.Ok()
    ensures !ok ==> SameOpenFiles(old(files.table[..]), files.table[..])
    ensures ok ==>
              && 0 <= fd1 < MAX_FILES && 0 <= fd2 < MAX_FILES && fd1 != fd2
              && !old(Open(files.table[fd1])) && Open(files.table[fd1]) && files.table[fd1].cursor == 0
              && !old(Open(files.table[fd2])) && Open(files.table[fd2]) && files.table[fd2].cursor == 0
              && forall k :: 0 <= k < MAX_FILES && k != fd1 && k != fd2 ==> files.table[k] == old(files.table[k])
    ensures GoodDisk(files.fs.disk, files.fs.isize) ==>
              && (ok ==> OpenedAt(files.fs.disk, files.fs.isize, pathname1, files.table[fd1])
                         && OpenedAt(files.fs.disk, files.fs.isize, pathname2, files.table[fd2]))
              && ok == (FreeSlots(old(files.table[..])) >= 2
                        && StreamAt(files.fs.disk, files.fs.isize, pathname1).Some?
                        && StreamAt(files.fs.disk, files.fs.isize, pathname2).Some?)
  {
    ghost var before := files.table[..];
    FreeSlotIff(before);
    fd2 := -1;
    fd1 := files.OpenPath(pathname1, frame);
    if fd1 < 0 {
      return false, fd1, fd2;
    }
    AfterFirstOpen(before, fd1, files.table[..]);
    fd2 := files.OpenPath(pathname2, frame);
    if fd2 < 0 {
      var _ := files.Close(fd1);
      return false, fd1, fd2;
    }
    return true, fd1, fd2;
  }

  /** What the comparison of two paths with this many free slots answers. */
  ghost predicate ComparesSame(disk: Disk, isize: nat, free: nat, pathname1: CString, pathname2: CString)
    requires GoodDisk(disk, isize)
  {
    free >= 2 && StreamAt(disk, isize, pathname1).Some?
    && StreamAt(disk, isize, pathname1) == StreamAt(disk, isize, pathname2)
  }

  /** Open both paths, compare, close both: the table of open files ends as it began. */
  method ComparePaths(files: FileTable, pathname1: CString, pathname2: CString, frame: nat) returns (same: bool)
    requires files.Ok()
    modifies files.table, files.fs.cache.plain, files.fs.cache.prot
    ensures files.Ok() && SameOpenFiles(old(files.table[..]), files.table[..])
    ensures GoodDisk(files.fs.disk, files.fs.isize) ==>
              same == ComparesSame(files.fs.disk, files.fs.isize, FreeSlots(old(files.table[..])), pathname1, pathname2)
  {
    var ok, fd1, fd2 := OpenBoth(files, pathname1, pathname2, frame);
    if !ok {
      return false;
    }
    same := SameContents(files, fd1, fd2);
    var _ := files.Close(fd1);
    var _ := files.Close(fd2);
  }

  // ---------------------------------------------------------------- pathstore.c on values

  /** A stored path with the checksum of its contents; None stands for memory that was never written, as when
      duplicates are not discarded. */
  datatype Element = Element(pathname: CString, chksum: Option<Checksum>)

  function Names(elements: seq<Element>): (r: seq<CString>)
    ensures |r| == |elements| && forall k :: 0 <= k < |r| ==> r[k] == elements[k].pathname
  {
    seq(|elements|, k requires 0 <= k < |elements| => elements[k].pathname)
  }

  predicate AllHashed(elements: seq<Element>) {
    forall k :: 0 <= k < |elements| ==> elements[k].chksum.Some?
  }

  /** The checksum that Pathstore_path stores for an inode: zeros if it cannot be read. */
  ghost function ChecksumOf(disk: Disk, sha1: seq<Byte> -> Checksum, inode: Ino, igetRet: int): Checksum
    requires IsAllocated(inode) ==> WellFormed(disk, inode)
  {
    if igetRet >= 0 && IsAllocated(inode) then sha1(Contents(disk, inode)) else ZERO_CHECKSUM
  }

  /** The element has the same checksum and compares as the same file. */
  ghost predicate Matches(disk: Disk, isize: nat, free: nat, e: Element, pathname: CString, c: Checksum)
    requires GoodDisk(disk, isize)
  {
    e.chksum == Some(c) && ComparesSame(disk, isize, free, pathname, e.pathname)
  }

  ghost predicate MatchedBy(disk: Disk, isize: nat, free: nat, elements: seq<Element>, pathname: CString, c: Checksum)
    requires GoodDisk(disk, isize)
  {
    exists e :: e in elements && Matches(disk, isize, free, e, pathname, c)
  }

  ghost predicate Unmatched(disk: Disk, isize: nat, free: nat, elements: seq<Element>, pathname: CString, c: Checksum,
                            count: nat)
    requires GoodDisk(disk, isize)
  {
    forall k :: 0 <= k < count && k < |elements| ==> !Matches(disk, isize, free, elements[k], pathname, c)
  }

  lemma UnmatchedStep(disk: Disk, isize: nat, free: nat, elements: seq<Element>, pathname: CString, c: Checksum,
                      e: nat, same: bool)
    requires GoodDisk(disk, isize) && e < |elements|
    requires Unmatched(disk, isize, free, elements, pathname, c, e)
    requires same == Matches(disk, isize, free, elements[e], pathname, c)
    ensures same ==> MatchedBy(disk, isize, free, elements, pathname, c)
    ensures !same ==> Unmatched(disk, isize, free, elements, pathname, c, e + 1)
    ensures !same && e + 1 == |elements| ==> !MatchedBy(disk, isize, free, elements, pathname, c)
  {
  }

  /** The verdict of pathstore.c on a path, whatever is stored. */
  ghost predicate Rejects(disk: Disk, isize: nat, free: nat, elements: seq<Element>, pathname: CString, c: Checksum)
    requires GoodDisk(disk, isize)
  {
    pathname in Names(elements) || MatchedBy(disk, isize, free, elements, pathname, c)
  }

  /** The stored checksum is that of the file's contents. */
  ghost predicate HashedRight(disk: Disk, isize: nat, sha1: seq<Byte> -> Checksum, e: Element)
    requires GoodDisk(disk, isize)
  {
    var file := FileAt(disk, isize, e.pathname);
    file.Some? && e.chksum == Some(sha1(file.value))
  }

  /** Every stored checksum is that of the file's contents, and no two stored files are equal. */
  ghost predicate ConsistentStore(disk: Disk, isize: nat, sha1: seq<Byte> -> Checksum, elements: seq<Element>)
    requires GoodDisk(disk, isize)
  {
    && DistinctFiles(disk, isize, Names(elements))
    && forall e :: e in elements ==> HashedRight(disk, isize, sha1, e)
  }

  /** The inode is the one that the path resolves to, and it is allocated. */
  ghost predicate InodeOfPath(disk: Disk, isize: nat, pathname: CString, inode: Ino)
    requires GoodDisk(disk, isize)
  {
    var n := Resolve(disk, isize, pathname);
    ValidInumber(isize, n) && InodeOnDisk(disk, isize, n) == inode && IsAllocated(inode)
  }

  /** In a consistent store with two free slots, a path that is the name of its own inode is rejected exactly if a
      stored path has the same name or the same contents; a path that is accepted keeps the store consistent. */
  lemma RejectsDuplicatesOnly(disk: Disk, isize: nat, free: nat, sha1: seq<Byte> -> Checksum, elements: seq<Element>,
                              pathname: CString, inode: Ino)
    requires GoodDisk(disk, isize) && free >= 2 && ConsistentStore(disk, isize, sha1, elements)
    requires InodeOfPath(disk, isize, pathname, inode)
    ensures var c := ChecksumOf(disk, sha1, inode, SUCCESS);
            && (Rejects(disk, isize, free, elements, pathname, c) <==> !IsNew(disk, isize, Names(elements), pathname))
            && (IsNew(disk, isize, Names(elements), pathname) ==>
                  ConsistentStore(disk, isize, sha1, [Element(pathname, Some(c))] + elements))
  {
    var c := ChecksumOf(disk, sha1, inode, SUCCESS);
    if IsNew(disk, isize, Names(elements), pathname) {
      NewKeepsConsistent(disk, isize, sha1, elements, Element(pathname, Some(c)));
      NewIsNotRejected(disk, isize, free, sha1, elements, pathname, c);
    } else {
      OldIsRejected(disk, isize, free, sha1, elements, pathname, c);
    }
  }

  lemma NewKeepsConsistent(disk: Disk, isize: nat, sha1: seq<Byte> -> Checksum, elements: seq<Element>, e: Element)
    requires GoodDisk(disk, isize) && ConsistentStore(disk, isize, sha1, elements)
    requires IsNew(disk, isize, Names(elements), e.pathname) && HashedRight(disk, isize, sha1, e)
    ensures ConsistentStore(disk, isize, sha1, [e] + elements)
  {
    NewFileKeepsDistinct(disk, isize, Names(elements), e.pathname);
    assert Names([e] + elements) == [e.pathname] + Names(elements);
  }

  lemma StreamOfFile(disk: Disk, isize: nat, pathname: CString)
    requires GoodDisk(disk, isize) && FileAt(disk, isize, pathname).Some?
    ensures StreamAt(disk, isize, pathname) == FileAt(disk, isize, pathname)
  {
  }

  lemma NewIsNotRejected(disk: Disk, isize: nat, free: nat, sha1: seq<Byte> -> Checksum, elements: seq<Element>,
                         pathname: CString, c: Checksum)
    requires GoodDisk(disk, isize) && ConsistentStore(disk, isize, sha1, elements)
    requires IsNew(disk, isize, Names(elements), pathname) && FileAt(disk, isize, pathname).Some?
    ensures !Rejects(disk, isize, free, elements, pathname, c)
  {
    forall k | 0 <= k < |elements|
      ensures !Matches(disk, isize, free, elements[k], pathname, c)
    {
      var e := elements[k];
      assert e in elements && HashedRight(disk, isize, sha1, e) && Names(elements)[k] == e.pathname;
      StreamOfFile(disk, isize, pathname);
      StreamOfFile(disk, isize, e.pathname);
    }
  }

  lemma OldIsRejected(disk: Disk, isize: nat, free: nat, sha1: seq<Byte> -> Checksum, elements: seq<Element>,
                      pathname: CString, c: Checksum)
    requires GoodDisk(disk, isize) && free >= 2 && ConsistentStore(disk, isize, sha1, elements)
    requires !IsNew(disk, isize, Names(elements), pathname) && FileAt(disk, isize, pathname).Some?
    requires c == sha1(FileAt(disk, isize, pathname).value)
    ensures Rejects(disk, isize, free, elements, pathname, c)
  {
    var k :| 0 <= k < |elements| && (Names(elements)[k] == pathname
             || FileAt(disk, isize, Names(elements)[k]) == FileAt(disk, isize, pathname));
    if Names(elements)[k] != pathname {
      var e := elements[k];
      assert e in elements && HashedRight(disk, isize, sha1, e);
      StreamOfFile(disk, isize, pathname);
      StreamOfFile(disk, isize, e.pathname);
      assert Matches(disk, isize, free, e, pathname, c);
    }
  }

  // ---------------------------------------------------------------- pathstore.c

  class Pathstore {
    const files: FileTable
    const sha1: seq<Byte> -> Checksum
    var elements: seq<Element>   // newest first

    constructor (files: FileTable, sha1: seq<Byte> -> Checksum)
      ensures this.files == files && this.sha1 == sha1 && elements == []
    {
      this.files := files;
      this.sha1 := sha1;
      elements := [];
    }

    /** simplePathnameInStoreCheck: the position of the first element with that name, counted from 1, or -1. */
    method SimplePathnameInStoreCheck(pathname: CString) returns (count: int)
      ensures count == -1 || 1 <= count <= |elements|
      ensures count > 0 ==> elements[count - 1].pathname == pathname
      ensures forall k :: 0 <= k < (if count > 0 then count - 1 else |elements|) ==> elements[k].pathname != pathname
    {
      var e := 0;
      while e < |elements|
        invariant 0 <= e <= |elements| && forall k :: 0 <= k < e ==> elements[k].pathname != pathname
      {
        if elements[e].pathname == pathname {
          return e + 1;
        }
        e := e + 1;
      }
      return -1;
    }

    /** IsSameFile: the content comparison is made only if the checksums agree. */
    method IsSameFile(pathname: CString, e: Element, incoming: Checksum, frame: nat) returns (same: bool)
      requires files.Ok()
      modifies files.table, files.fs.cache.plain, files.fs.cache.prot
      ensures files.Ok() && SameOpenFiles(old(files.table[..]), files.table[..])
      ensures GoodDisk(files.fs.disk, files.fs.isize) && e.chksum.Some? ==>
                same == Matches(files.fs.disk, files.fs.isize, FreeSlots(old(files.table[..])), e, pathname, incoming)
    {
      var known: Checksum := *;
      if e.chksum != None {
        known := e.chksum.value;
      }
      if known != incoming {
        return false;
      }
      same := ComparePaths(files, pathname, e.pathname, frame);
    }

    method SameFileIsInStore(pathname: CString, chksum: Checksum, frame: nat) returns (found: bool)
      requires files.Ok()
      modifies files.table, files.fs.cache.plain, files.fs.cache.prot
      ensures files.Ok() && SameOpenFiles(old(files.table[..]), files.table[..])
      ensures GoodDisk(files.fs.disk, files.fs.isize) && AllHashed(elements) ==>
                found == MatchedBy(files.fs.disk, files.fs.isize, FreeSlots(old(files.table[..])), elements, pathname,
                                   chksum)
    {
      ghost var before := files.table[..];
      ghost var good := GoodDisk(files.fs.disk, files.fs.isize) && AllHashed(elements);
      var e := 0;
      while e < |elements|
        invariant 0 <= e <= |elements| && files.Ok() && SameOpenFiles(before, files.table[..])
        invariant good ==> Unmatched(files.fs.disk, files.fs.isize, FreeSlots(before), elements, pathname, chksum, e)
      {
        SameOpenFilesSameFree(before, files.table[..]);
        var same := IsSameFile(pathname, elements[e], chksum, frame);
        if good {
          UnmatchedStep(files.fs.disk, files.fs.isize, FreeSlots(before), elements, pathname, chksum, e, same);
        }
        if same {
          return true;
        }
        e := e + 1;
      }
      return false;
    }

    /** The test that Pathstore_path makes when duplicates are discarded. */
    method IsDuplicate(pathname: CString, inode: Ino, inp: nat, igetRet: int, frame: nat)
      returns (duplicate: bool, chksum: Option<Checksum>)
      requires files.Ok()
      modifies files.table, files.fs.cache.plain, files.fs.cache.prot
      ensures files.Ok() && SameOpenFiles(old(files.table[..]), files.table[..])
      ensures pathname in Names(elements) ==> duplicate
      ensures !duplicate ==> chksum.Some?
      ensures GoodDisk(files.fs.disk, files.fs.isize) && AllHashed(elements) ==>
                (IsAllocated(inode) ==> WellFormed(files.fs.disk, inode)) ==>
                  var c := ChecksumOf(files.fs.disk, sha1, inode, igetRet);
                  && duplicate == Rejects(files.fs.disk, files.fs.isize, FreeSlots(old(files.table[..])), elements,
                                          pathname, c)
                  && (!duplicate ==> chksum == Some(c))
    {
      var count := SimplePathnameInStoreCheck(pathname);
      if count > 0 {
        assert Names(elements)[count - 1] == pathname;
        return true, None;
      }
      assert pathname !in Names(elements);
      var ok, data := HashedBytes(files.fs, inode, inp, igetRet);
      var incoming := if ok then sha1(data) else ZERO_CHECKSUM;
      duplicate := SameFileIsInStore(pathname, incoming, frame);
      chksum := Some(incoming);
    }

    /** Pathstore_path. Whatever the image, the store only grows, at its front and by the given name, and a name that
        is stored is rejected; on a good disk the verdict is that of the value-level rule. */
    method Path(pathname: CString, discardDuplicateFiles: bool, inode: Ino, inp: nat, igetRet: int, frame: nat)
      returns (stored: bool)
      requires files.Ok()
      modifies this, files.table, files.fs.cache.plain, files.fs.cache.prot
      ensures files.Ok() && SameOpenFiles(old(files.table[..]), files.table[..])
      ensures stored ==> elements != [] && elements[0].pathname == pathname && elements == [elements[0]] + old(elements)
      ensures stored ==> elements[0].chksum.Some? == discardDuplicateFiles
      ensures !stored ==> elements == old(elements) && discardDuplicateFiles
      ensures discardDuplicateFiles && pathname in Names(old(elements)) ==> !stored
      ensures GoodDisk(files.fs.disk, files.fs.isize) && discardDuplicateFiles && AllHashed(old(elements)) ==>
                (IsAllocated(inode) ==> WellFormed(files.fs.disk, inode)) ==>
                  var c := ChecksumOf(files.fs.disk, sha1, inode, igetRet);
                  && stored == !Rejects(files.fs.disk, files.fs.isize, FreeSlots(old(files.table[..])), old(elements),
                                        pathname, c)
                  && (stored ==> elements[0] == Element(pathname, Some(c)))
    {
      var chksum: Option<Checksum> := None;
      if discardDuplicateFiles {
        var duplicate;
        duplicate, chksum := IsDuplicate(pathname, inode, inp, igetRet, frame);
        if duplicate {
          return false;
        }
      }
      elements := [Element(pathname, chksum)] + elements;
      return true;
    }
  }

  // ---------------------------------------------------------------- pathstore-original.c

  /** The original verdict on a pair: the same name, or the same checksum of the allocated inodes and the same bytes. */
  ghost predicate SameByOriginal(disk: Disk, isize: nat, free: nat, sha1: seq<Byte> -> Checksum,
                                 pathname1: CString, pathname2: CString)
    requires GoodDisk(disk, isize)
  {
    pathname1 == pathname2
    || (FileAt(disk, isize, pathname1).Some? && FileAt(disk, isize, pathname2).Some?
        && sha1(FileAt(disk, isize, pathname1).value) == sha1(FileAt(disk, isize, pathname2).value)
        && ComparesSame(disk, isize, free, pathname1, pathname2))
  }

  ghost predicate RejectsByOriginal(disk: Disk, isize: nat, free: nat, sha1: seq<Byte> -> Checksum,
                                    names: seq<CString>, pathname: CString)
    requires GoodDisk(disk, isize)
  {
    exists k :: 0 <= k < |names| && SameByOriginal(disk, isize, free, sha1, pathname, names[k])
  }

  ghost predicate NoneSame(disk: Disk, isize: nat, free: nat, sha1: seq<Byte> -> Checksum, names: seq<CString>,
                           pathname: CString, count: nat)
    requires GoodDisk(disk, isize)
  {
    forall k :: 0 <= k < count && k < |names| ==> !SameByOriginal(disk, isize, free, sha1, pathname, names[k])
  }

  lemma NoneSameStep(disk: Disk, isize: nat, free: nat, sha1: seq<Byte> -> Checksum, names: seq<CString>,
                     pathname: CString, e: nat, same: bool)
    requires GoodDisk(disk, isize) && e < |names|
    requires NoneSame(disk, isize, free, sha1, names, pathname, e)
    requires same == SameByOriginal(disk, isize, free, sha1, pathname, names[e])
    ensures same ==> RejectsByOriginal(disk, isize, free, sha1, names, pathname)
    ensures !same ==> NoneSame(disk, isize, free, sha1, names, pathname, e + 1)
    ensures !same && e + 1 == |names| ==> !RejectsByOriginal(disk, isize, free, sha1, names, pathname)
  {
  }

  /** chksumfile_bypathname. */
  method ChksumByPathname(files: FileTable, sha1: seq<Byte> -> Checksum, pathname: CString, frame: nat)
    returns (ok: bool, chksum: Checksum)
    requires files.Ok()
    modifies files.fs.cache.plain, files.fs.cache.prot
    ensures files.Ok()
    ensures GoodDisk(files.fs.disk, files.fs.isize) ==>
              match FileAt(files.fs.disk, files.fs.isize, pathname)
              case Some(data) => ok && chksum == sha1(data)
              case None => !ok
  {
    var inumber := PathnameLookup(files.fs, pathname, frame);
    if inumber < 0 {
      return false, ZERO_CHECKSUM;
    }
    var data;
    ok, data := HashedBytesByInumber(files.fs, inumber, frame);
    chksum := sha1(data);
  }

  class PathstoreOriginal {
    const files: FileTable
    const sha1: seq<Byte> -> Checksum
    var elements: seq<CString>   // newest first

    constructor (files: FileTable, sha1: seq<Byte> -> Checksum)
      ensures this.files == files && this.sha1 == sha1 && elements == []
    {
      this.files := files;
      this.sha1 := sha1;
      elements := [];
    }

    method IsSameFile(pathname1: CString, pathname2: CString, frame: nat) returns (same: bool)
      requires files.Ok()
      modifies files.table, files.fs.cache.plain, files.fs.cache.prot
      ensures files.Ok() && SameOpenFiles(old(files.table[..]), files.table[..])
      ensures GoodDisk(files.fs.disk, files.fs.isize) ==>
                same == SameByOriginal(files.fs.disk, files.fs.isize, FreeSlots(old(files.table[..])), sha1,
                                       pathname1, pathname2)
    {
      if pathname1 == pathname2 {
        return true;
      }
      var ok1, chksum1 := ChksumByPathname(files, sha1, pathname1, frame);
      if !ok1 {
        return false;
      }
      var ok2, chksum2 := ChksumByPathname(files, sha1, pathname2, frame);
      if !ok2 {
        return false;
      }
      if chksum1 != chksum2 {
        return false;
      }
      same := ComparePaths(files, pathname1, pathname2, frame);
    }

    method SameFileIsInStore(pathname: CString, frame: nat) returns (found: bool)
      requires files.Ok()
      modifies files.table, files.fs.cache.plain, files.fs.cache.prot
      ensures files.Ok() && SameOpenFiles(old(files.table[..]), files.table[..])
      ensures GoodDisk(files.fs.disk, files.fs.isize) ==>
                found == RejectsByOriginal(files.fs.disk, files.fs.isize, FreeSlots(old(files.table[..])), sha1,
                                           elements, pathname)
    {
      ghost var before := files.table[..];
      var e := 0;
      while e < |elements|
        invariant 0 <= e <= |elements| && files.Ok() && SameOpenFiles(before, files.table[..])
        invariant GoodDisk(files.fs.disk, files.fs.isize) ==>
                    NoneSame(files.fs.disk, files.fs.isize, FreeSlots(before), sha1, elements, pathname, e)
      {
        SameOpenFilesSameFree(before, files.table[..]);
        var same := IsSameFile(pathname, elements[e], frame);
        if GoodDisk(files.fs.disk, files.fs.isize) {
          NoneSameStep(files.fs.disk, files.fs.isize, FreeSlots(before), sha1, elements, pathname, e, same);
        }
        if same {
          return true;
        }
        e := e + 1;
      }
      return false;
    }

    /** Pathstore_path of the original. */
    method Path(pathname: CString, discardDuplicateFiles: bool, frame: nat) returns (stored: bool)
      requires files.Ok()
      modifies this, files.table, files.fs.cache.plain, files.fs.cache.prot
      ensures files.Ok() && SameOpenFiles(old(files.table[..]), files.table[..])
      ensures elements == if stored then [pathname] + old(elements) else old(elements)
      ensures !discardDuplicateFiles ==> stored
      ensures GoodDisk(files.fs.disk, files.fs.isize) && discardDuplicateFiles ==>
                stored == !RejectsByOriginal(files.fs.disk, files.fs.isize, FreeSlots(old(files.table[..])), sha1,
                                             old(elements), pathname)
    {
      if discardDuplicateFiles {
        var found := SameFileIsInStore(pathname, frame);
        if found {
          return false;
        }
      }
      elements := [pathname] + elements;
      return true;
    }
  }

  /** Stored checksums change nothing: in a consistent store, with two free slots and paths that are the names of the
      inodes they were stored with, both versions give the same verdict, the one of the simple rule. */
  lemma VersionsAgree(disk: Disk, isize: nat, free: nat, sha1: seq<Byte> -> Checksum, elements: seq<Element>,
                      pathname: CString, inode: Ino)
    requires GoodDisk(disk, isize) && free >= 2 && ConsistentStore(disk, isize, sha1, elements)
    requires InodeOfPath(disk, isize, pathname, inode)
    ensures RejectsByOriginal(disk, isize, free, sha1, Names(elements), pathname)
            <==> Rejects(disk, isize, free, elements, pathname, ChecksumOf(disk, sha1, inode, SUCCESS))
    ensures RejectsByOriginal(disk, isize, free, sha1, Names(elements), pathname)
            <==> !IsNew(disk, isize, Names(elements), pathname)
  {
    RejectsDuplicatesOnly(disk, isize, free, sha1, elements, pathname, inode);
    var names := Names(elements);
    forall k | 0 <= k < |names|
      ensures SameByOriginal(disk, isize, free, sha1, pathname, names[k])
              <==> names[k] == pathname || FileAt(disk, isize, names[k]) == FileAt(disk, isize, pathname)
    {
      var e := elements[k];
      assert e in elements && HashedRight(disk, isize, sha1, e);
      OriginalOnPair(disk, isize, free, sha1, pathname, names[k]);
    }
  }

  lemma OriginalOnPair(disk: Disk, isize: nat, free: nat, sha1: seq<Byte> -> Checksum, pathname1: CString,
                       pathname2: CString)
    requires GoodDisk(disk, isize) && free >= 2
    requires FileAt(disk, isize, pathname1).Some? && FileAt(disk, isize, pathname2).Some?
    ensures SameByOriginal(disk, isize, free, sha1, pathname1, pathname2)
            <==> pathname1 == pathname2 || FileAt(disk, isize, pathname1) == FileAt(disk, isize, pathname2)
  {
    StreamOfFile(disk, isize, pathname1);
    StreamOfFile(disk, isize, pathname2);
  }
}
