/**
 * The table of open files (assign2/fileops.c). A slot prefetches up to PREFETCHED blocks at a time; through any
 * interleaving of descriptors, Fileops_getchar is nothing but a cursor on a flat byte string.
 */
module Fileops {
  import opened Basics
  import opened DivMod
  import opened Disksim
  import opened CacheSpec
  import opened CacheTheorems
  import opened CacheMem
  import opened Inode
  import opened File
  import opened Directory
  import opened Pathname

  const MAX_FILES := 64

  /** A prefetched block and the return value of the read that fetched it. */
  datatype Prefetched = Prefetched(readBytes: int, buf: Block)

  datatype Slot = Slot(
    pathname: Option<CString>,   // None if the slot is not used
    cursor: int,
    inumber: int,
    inode: Ino,
    inp: nat,
    igetRet: int,
    maxBlock: int,               // the last block that has been prefetched
    content: seq<Prefetched>)

  /** The slot without its prefetched blocks. */
  datatype View = View(pathname: Option<CString>, cursor: int, inumber: int, inode: Ino, inp: nat, igetRet: int)

  function ViewOf(s: Slot): View {
    View(s.pathname, s.cursor, s.inumber, s.inode, s.inp, s.igetRet)
  }

  predicate Open(s: Slot) { s.pathname.Some? }

  // ---------------------------------------------------------------- the flat form

  /** Fileops_getchar on a flat byte string: the next byte, or -1 for ever from the end on. */
  function FlatGetchar(v: View, data: seq<Byte>): (View, int) {
    if v.pathname.None? || v.inumber < 0 || !IsAllocated(v.inode) || !(0 <= v.cursor < |data|) then (v, -1)
    else (v.(cursor := v.cursor + 1), data[v.cursor] as int)
  }

  /** The view after `n` calls of getchar. */
  function FlatAfter(v: View, data: seq<Byte>, n: nat): View {
    if n == 0 then v else FlatGetchar(FlatAfter(v, data, n - 1), data).0
  }

  /** On an open file the call number n + 1 returns byte n from where the cursor stood, and -1 past the end. */
  lemma {:induction false} NthGetchar(v: View, data: seq<Byte>, n: nat)
    requires v.pathname.Some? && v.inumber >= 0 && IsAllocated(v.inode) && 0 <= v.cursor <= |data|
    ensures FlatAfter(v, data, n)
            == v.(cursor := if v.cursor + n < |data| then v.cursor + n else |data|)
    ensures FlatGetchar(FlatAfter(v, data, n), data).1
            == if v.cursor + n < |data| then data[v.cursor + n] as int else -1
  {
    if n > 0 {
      NthGetchar(v, data, n - 1);
    }
  }

  predicate CanRead(s: Slot) {
    s.pathname.Some? && s.inumber >= 0 && IsAllocated(s.inode) && s.igetRet >= 0
  }

  /** At most `length` elements of `data` from `from` on. */
  function Stretch(data: seq<Byte>, from: int, length: nat): seq<Byte> {
    if !(0 <= from <= |data|) then []
    else data[from..if from + length < |data| then from + length else |data|]
  }

  predicate IsStretch(data: seq<Byte>, from: int, part: seq<Byte>) {
    0 <= from && from + |part| <= |data| && part == data[from..from + |part|]
  }

  /** The bytes of a slot's file, if they are known. */
  ghost function FlatOf(disk: Disk, s: Slot): Option<seq<Byte>> {
    if CanRead(s) && WellFormed(disk, s.inode) then Some(Contents(disk, s.inode)) else None
  }

  /** The data have been read from where the cursor of `s` stood, and it has moved to `now`. */
  ghost predicate ReadSoFar(s: Slot, now: Slot, data: seq<Byte>, flat: Option<seq<Byte>>) {
    && ViewOf(now) == ViewOf(s).(cursor := s.cursor + |data|)
    && (data != [] ==> Open(s) && IsAllocated(s.inode) && now.cursor <= GetSize(s.inode))
    && (flat.Some? ==> IsStretch(flat.value, s.cursor, data))
  }

  lemma StretchGrows(data: seq<Byte>, from: int, part: seq<Byte>, b: Byte)
    requires IsStretch(data, from, part)
    ensures from + |part| < |data| && data[from + |part|] == b ==> IsStretch(data, from, part + [b])
  {
  }

  /** The number of slots that are not in use, among the first `n`. */
  function FreeBelow(slots: seq<Slot>, n: nat): nat
    requires n <= |slots|
  {
    if n == 0 then 0 else FreeBelow(slots, n - 1) + (if Open(slots[n - 1]) then 0 else 1)
  }

  function FreeSlots(slots: seq<Slot>): nat { FreeBelow(slots, |slots|) }

  lemma {:induction false} FreeBelowUpdate(slots: seq<Slot>, fd: nat, s: Slot, n: nat)
    requires fd < |slots| && n <= |slots|
    ensures FreeBelow(slots[fd := s], n)
            == FreeBelow(slots, n)
               + (if fd < n then (if Open(s) then 0 else 1) - (if Open(slots[fd]) then 0 else 1) else 0)
  {
    if n > 0 {
      FreeBelowUpdate(slots, fd, s, n - 1);
    }
  }

  lemma FreeSlotsUpdate(slots: seq<Slot>, fd: nat, s: Slot)
    requires fd < |slots|
    ensures FreeSlots(slots[fd := s])
            == FreeSlots(slots) - (if Open(slots[fd]) then 0 else 1) + (if Open(s) then 0 else 1)
  {
    FreeBelowUpdate(slots, fd, s, |slots|);
  }

  /** The same slots are in use, and those that are hold what they held. */
  predicate SameOpenFiles(before: seq<Slot>, after: seq<Slot>) {
    |after| == |before| && forall k :: 0 <= k < |before| ==>
      Open(after[k]) == Open(before[k]) && (Open(before[k]) ==> after[k] == before[k])
  }

  lemma {:induction false} SameFreeBelow(before: seq<Slot>, after: seq<Slot>, n: nat)
    requires |after| == |before| && forall k :: 0 <= k < |before| ==> Open(after[k]) == Open(before[k])
    requires n <= |before|
    ensures FreeBelow(after, n) == FreeBelow(before, n)
  {
    if n > 0 {
      SameFreeBelow(before, after, n - 1);
    }
  }

  lemma SameOpenFilesSameFree(before: seq<Slot>, after: seq<Slot>)
    requires |after| == |before| && forall k :: 0 <= k < |before| ==> Open(after[k]) == Open(before[k])
    ensures FreeSlots(after) == FreeSlots(before)
  {
    SameFreeBelow(before, after, |before|);
  }

  lemma {:induction false} FreeBelowIff(slots: seq<Slot>, n: nat)
    requires n <= |slots|
    ensures FreeBelow(slots, n) > 0 <==> exists k :: 0 <= k < n && !Open(slots[k])
  {
    if n > 0 {
      FreeBelowIff(slots, n - 1);
    }
  }

  lemma FreeSlotIff(slots: seq<Slot>)
    ensures FreeSlots(slots) > 0 <==> exists k :: 0 <= k < |slots| && !Open(slots[k])
  {
    FreeBelowIff(slots, |slots|);
  }

  // ---------------------------------------------------------------- what a slot promises

  /** An entry of the store holds -1 or the right count for its block, and the right bytes if it can be read. */
  ghost predicate EntryOk(disk: Disk, inode: Ino, igetRet: int, blockNum: nat, p: Prefetched) {
    && (p.readBytes == FAILURE || p.readBytes == ValidBytes(GetSize(inode), blockNum))
    && (igetRet >= 0 && Readable(disk, inode, blockNum) ==>
          p.readBytes == ValidBytes(GetSize(inode), blockNum) && p.buf == BlockContent(disk, inode, blockNum))
  }

  /** The first block of the prefetched stretch that ends at `maxBlock`. */
  function StoreBase(maxBlock: int, prefetched: nat): int
    requires prefetched >= 1
  {
    if maxBlock < 0 then 0 else maxBlock - Mod(maxBlock, prefetched)
  }

  /** Block `b` is in the store, at its index modulo the size of the store. */
  ghost predicate BlockStored(disk: Disk, prefetched: nat, s: Slot, b: nat)
    requires prefetched >= 1
  {
    |s.content| == prefetched && EntryOk(disk, s.inode, s.igetRet, b, s.content[Mod(b, prefetched)])
  }

  /** The store holds the blocks from its base to maxBlock, each at its index modulo the size of the store, and the
      cursor is within it or about to leave it. */
  ghost predicate SlotOk(disk: Disk, prefetched: nat, s: Slot)
    requires prefetched >= 1
  {
    var size := GetSize(s.inode);
    var last := NumBlocks(size) - 1;
    var base := StoreBase(s.maxBlock, prefetched);
    && |s.content| == prefetched
    && (Open(s) ==>
          && 0 <= s.cursor <= size
          && -1 <= s.maxBlock <= last
          && (Mod(s.maxBlock + 1, prefetched) == 0 || s.maxBlock == last)
          && base * SECTOR_SIZE <= s.cursor <= (s.maxBlock + 1) * SECTOR_SIZE
          && (forall b :: base <= b <= s.maxBlock ==> BlockStored(disk, prefetched, s, b)))
  }

  ghost predicate SlotsOk(disk: Disk, prefetched: nat, slots: seq<Slot>, n: nat)
    requires prefetched >= 1 && n <= |slots|
  {
    n == 0 || (SlotOk(disk, prefetched, slots[n - 1]) && SlotsOk(disk, prefetched, slots, n - 1))
  }

  lemma {:induction false} SlotsOkAt(disk: Disk, prefetched: nat, slots: seq<Slot>, n: nat, fd: nat)
    requires prefetched >= 1 && n <= |slots| && SlotsOk(disk, prefetched, slots, n) && fd < n
    ensures SlotOk(disk, prefetched, slots[fd])
  {
    if fd < n - 1 {
      SlotsOkAt(disk, prefetched, slots, n - 1, fd);
    }
  }

  lemma {:induction false} SlotsOkUpdate(disk: Disk, prefetched: nat, slots: seq<Slot>, n: nat, fd: nat, s: Slot)
    requires prefetched >= 1 && n <= |slots| && SlotsOk(disk, prefetched, slots, n)
    requires fd < |slots| && SlotOk(disk, prefetched, s)
    ensures SlotsOk(disk, prefetched, slots[fd := s], n)
  {
    if n > 0 {
      SlotsOkUpdate(disk, prefetched, slots, n - 1, fd, s);
    }
  }

  lemma {:induction false} ClosedSlotsOk(disk: Disk, prefetched: nat, slots: seq<Slot>, n: nat)
    requires prefetched >= 1 && n <= |slots|
    requires forall fd :: 0 <= fd < |slots| ==> !Open(slots[fd]) && |slots[fd].content| == prefetched
    ensures SlotsOk(disk, prefetched, slots, n)
  {
    if n > 0 {
      ClosedSlotsOk(disk, prefetched, slots, n - 1);
    }
  }

  class FileTable {
    const fs: UnixFileSystem
    const prefetched: nat
    const table: array<Slot>

    constructor (fs: UnixFileSystem, prefetched: nat)
      requires prefetched >= 1 && fs.Ok()
      ensures this.fs == fs && this.prefetched == prefetched && fresh(table)
      ensures Ok() && forall fd :: 0 <= fd < MAX_FILES ==> !Open(table[fd])
    {
      this.fs := fs;
      this.prefetched := prefetched;
      var zeros: Block := seq(SECTOR_SIZE, i => 0);
      var store := seq(prefetched, i => Prefetched(0, zeros));
      var inode: Ino := INode(0, 0, 0, [0, 0, 0, 0, 0, 0, 0, 0]);
      table := new Slot[MAX_FILES](i => Slot(None, 0, 0, inode, 0, 0, 0, store));
      new;
      ClosedSlotsOk(fs.disk, prefetched, table[..], table.Length);
    }

    ghost predicate Ok()
      reads table, fs.cache.plain, fs.cache.prot
    {
      && fs.Ok()
      && table.Length == MAX_FILES
      && prefetched >= 1
      && SlotsOk(fs.disk, prefetched, table[..], table.Length)
    }

    /** The address of openFileTable[fd].in, which keys the protected cache lines that getchar fills. */
    function SlotKey(fd: nat): nat { fd + 1 }

    // -------------------------------------------------------------- reading

    predicate PrefetchNeeded(fd: nat, blockNum: int)
      requires fd < table.Length
      reads table
    {
      table[fd].maxBlock < blockNum
    }

    /** prefetch_file_contents: the next stretch of blocks, but none past the end of the file. */
    method PrefetchFileContents(fd: nat)
      requires Ok() && fd < MAX_FILES && Open(table[fd])
      requires table[fd].cursor < GetSize(table[fd].inode)
      requires table[fd].cursor / SECTOR_SIZE > table[fd].maxBlock
      modifies table, fs.cache.plain, fs.cache.prot
      ensures Ok()
      ensures forall k :: 0 <= k < MAX_FILES && k != fd ==> table[k] == old(table[k])
      ensures ViewOf(table[fd]) == old(ViewOf(table[fd]))
      ensures StoreBase(table[fd].maxBlock, prefetched) <= table[fd].cursor / SECTOR_SIZE <= table[fd].maxBlock
    {
      ghost var s := table[fd];
      SlotsOkAt(fs.disk, prefetched, table[..], table.Length, fd);
      var size := GetSize(table[fd].inode);
      var numBlocks := (size + SECTOR_SIZE - 1) / SECTOR_SIZE;
      var next := table[fd].maxBlock + 1;
      StretchStart(s.cursor, s.maxBlock, size, prefetched);
      if numBlocks - next <= prefetched {
        table[fd] := table[fd].(maxBlock := numBlocks - 1);
      } else {
        table[fd] := table[fd].(maxBlock := next + prefetched - 1);
      }
      ReadStretch(fd, next);
      FilledStore(fs.disk, prefetched, table[fd], next);
      SlotsOkUpdate(fs.disk, prefetched, old(table[..]), table.Length, fd, table[fd]);
      assert table[..] == old(table[..])[fd := table[fd]];
    }

    /** The loop of prefetch_file_contents: block `first + i` goes to index i. */
    method ReadStretch(fd: nat, first: nat)
      requires fs.Ok() && fd < table.Length && |table[fd].content| == prefetched
      requires first <= table[fd].maxBlock < first + prefetched
      modifies table, fs.cache.plain, fs.cache.prot
      ensures fs.Ok()
      ensures table[..] == old(table[..])[fd := old(table[fd]).(content := table[fd].content)]
      ensures |table[fd].content| == prefetched
      ensures forall i :: 0 <= i <= table[fd].maxBlock - first ==>
                EntryOk(fs.disk, table[fd].inode, table[fd].igetRet, first + i, table[fd].content[i])
    {
      ghost var s := table[fd];
      var next, index := first, 0;
      while next <= table[fd].maxBlock
        invariant 0 <= index <= prefetched && next == first + index <= s.maxBlock + 1
        invariant fs.Ok()
        invariant table[..] == old(table[..])[fd := s.(content := table[fd].content)]
        invariant |table[fd].content| == prefetched
        invariant forall i :: 0 <= i < index ==> EntryOk(fs.disk, s.inode, s.igetRet, first + i, table[fd].content[i])
      {
        var readBytes, buf := GetBlock(fs, next, table[fd].content[index].buf, table[fd].inode, SlotKey(fd),
                                       table[fd].igetRet);
        table[fd] := table[fd].(content := table[fd].content[index := Prefetched(readBytes, buf)]);
        next := next + 1;
        index := index + 1;
      }
    }

    /** The block that the cursor is in, prefetched first if need be. */
    method CurrentBlock(fd: nat, blockNum: nat) returns (p: Prefetched)
      requires Ok() && fd < MAX_FILES && Open(table[fd])
      requires table[fd].cursor < GetSize(table[fd].inode) && blockNum == table[fd].cursor / SECTOR_SIZE
      modifies table, fs.cache.plain, fs.cache.prot
      ensures Ok()
      ensures forall k :: 0 <= k < MAX_FILES && k != fd ==> table[k] == old(table[k])
      ensures ViewOf(table[fd]) == old(ViewOf(table[fd]))
      ensures SlotOk(fs.disk, prefetched, table[fd].(cursor := table[fd].cursor + 1))
      ensures EntryOk(fs.disk, table[fd].inode, table[fd].igetRet, blockNum, p)
    {
      SlotsOkAt(fs.disk, prefetched, table[..], table.Length, fd);
      if PrefetchNeeded(fd, blockNum) {
        PrefetchFileContents(fd);
        SlotsOkAt(fs.disk, prefetched, table[..], table.Length, fd);
      } else {
        CursorInStore(table[fd].cursor, table[fd].maxBlock, prefetched);
      }
      ModIsRemainder(blockNum, prefetched);
      assert BlockStored(fs.disk, prefetched, table[fd], blockNum);
      p := table[fd].content[blockNum % prefetched];
      CursorMoves(fs.disk, prefetched, table[fd]);
    }

    method Getchar(fd: nat) returns (ch: int)
      requires Ok() && fd < MAX_FILES
      modifies table, fs.cache.plain, fs.cache.prot
      ensures Ok() && -1 <= ch < 256
      ensures forall k :: 0 <= k < MAX_FILES && k != fd ==> table[k] == old(table[k])
      ensures ch == -1 ==> ViewOf(table[fd]) == old(ViewOf(table[fd]))
      ensures ch >= 0 ==>
                && old(Open(table[fd])) && old(table[fd].cursor) < GetSize(old(table[fd].inode))
                && old(IsAllocated(table[fd].inode))
                && ViewOf(table[fd]) == old(ViewOf(table[fd])).(cursor := old(table[fd].cursor) + 1)
      ensures old(table[fd].igetRet) >= 0 && WellFormed(fs.disk, old(table[fd].inode)) ==>
                (ViewOf(table[fd]), ch) == FlatGetchar(old(ViewOf(table[fd])), Contents(fs.disk, old(table[fd].inode)))
    {
      if table[fd].pathname.None? {
        return -1;
      }
      if table[fd].inumber < 0 {
        return -1;
      }
      if !IsAllocated(table[fd].inode) {
        return -1;
      }
      var size := GetSize(table[fd].inode);
      if table[fd].cursor >= size {
        return -1;
      }
      ch := NextByte(fd);
      if old(table[fd].igetRet) >= 0 && WellFormed(fs.disk, old(table[fd].inode)) {
        SlotsOkAt(fs.disk, prefetched, old(table[..]), table.Length, fd);
      }
    }

    /** The rest of Fileops_getchar, for an open file that has not ended: the byte under the cursor. */
    method NextByte(fd: nat) returns (ch: int)
      requires Ok() && fd < MAX_FILES && Open(table[fd]) && table[fd].cursor < GetSize(table[fd].inode)
      modifies table, fs.cache.plain, fs.cache.prot
      ensures Ok() && -1 <= ch < 256 && 0 <= old(table[fd].cursor)
      ensures forall k :: 0 <= k < MAX_FILES && k != fd ==> table[k] == old(table[k])
      ensures ch == -1 ==> ViewOf(table[fd]) == old(ViewOf(table[fd]))
      ensures ch >= 0 ==> ViewOf(table[fd]) == old(ViewOf(table[fd])).(cursor := old(table[fd].cursor) + 1)
      ensures old(table[fd].igetRet) >= 0 && WellFormed(fs.disk, old(table[fd].inode)) ==>
                ch == Contents(fs.disk, old(table[fd].inode))[old(table[fd].cursor)]
    {
      SlotsOkAt(fs.disk, prefetched, table[..], table.Length, fd);
      var blockNum := table[fd].cursor / SECTOR_SIZE;
      var blockOffset := table[fd].cursor % SECTOR_SIZE;
      var entry := CurrentBlock(fd, blockNum);
      var bytesMoved := entry.readBytes;
      ByteUnderCursor(fs.disk, table[fd], entry);
      if bytesMoved < 0 {
        return -1;
      }
      assert bytesMoved > blockOffset;   // line 213, on every image
      SlotsOkUpdate(fs.disk, prefetched, table[..], table.Length, fd, table[fd].(cursor := table[fd].cursor + 1));
      table[fd] := table[fd].(cursor := table[fd].cursor + 1);
      return entry.buf[blockOffset];
    }

    /** Fileops_read: bytes up to the end of the file or the length asked for. */
    method Read(fd: nat, length: nat) returns (data: seq<Byte>)
      requires Ok() && fd < MAX_FILES
      modifies table, fs.cache.plain, fs.cache.prot
      ensures Ok() && |data| <= length
      ensures forall k :: 0 <= k < MAX_FILES && k != fd ==> table[k] == old(table[k])
      ensures ViewOf(table[fd]) == old(ViewOf(table[fd])).(cursor := old(table[fd].cursor) + |data|)
      ensures data != [] ==>
                && old(Open(table[fd]) && IsAllocated(table[fd].inode))
                && table[fd].cursor <= GetSize(old(table[fd].inode))
      ensures old(CanRead(table[fd])) && WellFormed(fs.disk, old(table[fd].inode)) ==>
                data == Stretch(Contents(fs.disk, old(table[fd].inode)), old(table[fd].cursor), length)
    {
      data := [];
      ghost var s := table[fd];
      ghost var flat := FlatOf(fs.disk, s);
      SlotsOkAt(fs.disk, prefetched, table[..], table.Length, fd);
      for i := 0 to length
        invariant Ok() && |data| == i
        invariant forall k :: 0 <= k < MAX_FILES && k != fd ==> table[k] == old(table[k])
        invariant ReadSoFar(s, table[fd], data, flat)
      {
        var more;
        more, data := ReadOne(fd, data, s, flat);
        if !more {
          return;
        }
      }
    }

    /** The body of that loop: one more byte, unless the file has ended. */
    method ReadOne(fd: nat, data0: seq<Byte>, ghost s: Slot, ghost flat: Option<seq<Byte>>)
      returns (more: bool, data: seq<Byte>)
      requires Ok() && fd < MAX_FILES && ReadSoFar(s, table[fd], data0, flat) && flat == FlatOf(fs.disk, s)
      modifies table, fs.cache.plain, fs.cache.prot
      ensures Ok() && |data| == |data0| + if more then 1 else 0
      ensures forall k :: 0 <= k < MAX_FILES && k != fd ==> table[k] == old(table[k])
      ensures ReadSoFar(s, table[fd], data, flat)
      ensures !more && flat.Some? ==> s.cursor + |data| == |flat.value|
    {
      var ch := Getchar(fd);
      if ch == -1 {
        return false, data0;
      }
      if flat.Some? {
        StretchGrows(flat.value, s.cursor, data0, ch);
      }
      return true, data0 + [ch];
    }

    method Tell(fd: nat) returns (r: int)
      requires Ok() && fd < MAX_FILES
      ensures r == if Open(table[fd]) then table[fd].cursor else -1
    {
      if table[fd].pathname.None? {
        return -1;
      }
      return table[fd].cursor;
    }

    // -------------------------------------------------------------- opening and closing

    /** optimized_Fileops_open: the first free slot, positioned at the start of the file with nothing prefetched. */
    method OptimizedOpen(pathname: CString, inumber: int, inode: Ino, inp: nat, igetRet: int) returns (fd: int)
      requires Ok()
      modifies table
      ensures Ok() && -1 <= fd < MAX_FILES
      ensures inumber < 0 || igetRet < 0 ==> fd == -1
      ensures fd == -1 <==> inumber < 0 || igetRet < 0 || forall k :: 0 <= k < MAX_FILES ==> old(Open(table[k]))
      ensures fd == -1 ==> table[..] == old(table[..])
      ensures fd >= 0 ==>
                && !old(Open(table[fd])) && (forall k :: 0 <= k < fd ==> old(Open(table[k])))
                && ViewOf(table[fd]) == View(Some(pathname), 0, inumber, inode, inp, 0)
                && table[..] == old(table[..])[fd := table[fd]]
    {
      if inumber < 0 {
        return -1;
      }
      if igetRet < 0 {
        return -1;
      }
      fd := FreeSlot();
      if fd >= MAX_FILES {
        return -1;
      }
      SlotsOkAt(fs.disk, prefetched, table[..], table.Length, fd);
      table[fd] := Slot(Some(pathname), 0, inumber, inode, inp, 0, -1, table[fd].content);
      FreshSlot(fs.disk, prefetched, table[fd]);
      SlotsOkUpdate(fs.disk, prefetched, old(table[..]), table.Length, fd, table[fd]);
      assert table[..] == old(table[..])[fd := table[fd]];
    }

    /** Fileops_open: resolve the path, fetch the inode, take the first free slot. */
    method OpenPath(pathname: CString, frame: nat) returns (fd: int)
      requires Ok()
      modifies table, fs.cache.plain, fs.cache.prot
      ensures Ok() && -1 <= fd < MAX_FILES
      ensures fd == -1 ==> table[..] == old(table[..])
      ensures fd >= 0 ==>
                && !old(Open(table[fd])) && Open(table[fd]) && table[fd].cursor == 0
                && table[..] == old(table[..])[fd := table[fd]]
      ensures GoodDisk(fs.disk, fs.isize) ==>
                var n := Resolve(fs.disk, fs.isize, pathname);
                && (fd >= 0 <==> ValidInumber(fs.isize, n) && exists k :: 0 <= k < MAX_FILES && !old(Open(table[k])))
                && (fd >= 0 ==>
                      ViewOf(table[fd]) == View(Some(pathname), 0, n, InodeOnDisk(fs.disk, fs.isize, n), frame, 0))
    {
      var inode: Ino := *;
      var inumber := PathnameLookup(fs, pathname, frame);
      if inumber < 0 {
        return -1;
      }
      var err;
      err, inode := IGet(fs, inumber, inode);
      if err < 0 {
        return -1;
      }
      fd := OptimizedOpen(pathname, inumber, inode, frame, SUCCESS);
    }

    /** optimized_Fileops_isfile: fetch the inode and say whether it is an allocated regular file. */
    method OptimizedIsFile(inumber: int, before: Ino) returns (isFile: bool, inode: Ino, igetRet: int)
      requires Ok()
      modifies fs.cache.plain, fs.cache.prot
      ensures Ok() && table[..] == old(table[..])
      ensures isFile == (igetRet >= 0 && IsAllocated(inode) && IsRegular(inode))
      ensures igetRet >= 0 ==> ValidInumber(fs.isize, inumber)
      ensures ValidInumber(fs.isize, inumber) && TableOnDisk(fs.disk, fs.isize) ==>
                igetRet >= 0 && inode == InodeOnDisk(fs.disk, fs.isize, inumber)
    {
      igetRet, inode := IGet(fs, inumber, before);
      if igetRet < 0 {
        return false, inode, igetRet;
      }
      if !IsAllocated(inode) || !IsRegular(inode) {
        return false, inode, igetRet;
      }
      return true, inode, igetRet;
    }

    method FreeSlot() returns (fd: nat)
      requires Ok()
      ensures fd <= MAX_FILES && (forall k :: 0 <= k < fd ==> Open(table[k]))
      ensures fd < MAX_FILES ==> !Open(table[fd])
    {
      fd := 0;
      while fd < MAX_FILES
        invariant fd <= MAX_FILES && forall k :: 0 <= k < fd ==> Open(table[k])
      {
        if table[fd].pathname.None? {
          break;
        }
        fd := fd + 1;
      }
    }

    /** Fileops_close: the slot becomes free, and the cache lines owned by its `inp` become free with it. */
    method Close(fd: nat) returns (ret: int)
      requires Ok() && fd < MAX_FILES
      modifies table, fs.cache.prot
      ensures Ok() && ret == if old(Open(table[fd])) then 0 else -1
      ensures table[..] == old(table[..])[fd := table[fd]]
      ensures table[fd] == old(table[fd]).(pathname := None)
      ensures old(Open(table[fd])) && fs.cache.isAllocated ==>
                fs.cache.Contents() == Erase(old(fs.cache.Contents()), old(table[fd].inp))
      ensures !old(Open(table[fd])) || !fs.cache.isAllocated ==> fs.cache.Contents() == old(fs.cache.Contents())
    {
      if table[fd].pathname.None? {
        return -1;
      }
      SlotsOkAt(fs.disk, prefetched, table[..], table.Length, fd);
      SlotsOkUpdate(fs.disk, prefetched, table[..], table.Length, fd, table[fd].(pathname := None));
      table[fd] := table[fd].(pathname := None);
      fs.cache.EraseSectors(table[fd].inp);
      ghost var zeros: Block := seq(SECTOR_SIZE, i => 0);
      if fs.cache.isAllocated {
        PerformKeepsCoherent(old(fs.cache.Contents()), fs.disk, EraseOwner(table[fd].inp), zeros);
      }
      return 0;
    }
  }

  /** An entry for the block of the cursor: a read that did not fail covers the cursor, and on a well-formed file it
      did not fail and holds the byte. */
  lemma ByteUnderCursor(disk: Disk, s: Slot, p: Prefetched)
    requires 0 <= s.cursor < GetSize(s.inode) && EntryOk(disk, s.inode, s.igetRet, s.cursor / SECTOR_SIZE, p)
    ensures p.readBytes >= 0 ==> p.readBytes > s.cursor % SECTOR_SIZE
    ensures s.igetRet >= 0 && WellFormed(disk, s.inode) ==>
              p.readBytes >= 0 && p.buf[s.cursor % SECTOR_SIZE] == Contents(disk, s.inode)[s.cursor]
  {
    ValidBytesExactly(GetSize(s.inode), s.cursor / SECTOR_SIZE);
    if WellFormed(disk, s.inode) {
      ContentsAt(disk, s.inode, s.cursor);
    }
  }

  lemma FreshSlot(disk: Disk, prefetched: nat, s: Slot)
    requires prefetched >= 1 && |s.content| == prefetched && s.cursor == 0 && s.maxBlock == -1
    ensures SlotOk(disk, prefetched, s)
  {
  }

  /** Moving the cursor on within the stretch keeps the slot's promise. */
  lemma CursorMoves(disk: Disk, prefetched: nat, s: Slot)
    requires prefetched >= 1 && SlotOk(disk, prefetched, s) && Open(s)
    requires s.cursor < GetSize(s.inode) && s.cursor / SECTOR_SIZE <= s.maxBlock
    ensures SlotOk(disk, prefetched, s.(cursor := s.cursor + 1))
  {
    var t := s.(cursor := s.cursor + 1);
    forall b | StoreBase(s.maxBlock, prefetched) <= b <= s.maxBlock ensures BlockStored(disk, prefetched, t, b) {
      assert BlockStored(disk, prefetched, s, b);
    }
  }

  // ---------------------------------------------------------------- arithmetic of the stretches

  /** A sequential reader leaves the store exactly at its end, where a new stretch starts. */
  lemma StretchStart(cursor: int, maxBlock: int, size: nat, prefetched: nat)
    requires prefetched >= 1 && 0 <= cursor < size && -1 <= maxBlock <= NumBlocks(size) - 1
    requires cursor <= (maxBlock + 1) * SECTOR_SIZE && cursor / SECTOR_SIZE > maxBlock
    requires Mod(maxBlock + 1, prefetched) == 0 || maxBlock == NumBlocks(size) - 1
    ensures cursor == (maxBlock + 1) * SECTOR_SIZE && Mod(maxBlock + 1, prefetched) == 0
    ensures maxBlock + 1 <= NumBlocks(size) - 1
  {
  }

  /** A stretch that was read from its start, block `first + i` at index i, makes the slot's promise true. */
  lemma FilledStore(disk: Disk, prefetched: nat, s: Slot, first: nat)
    requires prefetched >= 1 && Mod(first, prefetched) == 0 && first <= s.maxBlock < first + prefetched
    requires |s.content| == prefetched && 0 <= s.cursor <= GetSize(s.inode)
    requires first * SECTOR_SIZE <= s.cursor <= (s.maxBlock + 1) * SECTOR_SIZE
    requires s.maxBlock == first + prefetched - 1 <= NumBlocks(GetSize(s.inode)) - 1
             || s.maxBlock == NumBlocks(GetSize(s.inode)) - 1
    requires forall i :: 0 <= i <= s.maxBlock - first ==>
               EntryOk(disk, s.inode, s.igetRet, first + i, s.content[i])
    ensures SlotOk(disk, prefetched, s) && StoreBase(s.maxBlock, prefetched) == first
  {
    ModInStretch(first, s.maxBlock - first, prefetched);
    forall b | first <= b <= s.maxBlock
      ensures BlockStored(disk, prefetched, s, b)
    {
      ModInStretch(first, b - first, prefetched);
      assert EntryOk(disk, s.inode, s.igetRet, first + (b - first), s.content[b - first]);
    }
    if s.maxBlock == first + prefetched - 1 {
      assert Mod(first + prefetched, prefetched) == Mod(first, prefetched);
    }
  }

  lemma CursorInStore(cursor: int, maxBlock: int, prefetched: nat)
    requires prefetched >= 1 && cursor >= 0 && cursor / SECTOR_SIZE <= maxBlock
    requires StoreBase(maxBlock, prefetched) * SECTOR_SIZE <= cursor
    ensures StoreBase(maxBlock, prefetched) <= cursor / SECTOR_SIZE <= maxBlock
  {
  }
}
