/** What any run of accesses keeps true of the sector cache. */
module CacheTheorems {
  import opened Basics
  import opened Disksim
  import opened CacheSpec

  // ---------------------------------------------------------------- the cache agrees with the disk

  /** A line that claims a sector of the disk holds that sector. Sector 0 marks an empty line. */
  ghost predicate LineOk(disk: Disk, sector: int, buf: Block) {
    sector >= 0 && (0 < sector < |disk| ==> buf == disk[sector])
  }

  ghost predicate Coherent(m: Mem, disk: Disk) {
    && |m.plain| > 0
    && (forall i :: 0 <= i < |m.plain| ==> LineOk(disk, m.plain[i].sector, m.plain[i].buf))
    && (forall i :: 0 <= i < |m.prot| ==> LineOk(disk, m.prot[i].sector, m.prot[i].buf))
  }

  lemma SaveInodeKeepsCoherent(m: Mem, disk: Disk, line: InodeLine)
    requires Coherent(m, disk) && LineOk(disk, line.sector, line.buf)
    ensures Coherent(SaveInode(m, line), disk)
  {
  }

  lemma PerformKeepsCoherent(m: Mem, disk: Disk, a: Access, buf: Block)
    requires Coherent(m, disk)
    ensures Coherent(Perform(m, disk, a, buf).0, disk)
  {
    if a.InodeSector? {
      var r := ReadSector(disk, a.sector, buf);
      if r.0 != -1 && a.sector != 0 {
        SaveInodeKeepsCoherent(m, disk, InodeLine(a.sector, a.inp, a.kind, r.1));
      }
    }
  }

  /** Over any run, each line of either region that claims a sector of the disk holds exactly that sector. */
  lemma {:induction false} RunKeepsCoherent(m: Mem, disk: Disk, run: seq<(Access, Block)>)
    requires Coherent(m, disk)
    ensures Coherent(PerformAll(m, disk, run), disk)
    decreases |run|
  {
    if run != [] {
      PerformKeepsCoherent(m, disk, run[0].0, run[0].1);
      RunKeepsCoherent(Perform(m, disk, run[0].0, run[0].1).0, disk, run[1..]);
    }
  }

  /** A read through the cache returns what the disk itself would, for every sector that is on the disk and for
      every sector number below 0. */
  lemma CachedReadIsDiskRead(m: Mem, disk: Disk, a: Access, buf: Block)
    requires Coherent(m, disk) && !a.EraseOwner? && a.sector < |disk|
    ensures Perform(m, disk, a, buf).1 == ReadSector(disk, a.sector, buf)
  {
  }

  /** A freshly mapped cache: memory that is all zeros. */
  function Blank(plainLines: nat, protLines: nat): Mem {
    var zeros := seq(SECTOR_SIZE, i => 0);
    Mem(seq(plainLines, i => Line(0, zeros)), seq(protLines, i => InodeLine(0, 0, 0, zeros)))
  }

  /** The cache is transparent for a sector, in every run and whichever buffers are passed, exactly when the
      sector is not past the end of the disk: such a read transfers nothing, and is cached as if it had. */
  ghost predicate Transparent(disk: Disk, sector: int, plainLines: nat, protLines: nat)
    requires plainLines > 0
  {
    forall run: seq<(Access, Block)>, buf: Block ::
      Perform(PerformAll(Blank(plainLines, protLines), disk, run), disk, Sector(sector), buf).1
      == ReadSector(disk, sector, buf)
  }

  lemma TransparentExactlyOnDisk(disk: Disk, sector: int, plainLines: nat, protLines: nat)
    requires plainLines > 0
    ensures Transparent(disk, sector, plainLines, protLines) <==> sector < |disk| || sector == 0
  {
    var m := Blank(plainLines, protLines);
    if sector < |disk| || sector == 0 {
      forall run: seq<(Access, Block)>, buf: Block
        ensures Perform(PerformAll(m, disk, run), disk, Sector(sector), buf).1 == ReadSector(disk, sector, buf)
      {
        RunKeepsCoherent(m, disk, run);
        if sector < |disk| {
          CachedReadIsDiskRead(PerformAll(m, disk, run), disk, Sector(sector), buf);
        }
      }
    } else {
      var buf: Block := seq(SECTOR_SIZE, i => 0);
      var run := [(Sector(sector), buf)];
      ReadPastEndIsCached(m, disk, sector, buf);
      assert PerformAll(m, disk, run) == Perform(m, disk, Sector(sector), buf).0 by {
        assert run[1..] == [];
      }
    }
  }

  /** The first read past the end returns 0, the second one SECTOR_SIZE with whatever the first buffer held. */
  lemma ReadPastEndIsCached(m: Mem, disk: Disk, sector: int, buf: Block)
    requires |m.plain| > 0 && sector >= |disk| && sector > 0 && Fetch(m, sector).None?
    ensures Perform(m, disk, Sector(sector), buf).1 == (0, buf)
    ensures var m' := Perform(m, disk, Sector(sector), buf).0;
            forall other: Block :: Perform(m', disk, Sector(sector), other).1 == (SECTOR_SIZE, buf)
  {
  }

  // ---------------------------------------------------------------- what the protected region protects

  /** A block of indices that a directory reached through double indirection, whose owner is still open. */
  predicate Pinned(l: InodeLine) {
    l.inp != 0 && IsDirectory(l.kind) && !IsSingly(l.kind)
  }

  lemma SaveKeepsPinned(m: Mem, line: InodeLine, i: nat)
    requires |m.plain| > 0 && i < |m.prot| && Pinned(m.prot[i])
    ensures SaveInode(m, line).prot[i] == m.prot[i]
  {
  }

  /** No run displaces such a line until its owner is erased, whatever other files and directories are read. */
  lemma {:induction false} PinnedSurvives(m: Mem, disk: Disk, run: seq<(Access, Block)>, i: nat)
    requires |m.plain| > 0 && i < |m.prot| && Pinned(m.prot[i])
    requires forall k :: 0 <= k < |run| ==> run[k].0 != EraseOwner(m.prot[i].inp)
    ensures PerformAll(m, disk, run).prot[i] == m.prot[i]
    decreases |run|
  {
    if run != [] {
      var a, buf := run[0].0, run[0].1;
      if a.InodeSector? {
        SaveKeepsPinned(m, InodeLine(a.sector, a.inp, a.kind, ReadSector(disk, a.sector, buf).1), i);
      }
      assert Perform(m, disk, a, buf).0.prot[i] == m.prot[i];
      assert forall k :: 0 <= k < |run[1..]| ==> run[1..][k] == run[k + 1];
      PinnedSurvives(Perform(m, disk, a, buf).0, disk, run[1..], i);
    }
  }

  /** Erasing the owner is what gives the line up: it is then free for the next file or directory. */
  lemma EraseReleases(m: Mem, i: nat)
    requires i < |m.prot| && m.prot[i].inp != 0
    ensures FreeForDirectory(Erase(m, m.prot[i].inp).prot[i])
    ensures forall inp :: FreeForFile(inp)(Erase(m, m.prot[i].inp).prot[i])
    ensures forall k :: 0 <= k < |m.prot| && m.prot[k].inp != m.prot[i].inp ==>
              Erase(m, m.prot[i].inp).prot[k] == m.prot[k]
  {
  }

  // ---------------------------------------------------------------- what is saved stays at hand

  /** The type and the level of indirection that inode.c packs into one int come out again. */
  lemma KindReadBack(directory: bool, level: nat)
    requires level < 65536
    ensures (IsDirectory(Kind(directory, level)) <==> directory) && (IsSingly(Kind(directory, level)) <==> level == 1)
  {
  }

  /** After a read of a sector of the disk, other than sector 0, the next one is served from the cache. */
  lemma ReadIsCached(m: Mem, disk: Disk, a: Access, buf: Block)
    requires Coherent(m, disk) && !a.EraseOwner? && 0 < a.sector < |disk|
    ensures Fetch(Perform(m, disk, a, buf).0, a.sector) == Some(disk[a.sector])
  {
    var after := Perform(m, disk, a, buf).0;
    PerformKeepsCoherent(m, disk, a, buf);
    assert Fetch(after, a.sector).Some? by {
      if a.InodeSector? && Fetch(m, a.sector).None? {
        SavedIsHeld(m, InodeLine(a.sector, a.inp, a.kind, disk[a.sector]));
      }
    }
  }

  lemma PutIsHeld(m: Mem, i: nat, line: InodeLine)
    requires |m.plain| > 0 && i < |m.prot|
    ensures Fetch(Put(m, i, line), line.sector).Some?
  {
    assert SectorIs(line.sector)(Put(m, i, line).prot[i]);
  }

  lemma SavedIsHeld(m: Mem, line: InodeLine)
    requires |m.plain| > 0
    ensures Fetch(SaveInode(m, line), line.sector).Some?
  {
    forall i | 0 <= i < |m.prot|
      ensures Fetch(Put(m, i, line), line.sector).Some? && Fetch(Demote(m, i, line), line.sector).Some?
    {
      PutIsHeld(m, i, line);
      PutIsHeld(SavePlain(m, m.prot[i].sector, m.prot[i].buf), i, line);
    }
  }

  /** A save that displaces a block of indices that its owner still needs, a directory's of another owner or a file's
      own, leaves it within reach: it moves to the direct-mapped region. */
  lemma DisplacedIsFetched(m: Mem, line: InodeLine, k: nat)
    requires |m.plain| > 0 && k < |m.prot| && m.prot[k].inp != 0
    requires if IsDirectory(line.kind) then IsDirectory(m.prot[k].kind) && m.prot[k].inp != line.inp
             else IsDirectory(m.prot[k].kind) || m.prot[k].inp == line.inp
    ensures SaveInode(m, line).prot[k] == m.prot[k]
            || Fetch(SaveInode(m, line), m.prot[k].sector) == Some(m.prot[k].buf)
  {
  }

  /** A save gives the protected region up only if it is full of lines that may not be displaced: then the block goes to
      the direct-mapped region, and nothing protected changes. */
  lemma NotProtectedExactly(m: Mem, line: InodeLine)
    requires |m.plain| > 0
    ensures (forall k :: 0 <= k < |m.prot| ==> SaveInode(m, line).prot[k] == m.prot[k] && m.prot[k] != line) ==>
              SaveInode(m, line) == SavePlain(m, line.sector, line.buf)
              && forall k :: 0 <= k < |m.prot| ==>
                   m.prot[k].inp != 0 && !IsSingly(m.prot[k].kind)
                   && (IsDirectory(m.prot[k].kind) || (!IsDirectory(line.kind) && m.prot[k].inp == line.inp))
  {
  }

  // ---------------------------------------------------------------- where a block goes

  /** Line `k` is the first of the protected region that may be used in this way. */
  ghost predicate FirstUsable(m: Mem, usable: InodeLine -> bool, k: nat) {
    k < |m.prot| && usable(m.prot[k]) && forall i :: 0 <= i < k ==> !usable(m.prot[i])
  }

  ghost predicate NoneUsable(m: Mem, usable: InodeLine -> bool) {
    forall i :: 0 <= i < |m.prot| ==> !usable(m.prot[i])
  }

  /** A directory first gives up its own singly-indirect block, and otherwise takes the first line that is free or
      holds a file's block. */
  lemma DirectoryPlace(m: Mem, line: InodeLine, k: nat)
    requires |m.plain| > 0 && IsDirectory(line.kind)
    ensures FirstUsable(m, (l: InodeLine) => l.inp == line.inp && IsSingly(l.kind), k) ==>
              SaveInode(m, line) == m.(prot := m.prot[k := line])
    ensures NoneUsable(m, (l: InodeLine) => l.inp == line.inp && IsSingly(l.kind))
            && FirstUsable(m, (l: InodeLine) => l.inp == 0 || !IsDirectory(l.kind), k) ==>
              SaveInode(m, line) == m.(prot := m.prot[k := line])
  {
  }

  /** A file takes the first line that is free or holds another file's block. */
  lemma FilePlace(m: Mem, line: InodeLine, k: nat)
    requires |m.plain| > 0 && !IsDirectory(line.kind)
    ensures FirstUsable(m, (l: InodeLine) => l.inp == 0 || (!IsDirectory(l.kind) && l.inp != line.inp), k) ==>
              SaveInode(m, line) == m.(prot := m.prot[k := line])
  {
  }
}
