/**
 * The sector cache itself, updated in place (assign2/cachemem.c), and the cached reads of assign2/diskimg.c.
 * Every operation is proved to change memory exactly as its counterpart in CacheSpec does.
 */
module CacheMem {
  import opened Basics
  import opened Disksim
  import opened CacheSpec
  import opened CacheTheorems

  const CACHE_ERROR := -1

  class Cache {
    const isAllocated: bool
    const inodeCacheEnabled: bool
    const plain: array<Line>
    const prot: array<InodeLine>

    /** CacheMem_Init: a size that is negative, zero, too big or not a multiple of the page size leaves the cache
        unallocated (a mapping of length zero fails). */
    constructor (sizeInKB: int)
      ensures Valid() && fresh(plain) && fresh(prot)
      ensures isAllocated <==> AcceptedSize(sizeInKB)
      ensures isAllocated ==> Contents() == Blank(MaxCacheLine(sizeInKB), InodeLines(sizeInKB))
    {
      var ok := !(sizeInKB < 0 || sizeInKB > CACHEMEM_MAX_SIZE / 1024 || sizeInKB % 4 != 0) && sizeInKB != 0;
      if ok {
        RegionsDisjoint(sizeInKB);
      }
      var zeros: Block := seq(SECTOR_SIZE, i => 0);
      isAllocated := ok;
      inodeCacheEnabled := ok && !(sizeInKB < MINIMUM_INODE_CACHE_SPACE);
      plain := new Line[if ok then MaxCacheLine(sizeInKB) else 0](i => Line(0, zeros));
      prot := new InodeLine[if ok then InodeLines(sizeInKB) else 0](i => InodeLine(0, 0, 0, zeros));
      new;
      if ok {
        assert Contents() == Blank(MaxCacheLine(sizeInKB), InodeLines(sizeInKB));
      }
    }

    ghost predicate Valid() {
      && (isAllocated ==> plain.Length > 0)
      && prot.Length == (if inodeCacheEnabled then INODE_CACHE_LINES else 0)
      && (inodeCacheEnabled ==> isAllocated)
    }

    ghost function Contents(): Mem
      reads plain, prot
    {
      Mem(plain[..], prot[..])
    }

    /** An unallocated cache holds nothing; an allocated one agrees with the disk. */
    ghost predicate Agrees(disk: Disk)
      reads plain, prot
    {
      Valid() && (isAllocated ==> Coherent(Contents(), disk))
    }

    // -------------------------------------------------------------- fetching

    method FetchSector(sector: int, before: Block) returns (ret: int, buf: Block)
      requires Valid()
      ensures !isAllocated ==> ret == CACHE_ERROR && buf == before
      ensures isAllocated ==>
                match Fetch(Contents(), sector)
                case Some(held) => ret == SECTOR_SIZE && buf == held
                case None => ret == CACHE_ERROR && buf == before
    {
      if isAllocated {
        var index := Index(sector, plain.Length);
        if plain[index].sector == sector {
          return SECTOR_SIZE, plain[index].buf;
        }
        ret, buf := FetchSectorInInodeCache(sector, before);
        return;
      }
      return CACHE_ERROR, before;
    }

    method FetchSectorInInodeCache(sector: int, before: Block) returns (ret: int, buf: Block)
      requires Valid()
      ensures var i := First(SectorIs(sector), prot[..]);
              if i < prot.Length then ret == SECTOR_SIZE && buf == prot[i].buf else ret == CACHE_ERROR && buf == before
    {
      if isAllocated && inodeCacheEnabled {
        for index := 0 to INODE_CACHE_LINES
          invariant forall k :: 0 <= k < index ==> prot[k].sector != sector
        {
          if prot[index].sector == sector {
            return SECTOR_SIZE, prot[index].buf;
          }
        }
      }
      return CACHE_ERROR, before;
    }

    // -------------------------------------------------------------- saving

    method SaveSector(sector: int, buf: Block)
      requires Valid()
      modifies plain
      ensures !isAllocated ==> Contents() == old(Contents())
      ensures isAllocated ==> Contents() == SavePlain(old(Contents()), sector, buf)
    {
      if isAllocated {
        plain[Index(sector, plain.Length)] := Line(sector, buf);
      }
    }

    method SaveFileSector(line: InodeLine) returns (ret: int)
      requires Valid() && inodeCacheEnabled
      modifies plain, prot
      ensures match SaveFile(old(Contents()), line)
              case Some(m) => ret == 1 && Contents() == m
              case None => ret == -1 && Contents() == old(Contents())
    {
      for index := 0 to INODE_CACHE_LINES
        invariant Contents() == old(Contents())
        invariant forall k :: 0 <= k < index ==> !FreeForFile(line.inp)(prot[k])
      {
        // an empty line
        if prot[index].inp == 0 {
          prot[index] := line;
          return 1;
        }
        // a stale file's line
        if !IsDirectory(prot[index].kind) && prot[index].inp != line.inp {
          prot[index] := line;
          return 1;
        }
      }
      for index := 0 to INODE_CACHE_LINES
        invariant Contents() == old(Contents())
        invariant forall k :: 0 <= k < index ==> !Singly(prot[k])
      {
        if IsSingly(prot[index].kind) {
          SaveSector(prot[index].sector, prot[index].buf);
          prot[index] := line;
          return 1;
        }
      }
      return -1;
    }

    method SaveDirectorySector(line: InodeLine) returns (ret: int)
      requires Valid() && inodeCacheEnabled
      modifies plain, prot
      ensures match SaveDirectory(old(Contents()), line)
              case Some(m) => ret == 1 && Contents() == m
              case None => ret == -1 && Contents() == old(Contents())
    {
      for index := 0 to INODE_CACHE_LINES
        invariant Contents() == old(Contents())
        invariant forall k :: 0 <= k < index ==> !SinglyOf(line.inp)(prot[k])
      {
        if prot[index].inp == line.inp && IsSingly(prot[index].kind) {
          prot[index] := line;
          return 1;
        }
      }
      for index := 0 to INODE_CACHE_LINES
        invariant Contents() == old(Contents())
        invariant forall k :: 0 <= k < index ==> !FreeForDirectory(prot[k])
      {
        if prot[index].inp == 0 {
          prot[index] := line;
          return 1;
        }
        if !IsDirectory(prot[index].kind) {
          prot[index] := line;
          return 1;
        }
      }
      for index := 0 to INODE_CACHE_LINES
        invariant Contents() == old(Contents())
        invariant forall k :: 0 <= k < index ==> !Singly(prot[k])
      {
        if IsSingly(prot[index].kind) {
          SaveSector(prot[index].sector, prot[index].buf);
          prot[index] := line;
          return 1;
        }
      }
      return -1;
    }

    method SaveSectorInInodeCache(line: InodeLine)
      requires Valid()
      modifies plain, prot
      ensures !isAllocated ==> Contents() == old(Contents())
      ensures isAllocated ==> Contents() == SaveInode(old(Contents()), line)
    {
      if isAllocated && inodeCacheEnabled {
        var ret;
        if IsDirectory(line.kind) {
          ret := SaveDirectorySector(line);
        } else {
          ret := SaveFileSector(line);
        }
        if ret < 0 {
          SaveSector(line.sector, line.buf);
        }
      } else if isAllocated {
        SaveSector(line.sector, line.buf);
      }
    }

    method EraseSectors(inp: nat)
      requires Valid()
      modifies prot
      ensures !isAllocated ==> Contents() == old(Contents())
      ensures isAllocated ==> Contents() == Erase(old(Contents()), inp)
    {
      if isAllocated && inodeCacheEnabled {
        for index := 0 to INODE_CACHE_LINES
          invariant forall k :: 0 <= k < prot.Length ==>
                      prot[k] == if k < index && old(prot[k].inp) == inp then old(prot[k]).(inp := 0) else old(prot[k])
        {
          if prot[index].inp == inp {
            prot[index] := prot[index].(inp := 0);
          }
        }
      }
    }

    // -------------------------------------------------------------- diskimg.c

    /** diskimg_readsector: sector 0 is never cached; a failed read is not cached. */
    method ReadSector(disk: Disk, sector: int, before: Block) returns (ret: int, buf: Block)
      requires Agrees(disk)
      modifies plain, prot
      ensures Agrees(disk)
      ensures isAllocated ==> (Contents(), (ret, buf)) == Perform(old(Contents()), disk, Sector(sector), before)
      ensures sector < |disk| ==> (ret, buf) == Disksim.ReadSector(disk, sector, before)
    {
      if sector != 0 {
        ret, buf := FetchSector(sector, before);
        if ret != CACHE_ERROR {
          CachedReadIfOnDisk(disk, Sector(sector), before);
          return;
        }
      }
      var r := Disksim.ReadSector(disk, sector, before);
      ret, buf := r.0, r.1;
      if ret != -1 && sector != 0 {
        SaveSector(sector, buf);
      }
      if isAllocated {
        PerformKeepsCoherent(old(Contents()), disk, Sector(sector), before);
      }
    }

    /** diskimg_readsector_inode: the same, saving into the protected region. */
    method ReadSectorInode(disk: Disk, sector: int, before: Block, inp: nat, kind: int) returns (ret: int, buf: Block)
      requires Agrees(disk)
      modifies plain, prot
      ensures Agrees(disk)
      ensures isAllocated ==>
                (Contents(), (ret, buf)) == Perform(old(Contents()), disk, InodeSector(sector, inp, kind), before)
      ensures sector < |disk| ==> (ret, buf) == Disksim.ReadSector(disk, sector, before)
    {
      if sector != 0 {
        ret, buf := FetchSector(sector, before);
        if ret != CACHE_ERROR {
          CachedReadIfOnDisk(disk, InodeSector(sector, inp, kind), before);
          return;
        }
      }
      var r := Disksim.ReadSector(disk, sector, before);
      ret, buf := r.0, r.1;
      if ret != -1 && sector != 0 {
        SaveSectorInInodeCache(InodeLine(sector, inp, kind, buf));
      }
      if isAllocated {
        PerformKeepsCoherent(old(Contents()), disk, InodeSector(sector, inp, kind), before);
      }
    }

    lemma CachedReadIfOnDisk(disk: Disk, a: Access, before: Block)
      requires Agrees(disk) && isAllocated && !a.EraseOwner?
      ensures a.sector < |disk| ==> Perform(Contents(), disk, a, before).1 == Disksim.ReadSector(disk, a.sector, before)
    {
      if a.sector < |disk| {
        CachedReadIsDiskRead(Contents(), disk, a, before);
      }
    }
  }
}
