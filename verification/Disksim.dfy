/** The disk under the file system: a read-only sequence of 512-byte sectors (assign2/disksim.c). */
module Disksim {
  import opened Basics

  const SECTOR_SIZE := 512

  type Block = b: seq<Byte> | |b| == SECTOR_SIZE witness seq(SECTOR_SIZE, i => 0)

  type Disk = seq<Block>

  /** disksim_readsector: seeking before the start fails, reading past the end transfers nothing. */
  function ReadSector(disk: Disk, sector: int, buf: Block): (int, Block) {
    if sector < 0 then (-1, buf)
    else if sector < |disk| then (SECTOR_SIZE, disk[sector])
    else (0, buf)
  }
}
