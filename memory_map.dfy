/**
 * Regions of a target's memory map as the flash engine sees them: flash
 * regions, which carry the erase-sector size (the GDB memory-map
 * "blocksize" property), and RAM regions, into which flash algorithms are
 * uploaded.
 */
module MemoryMap {

  datatype MemoryRegion =
    | FlashRegion(start: int, length: int, blocksize: int)
    | RamRegion(start: int, length: int)

  /** First address past the region. */
  function End(r: MemoryRegion): int {
    r.start + r.length
  }

  predicate Contains(r: MemoryRegion, address: int) {
    r.start <= address < End(r)
  }

  /** The `count` bytes starting at `address` all lie inside `r`. */
  predicate ContainsRange(r: MemoryRegion, address: int, count: int) {
    r.start <= address && 0 <= count && address + count <= End(r)
  }

  /**
   * A region is non-empty and starts at a non-negative address; a flash
   * region is in addition tiled exactly by whole sectors.
   */
  predicate WellFormed(r: MemoryRegion) {
    0 <= r.start && 0 < r.length &&
    (r.FlashRegion? ==> 0 < r.blocksize && r.start % r.blocksize == 0 && r.length % r.blocksize == 0)
  }

  /** `address` is the first byte of one of the sectors of flash region `r`. */
  predicate SectorAligned(r: MemoryRegion, address: int)
    requires r.FlashRegion? && 0 < r.blocksize
  {
    Contains(r, address) && (address - r.start) % r.blocksize == 0
  }

  predicate Disjoint(a: MemoryRegion, b: MemoryRegion) {
    End(a) <= b.start || End(b) <= a.start
  }

  /** The regions of a memory map do not overlap one another. */
  predicate PairwiseDisjoint(regions: seq<MemoryRegion>) {
    forall i, j :: 0 <= i < j < |regions| ==> Disjoint(regions[i], regions[j])
  }
}
