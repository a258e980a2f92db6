/**
 * The descriptor of a target-resident flash algorithm: a machine-code image
 * uploaded into target RAM at a load address, the addresses of its entry
 * points, and the RAM layout (stack top, page buffer, static base) the engine
 * sets up around it.
 */
module FlashAlgo {
  import opened MemoryMap

  newtype uint32 = x: int | 0 <= x < 0x1_0000_0000

  datatype Option<T> = None | Some(value: T)

  /** Instruction words are 32 bits wide. */
  const WordSize: int := 4

  /**
   * One flash algorithm. An entry point the algorithm does not provide is
   * `None`; the others are absolute target addresses.
   */
  datatype AlgorithmDescriptor = AlgorithmDescriptor(
    loadAddress: int,
    instructions: seq<uint32>,
    pcInit: Option<int>,
    pcUnInit: Option<int>,
    pcEraseAll: Option<int>,
    pcEraseSector: Option<int>,
    pcProgramPage: Option<int>,
    beginStack: int,
    beginData: int,
    staticBase: int,
    pageSize: int)

  /** First address past the uploaded instruction image. */
  function ImageEnd(d: AlgorithmDescriptor): int {
    d.loadAddress + WordSize * |d.instructions|
  }

  predicate InImage(d: AlgorithmDescriptor, address: int) {
    d.loadAddress <= address < ImageEnd(d)
  }

  /**
   * An entry point is either absent or lies inside the uploaded image at a
   * halfword boundary (Thumb instructions are two or four bytes long).
   */
  predicate EntryInImage(d: AlgorithmDescriptor, entry: Option<int>) {
    entry.Some? ==> InImage(d, entry.value) && entry.value % 2 == 0
  }

  /**
   * The descriptor is fit to be made resident in RAM region `ram`: the image
   * fits in RAM, every provided entry point lies inside it, the static base
   * points into it, the stack top lies above the image and below the page
   * buffer, and one page buffer fits in RAM above the stack.
   */
  predicate Resident(d: AlgorithmDescriptor, ram: MemoryRegion) {
    ram.RamRegion? &&
    ContainsRange(ram, d.loadAddress, WordSize * |d.instructions|) &&
    EntryInImage(d, d.pcInit) && EntryInImage(d, d.pcUnInit) &&
    EntryInImage(d, d.pcEraseAll) && EntryInImage(d, d.pcEraseSector) &&
    EntryInImage(d, d.pcProgramPage) &&
    InImage(d, d.staticBase) &&
    d.loadAddress < d.beginStack && ImageEnd(d) <= d.beginStack && d.beginStack < d.beginData &&
    0 < d.pageSize && ContainsRange(ram, d.beginData, d.pageSize)
  }

  /**
   * A flash region is programmed page by page with this algorithm: each
   * erase sector holds a whole number of pages.
   */
  predicate PagesTileSectors(d: AlgorithmDescriptor, flash: MemoryRegion) {
    flash.FlashRegion? && 0 < d.pageSize && flash.blocksize % d.pageSize == 0
  }

  /**
   * For a resident algorithm the image, the stack (growing down from
   * beginStack towards the image) and the page buffer occupy disjoint,
   * ordered parts of RAM, and all of them lie inside the RAM region.
   */
  lemma ResidentLayoutOrdered(d: AlgorithmDescriptor, ram: MemoryRegion)
    requires Resident(d, ram)
    ensures ram.start <= d.loadAddress < ImageEnd(d) <= d.beginStack < d.beginData
    ensures d.beginData + d.pageSize <= End(ram)
    ensures forall a :: InImage(d, a) ==> Contains(ram, a) && a < d.beginData
    ensures d.pcInit.Some? ==> Contains(ram, d.pcInit.value)
    ensures d.pcProgramPage.Some? ==> Contains(ram, d.pcProgramPage.value)
  {
  }
}
