# KL25Z flash support: security-byte guard, algorithm descriptor, memory map

This project models the KL25Z part of the pyOCD flash engine in Dafny. It has
three pieces:

- **The security-byte guard** `checkSecurityBits(address, data)`. It runs before
  a page is programmed. If the page starts at `0x400` (the page holding the
  flash configuration field), it refuses the write (returns 0) unless the
  guarded bytes of the page data are all erased (`0xFF`). The guarded bytes are
  offsets 0..11, checked by an early-exit loop over `range(12)`, and offsets 14
  and 15. Those two are reached as `i+3` and `i+4` with the loop variable left
  at 11. The two diagnostic calls read both of them before the test compares
  either one. Offsets 12 and 13 are never inspected. Any other address is
  allowed (returns 1).
- **The flash algorithm descriptor** `flash_algo`: 380 instruction words loaded
  at `0x2000_0000`, the init, erase-all and program-page entry points, the stack
  top, the page buffer, the static base and the 1024-byte page size.
- **The memory map**: 128 KiB of flash at 0 in `0x400`-byte sectors, and 12 KiB
  of RAM at `0x2000_0000`.

Files:

- `memory_map.dfy` (module `MemoryMap`): flash and RAM regions, containment,
  well-formedness, sector alignment, disjointness.
- `flash_algo.dfy` (module `FlashAlgo`): the descriptor datatype. Entry points
  the algorithm does not provide are `None`. It also holds the predicate
  `Resident`, which says the layout fits in RAM, and a lemma giving the layout
  order it implies.
- `flash_kl25z.dfy` (module `FlashKl25z`): the KL25Z constants and their layout
  lemmas, and the guard.

How the guard is modelled:

- `CheckSecurityBits` is a method. It follows every read and test of the Python
  code, including the loop variable that is still in use after the loop. Both
  reads of bytes 14 and 15 inside the diagnostic calls are modelled. Only the
  message output is left out.
- It is proved equal to `GuardOutcome`, a reference definition. `GuardOutcome`
  scans offsets 0..11 with an early exit (`Scan`). It then reads offsets 14
  and 15 before comparing them (`ReadThenCompare`).
- The properties are lemmas about `GuardOutcome`.

Python's `IndexError` is modelled, not ruled out by a precondition:
`Outcome = Returned(code) | IndexError(index)`. The early exit means a short
page can still return 0 without raising: `[0x00]` at `0x400` returns 0. The model
therefore does not require `|data| >= 16`. It proves these facts instead:

- A page of at least 16 bytes never faults.
- An `IndexError` happens only on a short page, at the first guarded offset
  past its end, and only when every leading byte before that offset is erased.
- Conversely, a short page whose leading bytes present are all erased always
  faults. Byte 14 does not matter here: it is read but not yet compared when
  offset 15 faults. For example, fourteen `0xFF` bytes followed by `0x00`
  raise `IndexError(15)`.

Page bytes are modelled as the `byte` newtype (0..255).

Two further facts about the code:

- The guard checks the data about to be written. It does not read the current
  flash contents.
- A 14-byte page of `0xFF` does not pass: the guard raises an `IndexError` at
  offset 14 (`FourteenErasedBytesFault`).

## Model

| member | source | states |
|---|---|---|
| FlashKl25z.CheckSecurityBits | pyOCD/flash/flash_kl25z.py:94-107 | the literal code (early exit over 12 bytes, then reads of the bytes at the leftover index plus 3 and plus 4 in the diagnostic calls, then their comparison, with Python index errors) returns exactly the reference outcome `GuardOutcome` |
| FlashKl25z.GuardOutcome | pyOCD/flash/flash_kl25z.py:94-107 | a returned code is always 0 or 1; no index error is possible for another address or for data of at least 16 bytes; a 0 means the address is 0x400 and some guarded byte present is not 0xFF |
| FlashKl25z.Scan | pyOCD/flash/flash_kl25z.py:97-100 | the scan returns 1 iff every listed offset is in range and erased; a 0 means some in-range listed byte is not erased; a fault is at a listed offset past the end; with all offsets in range it always returns |
| FlashKl25z.ReadThenCompare | pyOCD/flash/flash_kl25z.py:102-105 | reading the listed bytes first and comparing after: 1 iff all are present and erased; 0 only when all are present and some is not erased; a fault exactly when some is missing, at a listed offset past the end |
| FlashKl25z.LeadingOffsetsAreIndices | pyOCD/flash/flash_kl25z.py:97 | the leading run read by `range(12)` lists each offset 0..11 at its own position |
| FlashKl25z.LeadingScanFault | pyOCD/flash/flash_kl25z.py:97-100 | the leading scan faults only on a page shorter than 12 bytes, exactly at its end, and only when all its bytes are 0xFF |
| FlashKl25z.LeadingScanPasses | pyOCD/flash/flash_kl25z.py:97-100 | a leading scan that completes has found twelve bytes present and all 0xFF |
| FlashKl25z.ScanLeadingStep | pyOCD/flash/flash_kl25z.py:97-100 | reading leading offset n is one step of the reference scan: fault if past the end, 0 if not erased, otherwise continue at n+1 |
| FlashKl25z.CheckOrderIsGuarded | pyOCD/flash/flash_kl25z.py:97-104 | the read order lists exactly the guarded offsets 0..11, 14, 15, strictly increasing, all below 16 |
| FlashKl25z.OtherAddressAllowed | pyOCD/flash/flash_kl25z.py:96-107 | any address other than 0x400 returns 1 whatever the data |
| FlashKl25z.ScanRefusesAt | pyOCD/flash/flash_kl25z.py:97-105 | the scan returns 0 once it reaches an in-range non-erased offset with every earlier offset in range |
| FlashKl25z.LeadingByteRefuses | pyOCD/flash/flash_kl25z.py:96-100 | at 0x400, a non-erased byte among data[0..11] gives 0, even on a page too short for the later reads |
| FlashKl25z.TrailingByteRefuses | pyOCD/flash/flash_kl25z.py:102-105 | at 0x400, on a page of at least 16 bytes, a non-erased data[14] or data[15] gives 0 |
| FlashKl25z.FifteenthByteReadBeforeCompare | pyOCD/flash/flash_kl25z.py:102-104 | fourteen 0xFF bytes followed by 0x00 at 0x400 raise an IndexError at offset 15, because byte 15 is read before byte 14 is compared |
| FlashKl25z.AllowedExactly | pyOCD/flash/flash_kl25z.py:96-107 | the result is 1 iff the address is not 0x400, or the page has at least 16 bytes and every guarded offset (0..11, 14, 15) is 0xFF; both directions |
| FlashKl25z.ScanReadsOnlyOffsets | pyOCD/flash/flash_kl25z.py:97-100 | the scan's outcome depends only on the bytes at the listed offsets and on which of them are in range |
| FlashKl25z.ReadThenCompareReadsOnlyOffsets | pyOCD/flash/flash_kl25z.py:102-105 | reading before comparing depends only on the bytes at the listed offsets and on which of them are in range |
| FlashKl25z.UnguardedBytesIrrelevant | pyOCD/flash/flash_kl25z.py:97-105 | pages agreeing on every guarded offset (same byte, or both missing it) get the same outcome at every address |
| FlashKl25z.UnguardedByteUpdateIrrelevant | pyOCD/flash/flash_kl25z.py:97-105 | changing any byte at an unguarded offset (12, 13, 16 onwards) leaves the outcome unchanged |
| FlashKl25z.TrailingDataIrrelevant | pyOCD/flash/flash_kl25z.py:97-105 | appending data after the first 16 bytes leaves the outcome unchanged |
| FlashKl25z.ScanFault | pyOCD/flash/flash_kl25z.py:97-100 | a fault happens at a listed offset past the end, after every earlier listed offset was in range and erased |
| FlashKl25z.ReadThenCompareFault | pyOCD/flash/flash_kl25z.py:102-103 | a fault happens at the first listed offset past the end; every earlier listed offset is in range |
| FlashKl25z.IndexErrorOnlyOnShortPage | pyOCD/flash/flash_kl25z.py:97-104 | an IndexError happens only at 0x400 on a page shorter than 16 bytes, at the first guarded offset past its end, with every leading byte (0..11) before it 0xFF |
| FlashKl25z.ShortErasedPageFaults | pyOCD/flash/flash_kl25z.py:97-104 | at 0x400, a page shorter than 16 bytes whose present leading bytes (0..11) are all 0xFF raises an IndexError, whatever byte 14 holds |
| FlashKl25z.FourteenErasedBytesFault | pyOCD/flash/flash_kl25z.py:102-104 | fourteen 0xFF bytes at 0x400 raise an IndexError at offset 14 |
| FlashKl25z.FullPageNeverFaults | pyOCD/flash/flash_kl25z.py:78-104 | a page of the descriptor's page size (1024) never raises an IndexError at any address |
| FlashKl25z.Kl25zImageExtent | pyOCD/flash/flash_kl25z.py:21-79 | the image is 380 words, ends at 0x2000_05f0, and the static base is its last word |
| FlashKl25z.Kl25zAlgoResident | pyOCD/flash/flash_kl25z.py:21-79 | init, erase-all and program-page lie inside the uploaded image; un-init and erase-sector are absent; the descriptor satisfies `Resident` in the 0x3000-byte RAM at 0x2000_0000 |
| FlashKl25z.Kl25zGeometry | pyOCD/flash/flash_kl25z.py:78-96 | flash and RAM regions are well formed and disjoint; the sector size 0x400 equals the page size; flash holds 128 sectors; 0x400 is sector-aligned and its 16 guarded bytes lie in flash |
| FlashAlgo.ResidentLayoutOrdered | pyOCD/flash/flash_kl25z.py:72-78 | for a resident descriptor: RAM start <= load address < image end <= stack top < page buffer, the buffer ends in RAM, and the image and the entry points lie in RAM below the buffer |

## Left out

- The `Flash` base class and its constructor wiring (lines 18, 91-92): the base class is not part of this model. That covers algorithm upload, the calling convention, polling, page buffering, sector resolution and programming.
- The message output of the `logging.debug` calls in the guard (lines 98, 102-103). The reads of `data` in their arguments are modelled, including the index errors they can raise.
- Parsing of the GDB memory-map XML string (lines 81-86): the parser is not part of this model. The region values it yields are constants.
- The meaning of the instruction words: they are opaque target machine code. Only their count matters, because it bounds the uploaded image.
- pyocd/target/builtin/target_musca_b1.py: per-chip configuration data with no logic. Its memory-map classes and SVD loader are not part of this model.
- Python's dynamic typing: page data is taken to be a sequence of byte values. Elements of other types, or a `data` without indexing, are not modelled.
