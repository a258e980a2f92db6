/**
 * The KL25Z flash support: the flash algorithm descriptor and memory map of
 * the chip, and the guard that refuses to program the page holding the
 * flash configuration field unless its guarded bytes are all erased (0xFF).
 */
module FlashKl25z {
  import opened MemoryMap
  import opened FlashAlgo

  newtype byte = x: int | 0 <= x < 0x100

  // ---------------------------------------------------------------------
  // Static configuration
  // ---------------------------------------------------------------------

  /** The KL25Z flash algorithm: 380 Thumb-2 words loaded at the bottom of RAM. */
  const Kl25zAlgo: AlgorithmDescriptor := AlgorithmDescriptor(
    loadAddress := 0x2000_0000,
    instructions := [
      0xE00ABE00, 0x062D780D, 0x24084068, 0xD3000040, 0x1E644058, 0x1C49D1FA, 0x2A001E52, 0x4770D1F2,
      0xb510492f, 0x60084449, 0x2100482e, 0x482f6001, 0x44484a2d, 0x22016002, 0x04926041, 0x02926082,
      0x220560c2, 0x61420692, 0x03122201, 0x46026182, 0x70113220, 0x62411e49, 0xf929f000, 0xd0002800,
      0xbd102001, 0x47702000, 0xb5084a21, 0x0349447a, 0x0c0a9200, 0x481d4601, 0x44482300, 0xf9b7f000,
      0xd0002800, 0xbd082001, 0x4919b510, 0x48174479, 0x44483920, 0xf891f000, 0xd0002800, 0xbd102001,
      0x4b13b510, 0x4601447b, 0x22014810, 0x02923b38, 0xf0004448, 0x2800f8b4, 0x2001d000, 0xb538bd10,
      0x490b460c, 0x39584479, 0x46019100, 0x46134807, 0x44484622, 0xf948f000, 0xd0002800, 0xbd382001,
      0x00000004, 0x40048100, 0x40020000, 0x00000008, 0x00000085, 0x4604b570, 0x25006800, 0x061b7803,
      0x2370d5fc, 0x20007003, 0x0003e03a, 0xfa60f000, 0x0f0b070c, 0x1f1b1713, 0x2f2b2723, 0x68263633,
      0x71f37813, 0x6826e02a, 0x71b37853, 0x6826e026, 0x71737893, 0x6826e022, 0x713378d3, 0x6826e01e,
      0x72f37913, 0x6826e01a, 0x72b37953, 0x6826e016, 0x72737993, 0x6826e012, 0x723379d3, 0x6826e00e,
      0x73f37a13, 0x6826e00a, 0x73b37a53, 0x6826e006, 0x73737a93, 0x6826e002, 0x73337ad3, 0xb2c01c40,
      0xd9c24288, 0x20806821, 0xe0037008, 0x1c416a60, 0x4780d000, 0x78006820, 0xd5f70600, 0x78006820,
      0xd5010681, 0xe0062504, 0xd50106c1, 0xe0022508, 0xd00007c0, 0x46282510, 0xb508bd70, 0x2244460b,
      0x700a4669, 0x2100466a, 0xbd084798, 0x4614b538, 0xd002078a, 0x300120ff, 0x6843bd38, 0xd803428b,
      0x189a6882, 0xd80d428a, 0x428a68c2, 0x6903d803, 0x428b18d3, 0x2002d801, 0x1a89bd38, 0x05d22201,
      0xe0001889, 0x22081ac9, 0x701a466b, 0x705a0c0a, 0x709a0a0a, 0x466a70d9, 0x47a02103, 0xb5ffbd38,
      0x4615b081, 0x27019a01, 0x26006852, 0x02bf1948, 0xd804428a, 0x689b9b01, 0x428318d3, 0x9a01d20f,
      0x428a68d2, 0x9b01d804, 0x18d3691b, 0xd2014283, 0xe0292602, 0x21011a88, 0x184405c9, 0x1a8ce000,
      0x46204639, 0xf907f000, 0xd0022900, 0x360126ff, 0x4639e01a, 0xf0004628, 0x2900f8fe, 0x2601d012,
      0x2009e012, 0x70084669, 0x70480c20, 0x70880a20, 0x9b0470cc, 0x2103466a, 0x47989801, 0xd1030006,
      0x19e41bed, 0xd1ec2d00, 0xb0054630, 0xb5f0bdf0, 0x24006801, 0x0612780a, 0x2270d5fc, 0x6802700a,
      0x71d12103, 0x22806801, 0x6803718a, 0x71592100, 0x23fc6805, 0x6803712b, 0x680373d9, 0x6802701a,
      0x061b7813, 0x7a55d5fc, 0x07177a12, 0x0f3f2201, 0x105603d2, 0xf000003b, 0x0910f96b, 0x09100e0b,
      0x10090909, 0x09090e1f, 0x11090909, 0xe0056102, 0x03522203, 0x6106e7fa, 0x6101e000, 0x0f12072a,
      0xf0000013, 0x0c10f955, 0x120f0c0c, 0x1d1b1815, 0x0c0c0c1f, 0x0d0c0c0c, 0x03522201, 0x61c1e7e6,
      0xbdf04620, 0x02c92101, 0x2101e7f9, 0xe7f60289, 0x02492101, 0x21ffe7f3, 0xe7f03101, 0xe7ee2180,
      0xe7ec2140, 0xe7ea2120, 0x4607b5fe, 0x461d4616, 0x198a2000, 0xd002078b, 0x300120ff, 0x07b3bdfe,
      0x2001d001, 0x687bbdfe, 0xd803428b, 0x191c68bc, 0xd20d4294, 0x428b68fb, 0x693cd803, 0x4294191c,
      0x2002d201, 0x2201bdfe, 0x05d21ac9, 0xe01b188c, 0xe0191acc, 0x46692006, 0x0c207008, 0x0a207048,
      0x70cc7088, 0x710878e8, 0x714878a8, 0x71887868, 0x71c87828, 0x466a9b08, 0x46382107, 0x28004798,
      0x1d24d1e0, 0x1d2d1f36, 0xd1e32e00, 0xb5febdfe, 0x46044615, 0x00a86842, 0x461e1840, 0xd803428a,
      0x18d368a3, 0xd808428b, 0x428b68e3, 0x6927d803, 0x428b19db, 0x2002d801, 0x4282bdfe, 0x68a3d805,
      0x428318d3, 0x1a8fd301, 0x68e2e00a, 0xd9034282, 0x18d36923, 0xd3ee4283, 0x21011a88, 0x184705c9,
      0x46382104, 0xf817f000, 0xd0022900, 0x300120ff, 0x2001bdfe, 0x70084669, 0x70480c38, 0x70880a38,
      0x0a2870cf, 0x714d7108, 0x9b08718e, 0x2106466a, 0x47984620, 0x2200bdfe, 0x428b0903, 0x0a03d32c,
      0xd311428b, 0x469c2300, 0x4603e04e, 0xd43c430b, 0x08432200, 0xd331428b, 0x428b0903, 0x0a03d31c,
      0xd301428b, 0xe03f4694, 0x428b09c3, 0x01cbd301, 0x41521ac0, 0x428b0983, 0x018bd301, 0x41521ac0,
      0x428b0943, 0x014bd301, 0x41521ac0, 0x428b0903, 0x010bd301, 0x41521ac0, 0x428b08c3, 0x00cbd301,
      0x41521ac0, 0x428b0883, 0x008bd301, 0x41521ac0, 0x428b0843, 0x004bd301, 0x41521ac0, 0xd2001a41,
      0x41524601, 0x47704610, 0x0fcae05d, 0x4249d000, 0xd3001003, 0x40534240, 0x469c2200, 0x428b0903,
      0x0a03d32d, 0xd312428b, 0x018922fc, 0x0a03ba12, 0xd30c428b, 0x11920189, 0xd308428b, 0x11920189,
      0xd304428b, 0xd03a0189, 0xe0001192, 0x09c30989, 0xd301428b, 0x1ac001cb, 0x09834152, 0xd301428b,
      0x1ac0018b, 0x09434152, 0xd301428b, 0x1ac0014b, 0x09034152, 0xd301428b, 0x1ac0010b, 0x08c34152,
      0xd301428b, 0x1ac000cb, 0x08834152, 0xd301428b, 0x1ac0008b, 0xd2d94152, 0x428b0843, 0x004bd301,
      0x41521ac0, 0xd2001a41, 0x46634601, 0x105b4152, 0xd3014610, 0x2b004240, 0x4249d500, 0x46634770,
      0xd300105b, 0xb5014240, 0x46c02000, 0xbd0246c0, 0x4674b430, 0x78251e64, 0x42ab1c64, 0x461dd200,
      0x005b5d63, 0xbc3018e3, 0x00004718, 0xfffffffe
    ],
    pcInit := Some(0x2000_0020),
    pcUnInit := None,
    pcEraseAll := Some(0x2000_0088),
    pcEraseSector := None,
    pcProgramPage := Some(0x2000_00be),
    beginStack := 0x2000_1000,
    beginData := 0x2000_2000,
    staticBase := 0x2000_05ec,
    pageSize := 1024)

  /** 128 KiB of flash at address 0 in 1 KiB sectors. */
  const Kl25zFlash: MemoryRegion := FlashRegion(0x0, 0x2_0000, 0x400)

  /** 12 KiB of RAM at 0x2000_0000. */
  const Kl25zRam: MemoryRegion := RamRegion(0x2000_0000, 0x3000)

  const Kl25zMemoryMap: seq<MemoryRegion> := [Kl25zFlash, Kl25zRam]

  /** The image is 380 words long; its last word is the static base. */
  lemma Kl25zImageExtent()
    ensures |Kl25zAlgo.instructions| == 380
    ensures ImageEnd(Kl25zAlgo) == 0x2000_05f0
    ensures Kl25zAlgo.staticBase == ImageEnd(Kl25zAlgo) - WordSize
  {
  }

  /**
   * The descriptor provides init, erase-all and program-page entry points
   * inside the image and no un-init or erase-sector entry point, and it can
   * be made resident in the chip's RAM.
   */
  lemma Kl25zAlgoResident()
    ensures Kl25zAlgo.pcInit.Some? && InImage(Kl25zAlgo, Kl25zAlgo.pcInit.value)
    ensures Kl25zAlgo.pcEraseAll.Some? && InImage(Kl25zAlgo, Kl25zAlgo.pcEraseAll.value)
    ensures Kl25zAlgo.pcProgramPage.Some? && InImage(Kl25zAlgo, Kl25zAlgo.pcProgramPage.value)
    ensures Kl25zAlgo.pcUnInit.None? && Kl25zAlgo.pcEraseSector.None?
    ensures Resident(Kl25zAlgo, Kl25zRam)
  {
    Kl25zImageExtent();
  }

  /**
   * The memory map is well formed, its regions do not overlap, the sector
   * size equals the algorithm's page size, and the guarded page at
   * SecurityAddress is the start of a sector.
   */
  lemma Kl25zGeometry()
    ensures WellFormed(Kl25zFlash) && WellFormed(Kl25zRam)
    ensures PairwiseDisjoint(Kl25zMemoryMap)
    ensures Kl25zFlash.blocksize == Kl25zAlgo.pageSize
    ensures PagesTileSectors(Kl25zAlgo, Kl25zFlash)
    ensures Kl25zFlash.length / Kl25zFlash.blocksize == 128
    ensures SectorAligned(Kl25zFlash, SecurityAddress)
    ensures ContainsRange(Kl25zFlash, SecurityAddress, GuardedSpan)
  {
  }

  // ---------------------------------------------------------------------
  // Security guard
  // ---------------------------------------------------------------------

  /** Start address of the only page the guard inspects. */
  const SecurityAddress: int := 0x400

  /** Value of an erased (unprogrammed) flash byte. */
  const Erased: byte := 0xFF

  /** Length of the leading run of bytes the guard scans one by one. */
  const LeadingBytes: nat := 12

  /** One past the highest offset the guard reads. */
  const GuardedSpan: nat := 16

  /**
   * What checkSecurityBits does: it returns a code (1 for "allowed", 0 for
   * "refused"), or it raises an IndexError at the first offset it reads that
   * is past the end of the page data.
   */
  datatype Outcome = Returned(code: int) | IndexError(index: nat)

  /**
   * The offsets of the page the guard inspects: the leading run 0..11, then
   * the loop's last index 11 plus 3 and plus 4, that is 14 and 15. Offsets
   * 12 and 13 are not inspected.
   */
  predicate IsGuardedOffset(k: int) {
    0 <= k < LeadingBytes || k == LeadingBytes - 1 + 3 || k == LeadingBytes - 1 + 4
  }

  /** The leading run, scanned one byte at a time with an early exit. */
  const LeadingOffsets: seq<nat> := [0, 1, 2, 3, 4, 5, 6, 7, 8, 9, 10, 11]

  /** The leading run lists each offset at its own position. */
  lemma LeadingOffsetsAreIndices()
    ensures |LeadingOffsets| == LeadingBytes
    ensures forall k :: 0 <= k < |LeadingOffsets| ==> LeadingOffsets[k] == k
  {
  }

  /** The two trailing offsets, both read before either is compared. */
  const TrailingOffsets: seq<nat> := [14, 15]

  /** The guarded offsets in the order the guard reads them. */
  const CheckOrder: seq<nat> := LeadingOffsets + TrailingOffsets

  /**
   * Reads `data` at each of `offsets` in turn and stops at the first offset
   * that is out of range (an IndexError) or holds a non-erased byte (0);
   * returns 1 when every offset holds an erased byte.
   */
  function Scan(data: seq<byte>, offsets: seq<nat>): (r: Outcome)
    ensures r.Returned? ==> r.code == 0 || r.code == 1
    ensures r == Returned(1) <==>
              forall i :: 0 <= i < |offsets| ==> offsets[i] < |data| && data[offsets[i]] == Erased
    ensures r == Returned(0) ==>
              exists i :: 0 <= i < |offsets| && offsets[i] < |data| && data[offsets[i]] != Erased
    ensures r.IndexError? ==> r.index in offsets && |data| <= r.index
    ensures (forall i :: 0 <= i < |offsets| ==> offsets[i] < |data|) ==> r.Returned?
  {
    if offsets == [] then Returned(1)
    else if |data| <= offsets[0] then IndexError(offsets[0])
    else if data[offsets[0]] != Erased then Returned(0)
    else Scan(data, offsets[1..])
  }

  /**
   * Reads `data` at every one of `offsets` first, faulting at the first one
   * out of range, and only then compares: 1 when all the bytes read are
   * erased, 0 otherwise.
   */
  function ReadThenCompare(data: seq<byte>, offsets: seq<nat>): (r: Outcome)
    ensures r.Returned? ==> r.code == 0 || r.code == 1
    ensures r == Returned(1) <==>
              forall i :: 0 <= i < |offsets| ==> offsets[i] < |data| && data[offsets[i]] == Erased
    ensures r == Returned(0) ==>
              (forall i :: 0 <= i < |offsets| ==> offsets[i] < |data|) &&
              exists i :: 0 <= i < |offsets| && data[offsets[i]] != Erased
    ensures r.IndexError? ==> r.index in offsets && |data| <= r.index
    ensures (forall i :: 0 <= i < |offsets| ==> offsets[i] < |data|) <==> r.Returned?
  {
    if offsets == [] then Returned(1)
    else if |data| <= offsets[0] then IndexError(offsets[0])
    else
      var rest := ReadThenCompare(data, offsets[1..]);
      if rest.IndexError? then rest
      else if data[offsets[0]] != Erased then Returned(0)
      else rest
  }

  /**
   * The guard after its leading scan: a scan that faulted or refused decides
   * the outcome; a scan that found every leading byte erased goes on to read
   * both trailing bytes and compare them.
   */
  function AfterLeading(data: seq<byte>, lead: Outcome): Outcome {
    if lead != Returned(1) then lead else ReadThenCompare(data, TrailingOffsets)
  }

  /**
   * Reference definition of the guard: a page written at SecurityAddress is
   * allowed only when the leading run and the trailing pair all hold erased
   * bytes; a page written anywhere else is always allowed.
   */
  function GuardOutcome(address: int, data: seq<byte>): (r: Outcome)
    ensures r.Returned? ==> r.code == 0 || r.code == 1
    ensures address != SecurityAddress || GuardedSpan <= |data| ==> r.Returned?
    ensures r == Returned(0) ==>
              address == SecurityAddress &&
              exists k :: IsGuardedOffset(k) && k < |data| && data[k] != Erased
  {
    if address == SecurityAddress then AfterLeading(data, Scan(data, LeadingOffsets)) else Returned(1)
  }

  /** Reading offset n of the leading run is the next step of the scan. */
  lemma ScanLeadingStep(data: seq<byte>, n: nat)
    requires n < LeadingBytes
    ensures Scan(data, LeadingOffsets[n..]) ==
              if |data| <= n then IndexError(n)
              else if data[n] != Erased then Returned(0)
              else Scan(data, LeadingOffsets[n + 1..])
  {
    assert LeadingOffsets[n..][0] == n;
    assert LeadingOffsets[n..][1..] == LeadingOffsets[n + 1..];
  }

  /**
   * checkSecurityBits as written: a scan of the leading twelve bytes with an
   * early exit, after which the loop variable still holds the last index the
   * scan bound (11). The two diagnostic messages then read the bytes at that
   * index plus 3 and plus 4, and only after both reads are the two bytes
   * compared.
   */
  method CheckSecurityBits(address: int, data: seq<byte>) returns (r: Outcome)
    ensures r == GuardOutcome(address, data)
  {
    if address == SecurityAddress {
      var i := 0;  // the loop variable of the scan, still in scope after it
      var n := 0;  // how many leading bytes have been found erased
      while n < LeadingBytes
        invariant 0 <= n <= LeadingBytes && n <= |data|
        invariant 0 < n ==> i == n - 1
        invariant GuardOutcome(address, data) == AfterLeading(data, Scan(data, LeadingOffsets[n..]))
      {
        i := n;
        ScanLeadingStep(data, n);
        if |data| <= i {
          return IndexError(i);
        }
        if data[i] != Erased {
          return Returned(0);
        }
        n := n + 1;
      }
      assert TrailingOffsets == [i + 3, i + 4];
      if |data| <= i + 3 {
        return IndexError(i + 3);
      }
      var third := data[i + 3];
      assert TrailingOffsets[1..] == [i + 4];
      if |data| <= i + 4 {
        return IndexError(i + 4);
      }
      var fourth := data[i + 4];
      assert ReadThenCompare(data, TrailingOffsets[1..]) ==
               if fourth != Erased then Returned(0) else Returned(1);
      if third != Erased || fourth != Erased {
        return Returned(0);
      }
    }
    return Returned(1);
  }

  // ---------------------------------------------------------------------
  // Properties of the guard
  // ---------------------------------------------------------------------

  /** CheckOrder lists exactly the guarded offsets, in increasing order. */
  lemma CheckOrderIsGuarded()
    ensures forall i :: 0 <= i < |CheckOrder| ==> IsGuardedOffset(CheckOrder[i])
    ensures forall k :: IsGuardedOffset(k) ==> k in CheckOrder
    ensures forall i, j :: 0 <= i < j < |CheckOrder| ==> CheckOrder[i] < CheckOrder[j]
    ensures forall i :: 0 <= i < |CheckOrder| ==> CheckOrder[i] < GuardedSpan
    ensures forall i :: 0 <= i < |LeadingOffsets| ==> LeadingOffsets[i] == i
  {
  }

  /** A page written anywhere but SecurityAddress is allowed, whatever it holds. */
  lemma OtherAddressAllowed(address: int, data: seq<byte>)
    requires address != SecurityAddress
    ensures GuardOutcome(address, data) == Returned(1)
  {
  }

  /**
   * The scan refuses once it reaches an in-range, non-erased offset, provided
   * no earlier offset was out of range.
   */
  lemma {:induction false} ScanRefusesAt(data: seq<byte>, offsets: seq<nat>, i: nat)
    requires i < |offsets|
    requires forall m :: 0 <= m <= i ==> offsets[m] < |data|
    requires data[offsets[i]] != Erased
    ensures Scan(data, offsets) == Returned(0)
  {
    if 0 < i && data[offsets[0]] == Erased {
      ScanRefusesAt(data, offsets[1..], i - 1);
    }
  }

  /** At SecurityAddress, a non-erased byte among offsets 0..11 refuses the page. */
  lemma LeadingByteRefuses(data: seq<byte>, j: nat)
    requires j < LeadingBytes && j < |data|
    requires data[j] != Erased
    ensures GuardOutcome(SecurityAddress, data) == Returned(0)
  {
    ScanRefusesAt(data, LeadingOffsets, j);
  }

  /**
   * At SecurityAddress, on a page holding all 16 guarded bytes, a non-erased
   * byte at offset 14 or 15 refuses the page.
   */
  lemma TrailingByteRefuses(data: seq<byte>)
    requires GuardedSpan <= |data|
    requires data[14] != Erased || data[15] != Erased
    ensures GuardOutcome(SecurityAddress, data) == Returned(0)
  {
    var lead := Scan(data, LeadingOffsets);
    if lead == Returned(1) {
      assert TrailingOffsets[0] == 14 && TrailingOffsets[1] == 15;
      assert ReadThenCompare(data, TrailingOffsets) != Returned(1);
    }
  }

  /**
   * Lines 102-103 read offset 15 before line 104 compares offset 14: a page
   * of fourteen erased bytes and a non-erased fifteenth faults at offset 15
   * rather than being refused.
   */
  lemma FifteenthByteReadBeforeCompare()
    ensures GuardOutcome(SecurityAddress, seq(14, _ => Erased) + [0x00]) == IndexError(15)
  {
    var data := seq(14, _ => Erased) + [0x00];
    assert Scan(data, LeadingOffsets) == Returned(1);
    assert ReadThenCompare(data, TrailingOffsets[1..]) == IndexError(15);
  }

  /**
   * The page is allowed exactly when it is written elsewhere than
   * SecurityAddress, or it is at least 16 bytes long and every guarded
   * offset holds an erased byte.
   */
  lemma AllowedExactly(address: int, data: seq<byte>)
    ensures GuardOutcome(address, data) == Returned(1) <==>
              address != SecurityAddress ||
              (GuardedSpan <= |data| && forall k :: IsGuardedOffset(k) ==> data[k] == Erased)
  {
    CheckOrderIsGuarded();
    if address == SecurityAddress {
      var lead := Scan(data, LeadingOffsets);
      if GuardOutcome(address, data) == Returned(1) {
        assert lead == Returned(1) && ReadThenCompare(data, TrailingOffsets) == Returned(1);
        assert |data| > TrailingOffsets[1];
        forall k | IsGuardedOffset(k) ensures data[k] == Erased {
          if k < LeadingBytes {
            assert LeadingOffsets[k] == k;
          } else if k == 14 {
            assert TrailingOffsets[0] == k;
          } else {
            assert TrailingOffsets[1] == k;
          }
        }
      }
    }
  }

  /** The scan reads nothing but the listed offsets and whether they are in range. */
  lemma {:induction false} ScanReadsOnlyOffsets(data: seq<byte>, data': seq<byte>, offsets: seq<nat>)
    requires forall i :: 0 <= i < |offsets| ==> (offsets[i] < |data| <==> offsets[i] < |data'|)
    requires forall i :: 0 <= i < |offsets| && offsets[i] < |data| ==> data[offsets[i]] == data'[offsets[i]]
    ensures Scan(data, offsets) == Scan(data', offsets)
  {
    if offsets != [] {
      ScanReadsOnlyOffsets(data, data', offsets[1..]);
    }
  }

  /** Reading before comparing, too, depends on nothing but the listed offsets. */
  lemma {:induction false} ReadThenCompareReadsOnlyOffsets(data: seq<byte>, data': seq<byte>, offsets: seq<nat>)
    requires forall i :: 0 <= i < |offsets| ==> (offsets[i] < |data| <==> offsets[i] < |data'|)
    requires forall i :: 0 <= i < |offsets| && offsets[i] < |data| ==> data[offsets[i]] == data'[offsets[i]]
    ensures ReadThenCompare(data, offsets) == ReadThenCompare(data', offsets)
  {
    if offsets != [] {
      ReadThenCompareReadsOnlyOffsets(data, data', offsets[1..]);
    }
  }

  /**
   * Two pages that agree on every guarded offset (holding the same byte, or
   * both lacking it) get the same outcome at every address: offsets 12, 13
   * and 16 onwards never matter.
   */
  lemma UnguardedBytesIrrelevant(address: int, data: seq<byte>, data': seq<byte>)
    requires forall k :: IsGuardedOffset(k) ==> (k < |data| <==> k < |data'|)
    requires forall k :: IsGuardedOffset(k) && k < |data| ==> data[k] == data'[k]
    ensures GuardOutcome(address, data) == GuardOutcome(address, data')
  {
    CheckOrderIsGuarded();
    assert forall i :: 0 <= i < |LeadingOffsets| ==> IsGuardedOffset(LeadingOffsets[i]);
    assert forall i :: 0 <= i < |TrailingOffsets| ==> IsGuardedOffset(TrailingOffsets[i]);
    ScanReadsOnlyOffsets(data, data', LeadingOffsets);
    ReadThenCompareReadsOnlyOffsets(data, data', TrailingOffsets);
  }

  /** Overwriting one unguarded byte of the page leaves the outcome unchanged. */
  lemma UnguardedByteUpdateIrrelevant(address: int, data: seq<byte>, k: nat, b: byte)
    requires k < |data| && !IsGuardedOffset(k)
    ensures GuardOutcome(address, data[k := b]) == GuardOutcome(address, data)
  {
    UnguardedBytesIrrelevant(address, data, data[k := b]);
  }

  /** Once the page holds the 16 guarded bytes, what follows them never matters. */
  lemma TrailingDataIrrelevant(address: int, data: seq<byte>, tail: seq<byte>)
    requires GuardedSpan <= |data|
    ensures GuardOutcome(address, data + tail) == GuardOutcome(address, data)
  {
    UnguardedBytesIrrelevant(address, data + tail, data);
  }

  /**
   * The scan faults only at a listed offset that is out of range, and only
   * after every earlier offset was in range and held an erased byte; `i` is
   * the position of the faulting offset.
   */
  lemma {:induction false} ScanFault(data: seq<byte>, offsets: seq<nat>) returns (i: nat)
    requires Scan(data, offsets).IndexError?
    ensures i < |offsets| && offsets[i] == Scan(data, offsets).index && |data| <= offsets[i]
    ensures forall m :: 0 <= m < i ==> offsets[m] < |data| && data[offsets[m]] == Erased
  {
    if |data| <= offsets[0] {
      i := 0;
    } else {
      var j := ScanFault(data, offsets[1..]);
      i := j + 1;
    }
  }

  /**
   * Reading before comparing faults at the first listed offset that is out
   * of range; `i` is its position, and every earlier offset is in range.
   */
  lemma {:induction false} ReadThenCompareFault(data: seq<byte>, offsets: seq<nat>) returns (i: nat)
    requires ReadThenCompare(data, offsets).IndexError?
    ensures i < |offsets| && offsets[i] == ReadThenCompare(data, offsets).index && |data| <= offsets[i]
    ensures forall m :: 0 <= m < i ==> offsets[m] < |data|
  {
    if |data| <= offsets[0] {
      i := 0;
    } else {
      var j := ReadThenCompareFault(data, offsets[1..]);
      i := j + 1;
    }
  }

  /**
   * The leading scan faults exactly at the end of a page shorter than 12
   * bytes, all of whose bytes are erased.
   */
  lemma LeadingScanFault(data: seq<byte>)
    requires Scan(data, LeadingOffsets).IndexError?
    ensures Scan(data, LeadingOffsets).index == |data| < LeadingBytes
    ensures forall k :: 0 <= k < |data| ==> data[k] == Erased
  {
    LeadingOffsetsAreIndices();
    var i := ScanFault(data, LeadingOffsets);
    assert LeadingOffsets[i] == i && |data| <= i;
    if 0 < i {
      assert LeadingOffsets[i - 1] < |data|;
    }
    forall k | 0 <= k < |data| ensures data[k] == Erased {
      assert LeadingOffsets[k] < |data| && data[LeadingOffsets[k]] == Erased;
    }
  }

  /** A leading scan that returns 1 has read twelve erased bytes. */
  lemma LeadingScanPasses(data: seq<byte>)
    requires Scan(data, LeadingOffsets) == Returned(1)
    ensures LeadingBytes <= |data|
    ensures forall k :: 0 <= k < LeadingBytes ==> data[k] == Erased
  {
    LeadingOffsetsAreIndices();
    var n := |LeadingOffsets|;
    assert forall i :: 0 <= i < n ==> LeadingOffsets[i] < |data| && data[LeadingOffsets[i]] == Erased;
    assert LeadingOffsets[11] < |data|;
    forall k | 0 <= k < LeadingBytes ensures data[k] == Erased {
      assert LeadingOffsets[k] < |data| && data[LeadingOffsets[k]] == Erased;
    }
  }

  /**
   * An IndexError happens only at SecurityAddress on a page shorter than 16
   * bytes, at the first guarded offset past its end, and only when every
   * leading byte before that offset holds an erased byte (offset 14 is read
   * but not yet compared when offset 15 faults).
   */
  lemma IndexErrorOnlyOnShortPage(address: int, data: seq<byte>)
    requires GuardOutcome(address, data).IndexError?
    ensures address == SecurityAddress && |data| < GuardedSpan
    ensures IsGuardedOffset(GuardOutcome(address, data).index)
    ensures |data| <= GuardOutcome(address, data).index
    ensures forall k :: IsGuardedOffset(k) && k < GuardOutcome(address, data).index ==> k < |data|
    ensures forall k :: 0 <= k < LeadingBytes && k < GuardOutcome(address, data).index ==>
              k < |data| && data[k] == Erased
  {
    assert address == SecurityAddress;
    if Scan(data, LeadingOffsets).IndexError? {
      LeadingScanFault(data);
    } else {
      assert Scan(data, LeadingOffsets) == Returned(1);
      LeadingScanPasses(data);
      assert TrailingOffsets[1..] == [15];
    }
  }

  /**
   * Conversely, at SecurityAddress a page shorter than 16 bytes whose
   * leading bytes present are all erased makes the guard fault instead of
   * returning, whatever its byte 14 holds.
   */
  lemma ShortErasedPageFaults(data: seq<byte>)
    requires |data| < GuardedSpan
    requires forall k :: 0 <= k < LeadingBytes && k < |data| ==> data[k] == Erased
    ensures GuardOutcome(SecurityAddress, data).IndexError?
  {
    CheckOrderIsGuarded();
    var lead := Scan(data, LeadingOffsets);
    if lead.Returned? {
      assert lead != Returned(0);
      assert TrailingOffsets[1] == 15;
    }
  }

  /**
   * Fourteen erased bytes (twelve followed by two) do not satisfy the guard:
   * it reads offset 14, past the end of such a page.
   */
  lemma FourteenErasedBytesFault()
    ensures GuardOutcome(SecurityAddress, seq(14, _ => Erased)) == IndexError(14)
  {
    var data := seq(14, _ => Erased);
    ShortErasedPageFaults(data);
    IndexErrorOnlyOnShortPage(SecurityAddress, data);
    assert IsGuardedOffset(14);
  }

  /** A page of the algorithm's page size never makes the guard fault. */
  lemma FullPageNeverFaults(address: int, data: seq<byte>)
    requires |data| == Kl25zAlgo.pageSize
    ensures GuardOutcome(address, data).Returned?
  {
  }
}
