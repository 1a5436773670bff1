/**
 * An independent reading of a 16-byte card register. The register is a 128-bit number sent
 * most significant byte first, so byte `i` holds bits [127 - 8i : 120 - 8i], and a field
 * `[hi:lo]` is named by the bit positions the SD and MMC physical layer specifications give it.
 */
module Register {

  /** Three consecutive bytes from byte `i` on, as a 24-bit number: bits [127 - 8i : 104 - 8i]. */
  function Window(r: seq<bv8>, i: nat): bv32
    requires |r| == 16 && i <= 13
  {
    (r[i] as bv32 << 16) | (r[i + 1] as bv32 << 8) | r[i + 2] as bv32
  }

  /** Bits `[hi:lo]` of the register, for a field that lies within the window of the byte holding `hi`. */
  function Field(r: seq<bv8>, hi: nat, lo: nat): bv64
    requires |r| == 16 && lo <= hi < 128 && 16 <= hi
    requires lo >= 104 - 8 * ((127 - hi) / 8)
  {
    var i := (127 - hi) / 8;
    ((Window(r, i) >> (lo - (104 - 8 * i))) & ((1 << (hi - lo + 1)) - 1)) as bv64
  }
}

/** Each decoding of the driver, checked against the register layout. */
module CsdLayout {
  import opened Csd
  import opened Register

  /** The layout test of GET_SECTOR_COUNT reads CSD_STRUCTURE, bits [127:126]. */
  lemma CsdVersionField(csd: seq<bv8>)
    requires |csd| == 16
    ensures CsdVersion(csd) as bv64 == Field(csd, 127, 126)
  {
  }

  /**
   * Version 2.0: the count is (C_SIZE + 1) * 1024, C_SIZE being bits [69:48], reduced modulo
   * 2^32; it is exact up to C_SIZE = 0x3FFEFF.
   */
  lemma SectorCountV2Layout(csd: seq<bv8>)
    requires |csd| == 16
    ensures SectorCountV2(csd) as bv64 == ((Field(csd, 69, 48) + 1) << 10) & 0xFFFF_FFFF
    ensures Field(csd, 69, 48) <= 0x3F_FEFF ==> SectorCountV2(csd) as bv64 == (Field(csd, 69, 48) + 1) << 10
  {
  }

  /** The largest value the 22-bit C_SIZE field can hold gives 2^32 sectors, which a `DWORD` holds as 0. */
  lemma SectorCountV2Wraps()
    ensures var csd: seq<bv8> := [0x40, 0, 0, 0, 0, 0, 0, 0x3F, 0xFF, 0xFF, 0, 0, 0, 0, 0, 0];
      CsdVersion(csd) == 1 && Field(csd, 69, 48) == 0x3F_FFFF && SectorCountV2(csd) == 0
  {
    var csd: seq<bv8> := [0x40, 0, 0, 0, 0, 0, 0, 0x3F, 0xFF, 0xFF, 0, 0, 0, 0, 0, 0];
    assert CSizeV2(csd) == 0x40_0000;
  }

  /**
   * Legacy layout: the count is (C_SIZE + 1) * 2^(C_SIZE_MULT + 2) * 2^READ_BL_LEN / 512. The
   * driver's `csize` is C_SIZE + 1 with C_SIZE bits [73:62], its shift count `n` is the exponent
   * C_SIZE_MULT + 2 + READ_BL_LEN with C_SIZE_MULT bits [49:47] and READ_BL_LEN bits [83:80],
   * and the 32-bit shift loses nothing.
   */
  lemma CSizeV1Field(csd: seq<bv8>)
    requires |csd| == 16
    ensures CSizeV1(csd) as bv64 == Field(csd, 73, 62) + 1
  {
  }

  lemma LegacyExponentField(csd: seq<bv8>)
    requires |csd| == 16
    ensures LegacyExponent(csd) as bv64 == Field(csd, 49, 47) + 2 + Field(csd, 83, 80)
  {
  }

  lemma SectorCountV1Exact(csd: seq<bv8>)
    requires |csd| == 16 && LegacyCountDefined(csd)
    ensures SectorCountV1(csd) as bv64 == (CSizeV1(csd) as bv64) << (LegacyExponent(csd) - 9)
  {
  }

  /**
   * An allocation unit is 16 KiB * 2^(AU_SIZE - 1) bytes, and 16 KiB is 32 sectors. Of the SD status the driver reads the
   * first 16 bytes, bits [511:384]; AU_SIZE, bits [431:428] of the status, is bits [47:44] of them.
   */
  lemma AuSectorsLayout(status: seq<bv8>)
    requires |status| == 16 && Field(status, 47, 44) >= 1
    ensures AuSectors(status) as bv64 == 32 << (Field(status, 47, 44) - 1)
  {
    assert (status[10] >> 4) as bv64 == Field(status, 47, 44);
  }

  /**
   * SDv1: SECTOR_SIZE is bits [45:39] and WRITE_BL_LEN bits [25:22]; the driver reads only the
   * low two bits of WRITE_BL_LEN, which is enough for the block lengths 512, 1024 and 2048.
   */
  lemma Sd1EraseSectorsLayout(csd: seq<bv8>)
    requires |csd| == 16 && 9 <= Field(csd, 25, 22) <= 11
    ensures Sd1EraseDefined(csd)
    ensures Sd1EraseSectors(csd) as bv64 == ((Field(csd, 45, 39) + 1) << Field(csd, 25, 22)) >> 9
  {
    SectorSizeField(csd);
    WriteBlLenField(csd);
  }

  lemma SectorSizeField(csd: seq<bv8>)
    requires |csd| == 16
    ensures Field(csd, 45, 39) == (((csd[10] & 63) as bv64) << 1) | (csd[11] >> 7) as bv64
  {
  }

  lemma WriteBlLenField(csd: seq<bv8>)
    requires |csd| == 16
    ensures Field(csd, 25, 22) == (((csd[12] & 3) as bv64) << 2) | (csd[13] >> 6) as bv64
  {
  }

  /** MMC: ERASE_GRP_SIZE is bits [46:42] and ERASE_GRP_MULT bits [41:37]. */
  lemma MmcEraseFactorsLayout(csd: seq<bv8>)
    requires |csd| == 16
    ensures EraseGroupSize(csd) as bv64 == Field(csd, 46, 42) + 1
    ensures EraseGroupMult(csd) as bv64 == Field(csd, 41, 37) + 1
  {
    EraseGroupFields(csd);
  }

  lemma EraseGroupFields(csd: seq<bv8>)
    requires |csd| == 16
    ensures Field(csd, 46, 42) == ((csd[10] & 124) >> 2) as bv64
    ensures Field(csd, 41, 37) == (((csd[10] & 3) as bv64) << 3) | (csd[11] >> 5) as bv64
  {
  }

  /** An MMC with ERASE_GRP_MULT = 24 and ERASE_GRP_SIZE = 0 has 25-sector erase groups; the code reports 1. */
  lemma MmcEraseAsWrittenMisreads()
    ensures var csd: seq<bv8> := [0, 0, 0, 0, 0, 0, 0, 0, 0, 0, 0x03, 0, 0, 0, 0, 0];
      && Field(csd, 41, 37) == 24 && Field(csd, 46, 42) == 0
      && MmcEraseSectors(csd) == 25 && MmcEraseSectorsAsWritten(csd) == 1
  {
    var csd: seq<bv8> := [0, 0, 0, 0, 0, 0, 0, 0, 0, 0, 0x03, 0, 0, 0, 0, 0];
    assert EraseGroupSize(csd) == 1 && EraseGroupMult(csd) == 25;
  }
}
