/**
 * Decoding of the card registers that `disk_ioctl` reads: the 16-byte CSD (card-specific data)
 * and the first 16 bytes of the SD status, with the masks and shifts of diskio.c.
 * `DWORD` arithmetic is `bv32`, so wrap-around is the hardware's.
 */
module Csd {

  // ---------------------------------------------------------------------------------------
  // Capacity

  /** CSD_STRUCTURE: 1 for the high-capacity layout (CSD version 2.0). */
  function CsdVersion(csd: seq<bv8>): bv8
    requires |csd| == 16
  {
    csd[0] >> 6
  }

  /** `csize` for the version 2.0 layout: C_SIZE plus one, in units of 512 KiB. */
  function CSizeV2(csd: seq<bv8>): bv32
    requires |csd| == 16
  {
    csd[9] as bv32 + (csd[8] as bv32 << 8) + ((csd[7] & 63) as bv32 << 16) + 1
  }

  /** Sectors of a version 2.0 card: 1024 per 512 KiB unit, in a `DWORD`. */
  function SectorCountV2(csd: seq<bv8>): bv32
    requires |csd| == 16
  {
    CSizeV2(csd) << 10
  }

  /** The shift count `n` of the legacy layout: READ_BL_LEN + C_SIZE_MULT + 2. */
  function LegacyExponent(csd: seq<bv8>): bv8
    requires |csd| == 16
  {
    (csd[5] & 15) + ((csd[10] & 128) >> 7) + ((csd[9] & 3) << 1) + 2
  }

  /** `csize` for the legacy layout (CSD version 1.0 and MMC): C_SIZE plus one. */
  function CSizeV1(csd: seq<bv8>): bv32
    requires |csd| == 16
  {
    (csd[8] >> 6) as bv32 + (csd[7] as bv32 << 2) + ((csd[6] & 3) as bv32 << 10) + 1
  }

  /** The legacy computation shifts by `n - 9`, which C leaves undefined when `n < 9`. */
  predicate LegacyCountDefined(csd: seq<bv8>)
    requires |csd| == 16
  {
    LegacyExponent(csd) >= 9
  }

  function SectorCountV1(csd: seq<bv8>): bv32
    requires |csd| == 16 && LegacyCountDefined(csd)
  {
    CSizeV1(csd) << (LegacyExponent(csd) - 9)
  }

  predicate SectorCountDefined(csd: seq<bv8>)
    requires |csd| == 16
  {
    CsdVersion(csd) == 1 || LegacyCountDefined(csd)
  }

  /** What GET_SECTOR_COUNT stores: the capacity in 512-byte sectors. */
  function SectorCount(csd: seq<bv8>): bv32
    requires |csd| == 16 && SectorCountDefined(csd)
  {
    if CsdVersion(csd) == 1 then SectorCountV2(csd) else SectorCountV1(csd)
  }

  // ---------------------------------------------------------------------------------------
  // Erase block size

  /**
   * GET_BLOCK_SIZE on an SDv2 card: the allocation unit from the SD status, in sectors. Only
   * the first 16 bytes of the status are read, which hold bits [511:384]; AU_SIZE, bits
   * [431:428] of the status, is bits [47:44] of that prefix.
   */
  function AuSectors(status: seq<bv8>): bv32
    requires |status| == 16
  {
    16 << (status[10] >> 4)
  }

  /** The SDv1 computation shifts by `(csd[13] >> 6) - 1`, undefined in C when that is negative. */
  predicate Sd1EraseDefined(csd: seq<bv8>)
    requires |csd| == 16
  {
    csd[13] >> 6 >= 1
  }

  /** GET_BLOCK_SIZE on an SDv1 card: (SECTOR_SIZE + 1) write blocks, in sectors. */
  function Sd1EraseSectors(csd: seq<bv8>): bv32
    requires |csd| == 16 && Sd1EraseDefined(csd)
  {
    ((((csd[10] & 63) as bv32) << 1) + ((csd[11] & 128) >> 7) as bv32 + 1) << ((csd[13] >> 6) - 1)
  }

  /** ERASE_GRP_SIZE + 1, from bits [46:42]. */
  function EraseGroupSize(csd: seq<bv8>): bv32
    requires |csd| == 16
  {
    ((csd[10] & 124) >> 2) as bv32 + 1
  }

  /** ERASE_GRP_MULT + 1, from bits [41:37]: two bits of byte 10 and three of byte 11. */
  function EraseGroupMult(csd: seq<bv8>): bv32
    requires |csd| == 16
  {
    (((csd[10] & 3) as bv32) << 3) + ((csd[11] & 224) >> 5) as bv32 + 1
  }

  /** GET_BLOCK_SIZE on an MMC: an erase group is (ERASE_GRP_SIZE + 1) * (ERASE_GRP_MULT + 1) sectors. */
  function MmcEraseSectors(csd: seq<bv8>): bv32
    requires |csd| == 16
  {
    EraseGroupSize(csd) * EraseGroupMult(csd)
  }

  /**
   * The MMC computation as diskio.c writes it: the high two bits of the multiplier are taken
   * from byte 11 (bits [33:32], part of WP_GRP_SIZE) instead of byte 10 (bits [41:40]).
   */
  function MmcEraseSectorsAsWritten(csd: seq<bv8>): bv32
    requires |csd| == 16
  {
    (((csd[10] & 124) >> 2) as bv32 + 1) * ((((csd[11] & 3) as bv32) << 3) + ((csd[11] & 224) >> 5) as bv32 + 1)
  }
}
