/**
 * What the entry points of diskio.c promise, stated about the functions of `DiskIO` that the
 * methods are proved equal to.
 */
module DiskFacts {
  import opened SpiBus
  import opened Command
  import opened Protocol
  import opened ProtocolFacts
  import opened Csd
  import opened DiskIO
  import CsdLayout

  // ---------------------------------------------------------------------------------------
  // disk_initialize and disk_status

  /** The values `CardType` can take. */
  predicate KnownCardType(ty: bv8) {
    ty == 0 || ty == CT_MMC || ty == CT_SD1 || ty == CT_SD2 || ty == CT_SD2 | CT_BLOCK
  }

  /** The negotiation yields one of the known card types. */
  lemma IdentifyKnownType(s: BusState)
    ensures KnownCardType(Identify(s).val)
  {
    var c0 := SendCmdS(s, CMD0, 0, false);
    if c0.val == 1 {
      var t := Tick(c0.bus);
      var c8 := SendCmdS(t.bus, CMD8, 0x1AA, true);
      Sd2Types(c8.bus, t.val);
      LegacyTypes(c8.bus, t.val);
    }
  }

  lemma Sd2Types(s: BusState, start: u32)
    ensures var ty := IdentifySd2(s, start).val; ty == 0 || ty == CT_SD2 || ty == CT_SD2 | CT_BLOCK
  {
  }

  /** A card that rejected CMD8 is never typed SDv2. */
  lemma LegacyTypes(s: BusState, start: u32)
    ensures var ty := IdentifyLegacy(s, start).val; ty == 0 || ty == CT_SD1 || ty == CT_MMC
  {
  }

  /** A card that does not answer CMD0 with the idle state is not typed. */
  lemma IdentifyNeedsIdle(s: BusState)
    ensures Identify(s).val != 0 ==> SendCmdS(s, CMD0, 0, false).val == 1
  {
  }

  /**
   * A card is typed SDv2 only if it answered CMD8 with 1 and echoed the voltage range 0x01 and
   * the check pattern 0xAA in the last two bytes of the R7 response.
   */
  lemma IdentifySd2Echo(s: BusState)
    ensures var c0 := SendCmdS(s, CMD0, 0, false); var t := Tick(c0.bus);
      var c8 := SendCmdS(t.bus, CMD8, 0x1AA, true); var ocr := ReadBytes(c8.bus, 4).val;
      Identify(s).val & CT_SD2 != 0 ==> c0.val == 1 && c8.val == 1 && ocr[2] == 0x01 && ocr[3] == 0xAA
  {
    var c0 := SendCmdS(s, CMD0, 0, false);
    if c0.val == 1 {
      var t := Tick(c0.bus);
      var c8 := SendCmdS(t.bus, CMD8, 0x1AA, true);
      LegacyTypes(c8.bus, t.val);
    }
  }

  /** A card that answers CMD8 with 1 but does not echo 0x01, 0xAA is left untyped. */
  lemma IdentifyBadEcho(s: BusState)
    ensures var c0 := SendCmdS(s, CMD0, 0, false); var t := Tick(c0.bus);
      var c8 := SendCmdS(t.bus, CMD8, 0x1AA, true); var ocr := ReadBytes(c8.bus, 4).val;
      c0.val == 1 && c8.val == 1 && (ocr[2] != 0x01 || ocr[3] != 0xAA) ==> Identify(s).val == 0
  {
  }

  /** `drv != 0`: STA_NOINIT, and nothing changes. */
  lemma InitOtherDrive(d: DriveState, drv: bv8)
    requires drv != 0
    ensures InitS(d, drv) == Outcome(d, STA_NOINIT)
  {
  }

  /** Without an SPI peripheral: STA_NOINIT, and `Stat` and `CardType` stay as they were. */
  lemma InitNoInterface(d: DriveState)
    requires !d.bus.attached
    ensures InitS(d, 0) == Outcome(d, STA_NOINIT)
  {
  }

  /** With STA_NODISK set the card is left alone: the status is returned and nothing else changes. */
  lemma InitNoCard(d: DriveState)
    requires d.bus.attached && d.stat & STA_NODISK != 0
    ensures var r := InitS(d, 0);
      r.val == d.stat && r.drive.stat == d.stat && r.drive.cardType == d.cardType
  {
  }

  /** After a negotiation `CardType` is 0, MMC, SDv1, SDv2 or block-addressed SDv2. */
  lemma InitCardType(d: DriveState)
    requires d.bus.attached && d.stat & STA_NODISK == 0
    ensures KnownCardType(InitS(d, 0).drive.cardType)
  {
    IdentifyKnownType(ExchangeAll(SpiBegin(d.bus).bus, Fill(10)));
  }

  /**
   * After a negotiation: a typed card clears STA_NOINIT and keeps the other status bits; an
   * untyped one leaves the status exactly STA_NOINIT.
   */
  lemma InitStatus(d: DriveState)
    requires d.bus.attached && d.stat & STA_NODISK == 0
    ensures var r := InitS(d, 0).drive;
      r.stat == if r.cardType != 0 then d.stat & !STA_NOINIT else STA_NOINIT
  {
  }

  /** The drive is ready after a negotiation exactly when a card type was found. */
  lemma InitReady(d: DriveState)
    requires d.bus.attached && d.stat & STA_NODISK == 0
    ensures var r := InitS(d, 0).drive;
      r.stat & STA_NOINIT == 0 <==> r.cardType != 0
  {
    InitStatus(d);
  }

  /** A negotiation ends with the card deselected, on the fast clock exactly when it was typed. */
  lemma InitDeselects(d: DriveState)
    requires d.bus.attached && d.stat & STA_NODISK == 0 && !d.bus.fast
    ensures var r := InitS(d, 0).drive;
      !r.bus.cs && (r.bus.fast <==> r.cardType != 0)
  {
  }

  /** A card that does not answer CMD0 with the idle state leaves the drive uninitialized. */
  lemma InitCmd0Fails(d: DriveState)
    requires d.bus.attached && d.stat & STA_NODISK == 0
    requires SendCmdS(ExchangeAll(SpiBegin(d.bus).bus, Fill(10)), CMD0, 0, false).val != 1
    ensures var r := InitS(d, 0).drive; r.cardType == 0 && r.stat == STA_NOINIT
  {
  }

  /** When the interface could be brought up, `disk_initialize` returns what `disk_status` will report. */
  lemma InitReturnsStatus(d: DriveState, drv: bv8)
    requires drv != 0 || d.bus.attached
    ensures var r := InitS(d, drv); r.val == StatusS(r.drive, drv)
  {
  }

  // ---------------------------------------------------------------------------------------
  // Addressing

  /**
   * A byte-addressed card is sent the sector times 512, reduced to a `DWORD`; a block-addressed
   * card is sent the sector number.
   */
  lemma AddressBytes(cardType: bv8, sector: bv32)
    ensures Address(cardType, sector) as int
      == if cardType & CT_BLOCK == 0 then sector as int * 512 % TWO_32 else sector as int
  {
    ByteOffset(sector);
  }

  /** `DWORD` multiplication by 512 is multiplication modulo 2^32. */
  lemma ByteOffset(x: bv32)
    ensures (x * 512) as int == x as int * 512 % TWO_32
  {
    ByteOffsetLow(x);
    ByteOffsetMod(x);
  }

  /** Only the low 23 bits of the sector reach the product, which then does not wrap. */
  lemma ByteOffsetLow(x: bv32)
    ensures (x * 512) as int == (x & 0x7F_FFFF) as int * 512
  {
    assert x * 512 == (x & 0x7F_FFFF) << 9;
    ShiftExact(x & 0x7F_FFFF);
  }

  lemma ShiftExact(z: bv32)
    requires z <= 0x7F_FFFF
    ensures (z << 9) as int == z as int * 512
  {
  }

  lemma ByteOffsetMod(x: bv32)
    ensures x as int * 512 % TWO_32 == (x & 0x7F_FFFF) as int * 512
  {
    SplitAt23(x);
    ModShift(x as int, (x >> 23) as int, (x & 0x7F_FFFF) as int);
  }

  lemma SplitAt23(x: bv32)
    ensures x as int == (x >> 23) as int * 0x80_0000 + (x & 0x7F_FFFF) as int
  {
  }

  lemma ModShift(x: int, hi: int, lo: int)
    requires x == hi * 0x80_0000 + lo && 0 <= lo < 0x80_0000
    ensures x * 512 % 0x1_0000_0000 == lo * 512
  {
    assert x * 512 == hi * 0x1_0000_0000 + lo * 512;
  }

  // ---------------------------------------------------------------------------------------
  // disk_read

  /** RES_PARERR exactly for another drive or a zero count. */
  lemma ReadParamError(d: DriveState, drv: bv8, sector: bv32, count: u32)
    ensures ReadS(d, drv, sector, count).res == ResParErr <==> drv != 0 || count == 0
  {
    if drv == 0 && count != 0 && d.stat & STA_NOINIT == 0 {
      ReadOutcome(d, sector, count);
    }
  }

  /** RES_NOTRDY exactly for a valid request to an uninitialized drive. */
  lemma ReadNotReady(d: DriveState, drv: bv8, sector: bv32, count: u32)
    ensures ReadS(d, drv, sector, count).res == ResNotRdy
      <==> drv == 0 && count != 0 && d.stat & STA_NOINIT != 0
  {
    if drv == 0 && count != 0 && d.stat & STA_NOINIT == 0 {
      ReadOutcome(d, sector, count);
    }
  }

  /** A refused request touches neither the bus nor the buffer. */
  lemma ReadGuardsQuiet(d: DriveState, drv: bv8, sector: bv32, count: u32)
    requires drv != 0 || count == 0 || d.stat & STA_NOINIT != 0
    ensures var r := ReadS(d, drv, sector, count); r.bus == d.bus && r.data == []
  {
  }

  /**
   * An accepted request succeeds exactly when all `count` sectors were stored, fails otherwise,
   * and ends with the card deselected.
   */
  lemma ReadOutcome(d: DriveState, sector: bv32, count: u32)
    requires count != 0 && d.stat & STA_NOINIT == 0
    ensures var r := ReadS(d, 0, sector, count);
      && (r.res == ResOk || r.res == ResError)
      && (r.res == ResOk <==> |r.data| == BLOCK * count)
      && !r.bus.cs
  {
  }

  /** Every block of the first `n` from `s` on arrives with a data token. */
  ghost predicate AllReceived(s: BusState, n: nat)
    decreases n
  {
    n == 0 || (RcvrS(s, BLOCK).val.Some? && AllReceived(RcvrS(s, BLOCK).bus, n - 1))
  }

  /** The block loop of a multiple read gets all `n` sectors exactly when every block arrives. */
  lemma {:induction false} ReadBlocksAll(s: BusState, n: nat)
    ensures |ReadBlocks(s, n).val| == BLOCK * n <==> AllReceived(s, n)
    decreases n
  {
    if n > 0 {
      var b := RcvrS(s, BLOCK);
      if b.val.Some? {
        ReadBlocksAll(b.bus, n - 1);
      }
    }
  }

  /** The number of bytes the block loop clocks. */
  ghost function ReadBlocksLength(s: BusState, n: nat): nat
    decreases n
  {
    if n == 0 then 0
    else
      var b := RcvrS(s, BLOCK);
      if b.val.None? then RcvrLength(s, BLOCK)
      else RcvrLength(s, BLOCK) + ReadBlocksLength(b.bus, n - 1)
  }

  /** The block loop sends only fillers. */
  lemma {:induction false} ReadBlocksFillers(s: BusState, n: nat)
    ensures ReadBlocks(s, n).bus.mosi == s.mosi + Fill(ReadBlocksLength(s, n))
    decreases n
  {
    if n > 0 {
      var b := RcvrS(s, BLOCK);
      RcvrMosi(s, BLOCK);
      if b.val.Some? {
        var k := RcvrLength(s, BLOCK);
        ReadBlocksFillers(b.bus, n - 1);
        FillAdd(k, ReadBlocksLength(b.bus, n - 1));
      }
    }
  }

  /**
   * Once CMD18 is accepted, what the host sends is fillers while the blocks arrive, then the
   * CMD12 frame once, its stuff byte and response poll, and the deselect byte.
   */
  lemma ReadMultipleTraffic(s: BusState, address: bv32, count: nat)
    requires SendCmdS(s, CMD18, address, true).val == 0
    ensures var c := SendCmdS(s, CMD18, address, true);
      ReadMultipleS(s, address, count).bus.mosi
        == c.bus.mosi + (Fill(ReadBlocksLength(c.bus, count)) + StopBytes(ReadBlocks(c.bus, count).bus))
  {
    var c := SendCmdS(s, CMD18, address, true);
    var blocks := ReadBlocks(c.bus, count);
    ReadMultipleAccepted(s, address, count);
    ReadBlocksFillers(c.bus, count);
    ReadStopTraffic(blocks.bus);
    Chain(ReadMultipleS(s, address, count).bus.mosi, blocks.bus.mosi, c.bus.mosi,
      Fill(ReadBlocksLength(c.bus, count)), StopBytes(blocks.bus));
  }

  /** A single-sector read succeeds exactly when CMD17 answers 0 and a data token follows. */
  lemma ReadSingleOk(s: BusState, address: bv32)
    ensures var c := SendCmdS(s, CMD17, address, true);
      ReadSingleS(s, address).res == ResOk <==> c.val == 0 && DataToken(c.bus) == TOKEN_SINGLE
  {
    RcvrToken(SendCmdS(s, CMD17, address, true).bus, BLOCK);
  }

  /** What a successful single-sector read stores is the 512 bytes right after the token. */
  lemma ReadSingleData(s: BusState, address: bv32)
    ensures var c := SendCmdS(s, CMD17, address, true); var r := ReadSingleS(s, address);
      r.res == ResOk ==> r.data == Peek(Drop(c.bus.miso, TokenLength(c.bus)), BLOCK)
  {
    RcvrPayload(SendCmdS(s, CMD17, address, true).bus, BLOCK);
  }

  /** A multiple-sector read succeeds exactly when CMD18 answers 0 and every block arrives. */
  lemma ReadMultipleOk(s: BusState, address: bv32, count: nat)
    ensures var c := SendCmdS(s, CMD18, address, true);
      ReadMultipleS(s, address, count).res == ResOk <==> c.val == 0 && AllReceived(c.bus, count)
  {
    var c := SendCmdS(s, CMD18, address, true);
    if c.val == 0 {
      ReadBlocksAll(c.bus, count);
    }
  }

  /** When CMD18 is refused, only the deselect byte follows it. */
  lemma ReadMultipleRefused(s: BusState, address: bv32, count: nat)
    requires SendCmdS(s, CMD18, address, true).val != 0
    ensures var r := ReadMultipleS(s, address, count);
      r.res == ResError && r.bus.mosi == SendCmdS(s, CMD18, address, true).bus.mosi + [IDLE]
  {
  }

  lemma ReadMultipleAccepted(s: BusState, address: bv32, count: nat)
    requires SendCmdS(s, CMD18, address, true).val == 0
    ensures var c := SendCmdS(s, CMD18, address, true);
      ReadMultipleS(s, address, count).bus == DeselectS(SendCmdS(ReadBlocks(c.bus, count).bus, CMD12, 0, true).bus)
  {
  }

  /** What the host sends to stop a transfer: CMD12 with argument 0 and the deselect byte. */
  ghost function StopBytes(b: BusState): seq<bv8> {
    Cmd12Bytes(b, 0) + [IDLE]
  }

  lemma ReadStopTraffic(b: BusState)
    ensures DeselectS(SendCmdS(b, CMD12, 0, true).bus).mosi == b.mosi + StopBytes(b)
  {
    var t := SendCmdS(b, CMD12, 0, true);
    assert t == Transaction(b, CMD12, 0, true);
    Cmd12Traffic(b, 0);
    DeselectAppends(t.bus, b.mosi, Cmd12Bytes(b, 0));
  }

  lemma DeselectAppends(t: BusState, a: seq<bv8>, x: seq<bv8>)
    requires t.mosi == a + x
    ensures DeselectS(t).mosi == a + (x + [IDLE])
  {
  }

  // ---------------------------------------------------------------------------------------
  // disk_write

  /** RES_PARERR exactly for another drive or a zero count. */
  lemma WriteParamError(d: DriveState, drv: bv8, data: seq<bv8>, sector: bv32, count: u32)
    requires BLOCK * count <= |data|
    ensures WriteS(d, drv, data, sector, count).val == ResParErr <==> drv != 0 || count == 0
  {
    if drv == 0 && count != 0 && d.stat & STA_NOINIT == 0 && d.stat & STA_PROTECT == 0 {
      WriteOutcome(d, data, sector, count);
    }
  }

  /** RES_NOTRDY exactly for a valid request to an uninitialized drive. */
  lemma WriteNotReady(d: DriveState, drv: bv8, data: seq<bv8>, sector: bv32, count: u32)
    requires BLOCK * count <= |data|
    ensures WriteS(d, drv, data, sector, count).val == ResNotRdy
      <==> drv == 0 && count != 0 && d.stat & STA_NOINIT != 0
  {
    if drv == 0 && count != 0 && d.stat & STA_NOINIT == 0 && d.stat & STA_PROTECT == 0 {
      WriteOutcome(d, data, sector, count);
    }
  }

  /** RES_WRPRT exactly for a valid request to an initialized, write-protected drive. */
  lemma WriteProtected(d: DriveState, drv: bv8, data: seq<bv8>, sector: bv32, count: u32)
    requires BLOCK * count <= |data|
    ensures WriteS(d, drv, data, sector, count).val == ResWrPrt
      <==> drv == 0 && count != 0 && d.stat & STA_NOINIT == 0 && d.stat & STA_PROTECT != 0
  {
    if drv == 0 && count != 0 && d.stat & STA_NOINIT == 0 && d.stat & STA_PROTECT == 0 {
      WriteOutcome(d, data, sector, count);
    }
  }

  /** A refused write leaves the bus untouched. */
  lemma WriteGuardsQuiet(d: DriveState, drv: bv8, data: seq<bv8>, sector: bv32, count: u32)
    requires BLOCK * count <= |data|
    requires drv != 0 || count == 0 || d.stat & STA_NOINIT != 0 || d.stat & STA_PROTECT != 0
    ensures WriteS(d, drv, data, sector, count).bus == d.bus
  {
  }

  /** An accepted write ends in RES_OK or RES_ERROR with the card deselected. */
  lemma WriteOutcome(d: DriveState, data: seq<bv8>, sector: bv32, count: u32)
    requires BLOCK * count <= |data|
    requires count != 0 && d.stat & STA_NOINIT == 0 && d.stat & STA_PROTECT == 0
    ensures var r := WriteS(d, 0, data, sector, count);
      (r.val == ResOk || r.val == ResError) && !r.bus.cs
  {
  }

  /**
   * A single-sector write (`WriteSingleS` is `BlockWrite` of CMD24's answer `c`) succeeds
   * exactly when CMD24 answered 0, the card becomes ready for the data, and its data response
   * reads "accepted" (`xxx00101`).
   */
  lemma WriteSingleOk(c: Step<bv8>, data: seq<bv8>)
    requires BLOCK <= |data|
    ensures var k := ReadyLength(c.bus, WRITE_TIMEOUT);
      BlockWrite(c, data).val == ResOk
      <==> c.val == 0 && ByteAt(c.bus.miso, k - 1) == IDLE && ByteAt(c.bus.miso, k + 3) & 0x1F == 0x05
  {
    XmitAccepted(c.bus, data[..BLOCK], TOKEN_SINGLE);
  }

  /** The block a single-sector write sends after CMD24's answer `c` is the first 512 bytes of the buffer. */
  lemma WriteSingleSends(c: Step<bv8>, data: seq<bv8>)
    requires BLOCK <= |data|
    ensures var k := ReadyLength(c.bus, WRITE_TIMEOUT);
      c.val == 0 && ByteAt(c.bus.miso, k - 1) == IDLE ==>
        BlockWrite(c, data).bus.mosi
          == c.bus.mosi + (Fill(k) + [TOKEN_SINGLE] + data[..BLOCK] + Fill(3) + [IDLE])
  {
    var k := ReadyLength(c.bus, WRITE_TIMEOUT);
    if c.val == 0 && ByteAt(c.bus.miso, k - 1) == IDLE {
      XmitData(c.bus, data[..BLOCK], TOKEN_SINGLE);
      Regroup5(c.bus.mosi, Fill(k), [TOKEN_SINGLE], data[..BLOCK], Fill(3));
      DeselectAppends(XmitS(c.bus, data[..BLOCK], TOKEN_SINGLE).bus, c.bus.mosi,
        Fill(k) + [TOKEN_SINGLE] + data[..BLOCK] + Fill(3));
    }
  }

  /** Every one of the `n` blocks from offset `off` on is accepted by the card. */
  ghost predicate AllAccepted(s: BusState, data: seq<bv8>, off: nat, n: nat)
    requires off + BLOCK * n <= |data|
    decreases n
  {
    n == 0 ||
      var x := XmitS(s, data[off..off + BLOCK], TOKEN_MULTI);
      x.val && AllAccepted(x.bus, data, off + BLOCK, n - 1)
  }

  /** The block loop of a multiple write leaves no block unsent exactly when the card accepts them all. */
  lemma {:induction false} WriteBlocksAll(s: BusState, data: seq<bv8>, off: nat, n: nat)
    requires off + BLOCK * n <= |data|
    ensures WriteBlocks(s, data, off, n).val == 0 <==> AllAccepted(s, data, off, n)
    decreases n
  {
    if n > 0 {
      var x := XmitS(s, data[off..off + BLOCK], TOKEN_MULTI);
      if x.val {
        WriteBlocksAll(x.bus, data, off + BLOCK, n - 1);
      }
    }
  }

  /**
   * A multiple write succeeds exactly when CMD25 is accepted, every block is accepted and the
   * card is ready for the stop token.
   */
  lemma WriteMultipleOk(s: BusState, sdc: bool, data: seq<bv8>, address: bv32, count: u32)
    requires BLOCK * count <= |data|
    ensures var pre := if sdc then SendCmdS(s, ACMD23, count as bv32, true).bus else s;
      var c := SendCmdS(pre, CMD25, address, true);
      var stop := XmitS(WriteBlocks(c.bus, data, 0, count).bus, [], TOKEN_STOP);
      WriteMultipleS(s, sdc, data, address, count).val == ResOk
      <==> c.val == 0 && AllAccepted(c.bus, data, 0, count) && stop.val
  {
    var pre := if sdc then SendCmdS(s, ACMD23, count as bv32, true).bus else s;
    var c := SendCmdS(pre, CMD25, address, true);
    WriteBlocksAll(c.bus, data, 0, count);
  }

  /**
   * What the host sends after CMD25's answer `c`, when the card accepted it: the block loop's
   * bytes, then, whatever the loop's outcome, the stop-token wait and, if the card became ready,
   * the stop token 0xFD, once; then the deselect byte.
   */
  lemma WriteMultipleTraffic(c: Step<bv8>, data: seq<bv8>, count: u32)
    requires BLOCK * count <= |data|
    ensures var w := WriteBlocks(c.bus, data, 0, count);
      c.val == 0 ==>
        BlocksWrite(c, data, count).bus.mosi
          == c.bus.mosi + (WriteBlocksBytes(c.bus, data, 0, count) + (StopTokenBytes(w.bus) + [IDLE]))
  {
    if c.val == 0 {
      var w := WriteBlocks(c.bus, data, 0, count);
      WriteBlocksTraffic(c.bus, data, 0, count);
      StopTokenTraffic(w.bus);
      var stop := XmitS(w.bus, [], TOKEN_STOP);
      DeselectAppends(stop.bus, w.bus.mosi, StopTokenBytes(w.bus));
      Chain(DeselectS(stop.bus).mosi, w.bus.mosi, c.bus.mosi, WriteBlocksBytes(c.bus, data, 0, count),
        StopTokenBytes(w.bus) + [IDLE]);
    }
  }

  /** The stop-token step: fillers while the card is busy, then 0xFD if it became ready. */
  ghost function StopTokenBytes(b: BusState): seq<bv8> {
    var k := ReadyLength(b, WRITE_TIMEOUT);
    if ByteAt(b.miso, k - 1) == IDLE then Fill(k) + [TOKEN_STOP] else Fill(k)
  }

  lemma StopTokenTraffic(b: BusState)
    ensures XmitS(b, [], TOKEN_STOP).bus.mosi == b.mosi + StopTokenBytes(b)
  {
    if ByteAt(b.miso, ReadyLength(b, WRITE_TIMEOUT) - 1) == IDLE {
      XmitStop(b);
    } else {
      XmitNotReady(b, [], TOKEN_STOP);
    }
  }

  /** The answer to the ACMD23 hint does not matter: an SD card's write continues from the bus it leaves. */
  lemma WriteHintIgnored(s: BusState, data: seq<bv8>, address: bv32, count: u32)
    requires BLOCK * count <= |data|
    ensures WriteMultipleS(s, true, data, address, count)
      == WriteMultipleS(SendCmdS(s, ACMD23, count as bv32, true).bus, false, data, address, count)
  {
  }

  /** The block loop reads only the `n` blocks from `off` on. */
  lemma {:induction false} WriteBlocksUses(s: BusState, data: seq<bv8>, other: seq<bv8>, off: nat, n: nat)
    requires off + BLOCK * n <= |data| && off + BLOCK * n <= |other|
    requires data[off..off + BLOCK * n] == other[off..off + BLOCK * n]
    ensures WriteBlocks(s, data, off, n) == WriteBlocks(s, other, off, n)
    decreases n
  {
    if n > 0 {
      assert data[off..off + BLOCK] == data[off..off + BLOCK * n][..BLOCK];
      assert other[off..off + BLOCK] == other[off..off + BLOCK * n][..BLOCK];
      var x := XmitS(s, data[off..off + BLOCK], TOKEN_MULTI);
      if x.val {
        assert data[off + BLOCK..off + BLOCK * n] == data[off..off + BLOCK * n][BLOCK..];
        assert other[off + BLOCK..off + BLOCK * n] == other[off..off + BLOCK * n][BLOCK..];
        WriteBlocksUses(x.bus, data, other, off + BLOCK, n - 1);
      }
    }
  }

  /**
   * What the host sends in the block loop of a multiple write: for each block, fillers while
   * the card is busy; if it became ready, the token, the 512 bytes of that block of the buffer
   * and three more bytes (two CRC bytes and the poll for the data response).
   */
  ghost function WriteBlocksBytes(s: BusState, data: seq<bv8>, off: nat, n: nat): seq<bv8>
    requires off + BLOCK * n <= |data|
    decreases n
  {
    if n == 0 then []
    else
      var k := ReadyLength(s, WRITE_TIMEOUT);
      if ByteAt(s.miso, k - 1) != IDLE then Fill(k)
      else
        var x := XmitS(s, data[off..off + BLOCK], TOKEN_MULTI);
        var sent := Fill(k) + [TOKEN_MULTI] + data[off..off + BLOCK] + Fill(3);
        if x.val then sent + WriteBlocksBytes(x.bus, data, off + BLOCK, n - 1) else sent
  }

  /** Block `i` of the loop is bytes `[off + 512 i, off + 512 (i + 1))` of the buffer. */
  lemma {:induction false} WriteBlocksTraffic(s: BusState, data: seq<bv8>, off: nat, n: nat)
    requires off + BLOCK * n <= |data|
    ensures WriteBlocks(s, data, off, n).bus.mosi == s.mosi + WriteBlocksBytes(s, data, off, n)
    decreases n
  {
    if n > 0 {
      var k := ReadyLength(s, WRITE_TIMEOUT);
      var block := data[off..off + BLOCK];
      if ByteAt(s.miso, k - 1) != IDLE {
        XmitNotReady(s, block, TOKEN_MULTI);
      } else {
        XmitData(s, block, TOKEN_MULTI);
        Regroup5(s.mosi, Fill(k), [TOKEN_MULTI], block, Fill(3));
        var x := XmitS(s, block, TOKEN_MULTI);
        if x.val {
          WriteBlocksTraffic(x.bus, data, off + BLOCK, n - 1);
          Chain(WriteBlocks(x.bus, data, off + BLOCK, n - 1).bus.mosi, x.bus.mosi, s.mosi,
            Fill(k) + [TOKEN_MULTI] + block + Fill(3), WriteBlocksBytes(x.bus, data, off + BLOCK, n - 1));
        }
      }
    }
  }

  // ---------------------------------------------------------------------------------------
  // disk_ioctl

  /** Another drive: RES_PARERR, decided before the card is touched. */
  lemma IoctlOtherDrive(d: DriveState, drv: bv8, cmd: bv8)
    requires drv != 0
    ensures IoctlS(d, drv, cmd) == IoctlResult(d.bus, ResParErr, None)
  {
  }

  /** RES_PARERR exactly for another drive or, on a ready drive, a code the switch does not handle. */
  lemma IoctlParamError(d: DriveState, drv: bv8, cmd: bv8)
    requires IoctlDefined(d, drv, cmd)
    ensures IoctlS(d, drv, cmd).res == ResParErr
      <==> drv != 0 || (d.stat & STA_NOINIT == 0 && cmd !in {CTRL_SYNC, GET_SECTOR_COUNT, GET_BLOCK_SIZE, CTRL_TRIM})
  {
    if drv == 0 && d.stat & STA_NOINIT == 0 && cmd == CTRL_TRIM {
      IoctlTrimFails(d);
    }
  }

  /** RES_NOTRDY exactly for an uninitialized drive 0, with the bus untouched. */
  lemma IoctlNotReady(d: DriveState, drv: bv8, cmd: bv8)
    requires IoctlDefined(d, drv, cmd)
    ensures var r := IoctlS(d, drv, cmd);
      && (r.res == ResNotRdy <==> drv == 0 && d.stat & STA_NOINIT != 0)
      && (r.res == ResNotRdy ==> r.bus == d.bus)
  {
    if drv == 0 && d.stat & STA_NOINIT == 0 && cmd == CTRL_TRIM {
      IoctlTrimFails(d);
    }
  }

  /** Every call that reaches the switch ends with the card deselected. */
  lemma IoctlDeselects(d: DriveState, cmd: bv8)
    requires IoctlDefined(d, 0, cmd) && d.stat & STA_NOINIT == 0
    ensures !IoctlS(d, 0, cmd).bus.cs
  {
  }

  /**
   * CTRL_TRIM always fails: an SD card is asked for its CSD with MMC_GET_CSD, a code this
   * switch answers with RES_PARERR, so the erase commands are never sent.
   */
  lemma IoctlTrimFails(d: DriveState)
    requires d.stat & STA_NOINIT == 0
    ensures IoctlS(d, 0, CTRL_TRIM).res == ResError && IoctlS(d, 0, CTRL_TRIM).out == None
    ensures IoctlS(d, 0, CTRL_TRIM).bus == DeselectS(if d.cardType & CT_SDC == 0 then d.bus else DeselectS(d.bus))
  {
  }

  /** A value is stored through `buff` exactly by a successful GET_SECTOR_COUNT or GET_BLOCK_SIZE. */
  lemma IoctlOutput(d: DriveState, drv: bv8, cmd: bv8)
    requires IoctlDefined(d, drv, cmd)
    ensures var r := IoctlS(d, drv, cmd);
      r.out.Some? <==> r.res == ResOk && (cmd == GET_SECTOR_COUNT || cmd == GET_BLOCK_SIZE)
  {
    if drv == 0 && d.stat & STA_NOINIT == 0 && cmd == CTRL_TRIM {
      IoctlTrimFails(d);
    }
  }

  /** CTRL_SYNC succeeds exactly when the selected card reports ready within the timeout. */
  lemma IoctlSync(d: DriveState)
    requires d.stat & STA_NOINIT == 0
    ensures var t := SelectS(d.bus); var k := ReadyLength(t, CMD_TIMEOUT);
      var r := IoctlS(d, 0, CTRL_SYNC);
      (r.res == ResOk || r.res == ResError) && (r.res == ResOk <==> ByteAt(t.miso, k - 1) == IDLE)
  {
    WaitReadyResult(SelectS(d.bus), CMD_TIMEOUT);
  }

  /**
   * GET_SECTOR_COUNT succeeds exactly when CMD9 is accepted and the CSD arrives, and then
   * stores the capacity the CSD describes.
   */
  lemma IoctlSectorCount(d: DriveState)
    requires d.stat & STA_NOINIT == 0 && SectorCountQueryDefined(d.bus)
    ensures var f := CsdFetch(d.bus); var r := IoctlS(d, 0, GET_SECTOR_COUNT);
      && (r.res == ResOk || r.res == ResError)
      && (r.res == ResOk <==> f.val.Some?)
      && (r.res == ResOk ==> r.out == Some(SectorCount(f.val.value)))
  {
  }

  /**
   * GET_BLOCK_SIZE succeeds exactly when the register it needs arrives: the SD status for an
   * SDv2 card, the CSD otherwise; it then stores the erase block size that register describes,
   * for an MMC as the driver computes it.
   */
  lemma IoctlBlockSize(d: DriveState)
    requires d.stat & STA_NOINIT == 0 && BlockSizeQueryDefined(d.bus, d.cardType)
    ensures var r := IoctlS(d, 0, GET_BLOCK_SIZE);
      && (r.res == ResOk || r.res == ResError)
      && (d.cardType & CT_SD2 != 0 ==>
            var f := StatusFetch(d.bus);
            (r.res == ResOk <==> f.val.Some?) && (r.res == ResOk ==> r.out == Some(AuSectors(f.val.value))))
      && (d.cardType & CT_SD2 == 0 ==>
            var f := CsdFetch(d.bus);
            && (r.res == ResOk <==> f.val.Some?)
            && (r.res == ResOk && d.cardType & CT_SD1 != 0 ==> r.out == Some(Sd1EraseSectors(f.val.value)))
            && (r.res == ResOk && d.cardType & CT_SD1 == 0 ==> r.out == Some(MmcEraseSectorsAsWritten(f.val.value))))
  {
  }

  /**
   * On an MMC the driver stores the as-written erase size: for the CSD with ERASE_GRP_MULT = 24
   * and ERASE_GRP_SIZE = 0 it reports 1 sector, where the erase group is 25 sectors.
   */
  lemma IoctlMmcMisreads(d: DriveState)
    requires d.stat & STA_NOINIT == 0 && d.cardType & CT_SD2 == 0 && d.cardType & CT_SD1 == 0
    requires CsdFetch(d.bus).val == Some([0, 0, 0, 0, 0, 0, 0, 0, 0, 0, 0x03, 0, 0, 0, 0, 0])
    ensures IoctlS(d, 0, GET_BLOCK_SIZE).res == ResOk && IoctlS(d, 0, GET_BLOCK_SIZE).out == Some(1)
    ensures MmcEraseSectors(CsdFetch(d.bus).val.value) == 25
  {
    IoctlBlockSize(d);
    CsdLayout.MmcEraseAsWrittenMisreads();
  }

  /** The CSD is fetched exactly when CMD9 answers 0 and a data token follows. */
  lemma CsdFetchFound(s: BusState)
    ensures var c := SendCmdS(s, CMD9, 0, true);
      CsdFetch(s).val.Some? <==> c.val == 0 && DataToken(c.bus) == TOKEN_SINGLE
  {
    RcvrToken(SendCmdS(s, CMD9, 0, true).bus, 16);
  }

  /** The CSD is the 16 bytes right after that token. */
  lemma CsdFetchKept(s: BusState)
    ensures var c := SendCmdS(s, CMD9, 0, true); var f := CsdFetch(s);
      f.val.Some? ==> f.val.value == Peek(Drop(c.bus.miso, TokenLength(c.bus)), 16)
  {
    RcvrPayload(SendCmdS(s, CMD9, 0, true).bus, 16);
  }

  /** The SD status is fetched exactly when ACMD13 answers 0 and, after the second response byte, a data token follows. */
  lemma StatusFetchFound(s: BusState)
    ensures var c := SendCmdS(s, ACMD13, 0, true); var t := ExchangeAll(c.bus, [IDLE]);
      StatusFetch(s).val.Some? <==> c.val == 0 && DataToken(t) == TOKEN_SINGLE
  {
    var c := SendCmdS(s, ACMD13, 0, true);
    var t := ExchangeAll(c.bus, [IDLE]);
    RcvrToken(t, 16);
  }

  /** What is kept of the SD status is the 16 bytes after the token; 48 more are clocked out. */
  lemma StatusFetchKept(s: BusState)
    ensures var c := SendCmdS(s, ACMD13, 0, true); var t := ExchangeAll(c.bus, [IDLE]);
      var f := StatusFetch(s);
      f.val.Some? ==> f.val.value == Peek(Drop(t.miso, TokenLength(t)), 16)
  {
    var c := SendCmdS(s, ACMD13, 0, true);
    RcvrPayload(ExchangeAll(c.bus, [IDLE]), 16);
  }
}
