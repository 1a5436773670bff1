/**
 * The public entry points of the driver (diskio.c, `disk_initialize` to `disk_ioctl`) and the two
 * module-level variables they share: `Stat`, the drive status, and `CardType`, the card type
 * found by the last initialization.
 *
 * As in the layer below, each entry point is a method proved equal to a function of the old
 * state; the functions are what the lemmas of `DiskFacts` reason about.
 */
module DiskIO {
  import opened SpiBus
  import opened Command
  import opened Protocol
  import opened Csd

  // The constants of diskio.h, at their FatFs values.

  /** `DSTATUS` bits. */
  const STA_NOINIT: bv8 := 0x01    // drive not initialized
  const STA_NODISK: bv8 := 0x02    // no medium in the drive
  const STA_PROTECT: bv8 := 0x04   // write protected

  /** `CardType` flags. */
  const CT_MMC: bv8 := 0x01        // MMC version 3
  const CT_SD1: bv8 := 0x02        // SD version 1
  const CT_SD2: bv8 := 0x04        // SD version 2
  const CT_SDC: bv8 := 0x06        // any SD card
  const CT_BLOCK: bv8 := 0x08      // block addressing

  /** `disk_ioctl` codes. */
  const CTRL_SYNC: bv8 := 0
  const GET_SECTOR_COUNT: bv8 := 1
  const GET_BLOCK_SIZE: bv8 := 3
  const CTRL_TRIM: bv8 := 4
  const MMC_GET_CSD: bv8 := 11

  /** `DRESULT`. */
  datatype DResult = ResOk | ResError | ResWrPrt | ResNotRdy | ResParErr

  /** The bus together with `Stat` and `CardType`. */
  datatype DriveState = DriveState(bus: BusState, stat: bv8, cardType: bv8)

  datatype Outcome<T> = Outcome(drive: DriveState, val: T)

  // ---------------------------------------------------------------------------------------
  // disk_initialize

  /**
   * `while (!waitTimeout(start, INIT_TIMEOUT) && send_cmd(cmd, arg));`: repeat the command
   * until it answers 0 or the initialization deadline has passed.
   */
  function InitPoll(s: BusState, start: u32, cmd: bv8, arg: bv32): (r: BusState)
    ensures Advances(s, r)
    decreases |s.ticks|
  {
    var t := CheckTimeout(s, start, INIT_TIMEOUT);
    if t.val then t.bus
    else
      var c := SendCmdS(t.bus, cmd, arg, true);
      if c.val == 0 then c.bus else InitPoll(c.bus, start, cmd, arg)
  }

  /** The card-type negotiation after the 80 dummy clocks; the result is the new `CardType`. */
  function Identify(s: BusState): (r: Step<bv8>)
    ensures Advances(s, r.bus)
  {
    var c0 := SendCmdS(s, CMD0, 0, false);
    if c0.val != 1 then Step(c0.bus, 0)
    else
      var t := Tick(c0.bus);
      var c8 := SendCmdS(t.bus, CMD8, 0x1AA, true);
      if c8.val == 1 then IdentifySd2(c8.bus, t.val) else IdentifyLegacy(c8.bus, t.val)
  }

  /** A card that answered CMD8: check the voltage echo, wait for ACMD41(HCS), read the CCS bit. */
  function IdentifySd2(s: BusState, start: u32): (r: Step<bv8>)
    ensures Advances(s, r.bus)
  {
    var ocr := ReadBytes(s, 4);
    if ocr.val[2] != 0x01 || ocr.val[3] != 0xAA then Step(ocr.bus, 0)
    else
      var p := InitPoll(ocr.bus, start, ACMD41, 0x4000_0000);
      var e := CheckTimeout(p, start, INIT_TIMEOUT);
      if e.val then Step(e.bus, 0)
      else
        var c58 := SendCmdS(e.bus, CMD58, 0, true);
        if c58.val != 0 then Step(c58.bus, 0)
        else
          var o := ReadBytes(c58.bus, 4);
          Step(o.bus, if o.val[0] & 0x40 != 0 then CT_SD2 | CT_BLOCK else CT_SD2)
  }

  /** A card that rejected CMD8: SDv1 if it takes ACMD41, MMC otherwise; then set a 512-byte block length. */
  function IdentifyLegacy(s: BusState, start: u32): (r: Step<bv8>)
    ensures Advances(s, r.bus)
  {
    var a := SendCmdS(s, ACMD41, 0, true);
    var ty := if a.val <= 1 then CT_SD1 else CT_MMC;
    var cmd := if a.val <= 1 then ACMD41 else CMD1;
    var p := InitPoll(a.bus, start, cmd, 0);
    var e := CheckTimeout(p, start, INIT_TIMEOUT);
    if e.val then Step(e.bus, 0)
    else
      var c16 := SendCmdS(e.bus, CMD16, 512, true);
      Step(c16.bus, if c16.val != 0 then 0 else ty)
  }

  /** `disk_initialize(drv)`: the new drive state and the status returned. */
  function InitS(d: DriveState, drv: bv8): Outcome<bv8> {
    if drv != 0 then Outcome(d, STA_NOINIT)
    else
      var b := SpiBegin(d.bus);
      if !b.val then Outcome(d.(bus := b.bus), STA_NOINIT)
      else if d.stat & STA_NODISK != 0 then Outcome(d.(bus := b.bus), d.stat)
      else
        var id := StartupS(b.bus);
        if id.val != 0 then
          var st := d.stat & !STA_NOINIT;
          Outcome(DriveState(FastClock(id.bus), st, id.val), st)
        else Outcome(DriveState(id.bus, STA_NOINIT, 0), STA_NOINIT)
  }

  /** The 80 dummy clocks, the card-type negotiation, and the final deselect. */
  function StartupS(s: BusState): Step<bv8> {
    var id := Identify(ExchangeAll(s, Fill(10)));
    Step(DeselectS(id.bus), id.val)
  }

  /** `disk_status(drv)`. */
  function StatusS(d: DriveState, drv: bv8): bv8 {
    if drv != 0 then STA_NOINIT else d.stat
  }

  // ---------------------------------------------------------------------------------------
  // disk_read and disk_write

  /** The address a card is sent for a sector: a byte address, in a `DWORD`, unless it is block addressed. */
  function Address(cardType: bv8, sector: bv32): bv32 {
    if cardType & CT_BLOCK == 0 then sector * 512 else sector
  }

  /** The block loop of a multiple-block read: up to `n` blocks, stopping at the first that fails. */
  function ReadBlocks(s: BusState, n: nat): (r: Step<seq<bv8>>)
    ensures Advances(s, r.bus) && r.bus.cs == s.cs
    ensures |r.val| % BLOCK == 0 && |r.val| <= BLOCK * n
    decreases n
  {
    if n == 0 then Step(s, [])
    else
      var b := RcvrS(s, BLOCK);
      if b.val.None? then Step(b.bus, [])
      else
        var rest := ReadBlocks(b.bus, n - 1);
        Step(rest.bus, b.val.value + rest.val)
  }

  /** What `disk_read` leaves: the bus, the result, and the bytes stored from the start of the buffer. */
  datatype ReadResult = ReadResult(bus: BusState, res: DResult, data: seq<bv8>)

  /** A single-sector read once the guards have passed: CMD17 and one data block. */
  function ReadSingleS(s: BusState, address: bv32): (r: ReadResult)
    ensures |r.data| <= BLOCK
  {
    var c := SendCmdS(s, CMD17, address, true);
    if c.val != 0 then ReadResult(DeselectS(c.bus), ResError, [])
    else
      var b := RcvrS(c.bus, BLOCK);
      if b.val.None? then ReadResult(DeselectS(b.bus), ResError, [])
      else ReadResult(DeselectS(b.bus), ResOk, b.val.value)
  }

  /** A multiple-sector read once the guards have passed: CMD18, the block loop, CMD12. */
  function ReadMultipleS(s: BusState, address: bv32, count: nat): (r: ReadResult)
    ensures |r.data| <= BLOCK * count
  {
    var c := SendCmdS(s, CMD18, address, true);
    if c.val != 0 then ReadResult(DeselectS(c.bus), ResError, [])
    else
      var blocks := ReadBlocks(c.bus, count);
      var stop := SendCmdS(blocks.bus, CMD12, 0, true);
      ReadResult(DeselectS(stop.bus), if |blocks.val| == BLOCK * count then ResOk else ResError, blocks.val)
  }

  /** `disk_read(drv, buff, sector, count)`. */
  function ReadS(d: DriveState, drv: bv8, sector: bv32, count: u32): (r: ReadResult)
    ensures |r.data| <= BLOCK * count
  {
    if drv != 0 || count == 0 then ReadResult(d.bus, ResParErr, [])
    else if d.stat & STA_NOINIT != 0 then ReadResult(d.bus, ResNotRdy, [])
    else if count == 1 then ReadSingleS(d.bus, Address(d.cardType, sector))
    else ReadMultipleS(d.bus, Address(d.cardType, sector), count)
  }

  /**
   * The block loop of a multiple-block write: `n` blocks from offset `off` of `data` on, 512
   * bytes apart; the result is the loop's `count` at the end: the number of blocks not
   * accepted, counting the refused one.
   */
  function WriteBlocks(s: BusState, data: seq<bv8>, off: nat, n: nat): (r: Step<nat>)
    requires off + BLOCK * n <= |data|
    ensures Advances(s, r.bus) && r.bus.cs == s.cs && r.val <= n
    decreases n
  {
    if n == 0 then Step(s, 0)
    else
      var x := XmitS(s, data[off..off + BLOCK], TOKEN_MULTI);
      if !x.val then Step(x.bus, n) else WriteBlocks(x.bus, data, off + BLOCK, n - 1)
  }

  /** A single-sector write once the guards have passed: CMD24 and one data block. */
  function WriteSingleS(s: BusState, data: seq<bv8>, address: bv32): Step<DResult>
    requires BLOCK <= |data|
  {
    BlockWrite(SendCmdS(s, CMD24, address, true), data)
  }

  /** What follows CMD24's answer `c`: the data block when the card accepted the command, and deselect. */
  function BlockWrite(c: Step<bv8>, data: seq<bv8>): Step<DResult>
    requires BLOCK <= |data|
  {
    if c.val != 0 then Step(DeselectS(c.bus), ResError)
    else
      var x := XmitS(c.bus, data[..BLOCK], TOKEN_SINGLE);
      Step(DeselectS(x.bus), if x.val then ResOk else ResError)
  }

  /**
   * A multiple-sector write once the guards have passed: for an SD card the ACMD23 hint, whose
   * answer is ignored; CMD25, the block loop and the stop token, whose refusal counts as a failure.
   */
  function WriteMultipleS(s: BusState, sdc: bool, data: seq<bv8>, address: bv32, count: u32): Step<DResult>
    requires BLOCK * count <= |data|
  {
    var pre := if sdc then SendCmdS(s, ACMD23, count as bv32, true).bus else s;
    BlocksWrite(SendCmdS(pre, CMD25, address, true), data, count)
  }

  /** What follows CMD25's answer `c`: the block loop and the stop token when the card accepted the command, and deselect. */
  function BlocksWrite(c: Step<bv8>, data: seq<bv8>, count: u32): Step<DResult>
    requires BLOCK * count <= |data|
  {
    if c.val != 0 then Step(DeselectS(c.bus), ResError)
    else
      var w := WriteBlocks(c.bus, data, 0, count);
      var stop := XmitS(w.bus, [], TOKEN_STOP);
      var left := if stop.val then w.val else 1;
      Step(DeselectS(stop.bus), if left == 0 then ResOk else ResError)
  }

  /** `disk_write(drv, buff, sector, count)`. */
  function WriteS(d: DriveState, drv: bv8, data: seq<bv8>, sector: bv32, count: u32): Step<DResult>
    requires BLOCK * count <= |data|
  {
    if drv != 0 || count == 0 then Step(d.bus, ResParErr)
    else if d.stat & STA_NOINIT != 0 then Step(d.bus, ResNotRdy)
    else if d.stat & STA_PROTECT != 0 then Step(d.bus, ResWrPrt)
    else if count == 1 then WriteSingleS(d.bus, data, Address(d.cardType, sector))
    else WriteMultipleS(d.bus, d.cardType & CT_SDC != 0, data, Address(d.cardType, sector), count)
  }

  // ---------------------------------------------------------------------------------------
  // disk_ioctl

  /** `send_cmd(CMD9, 0) == 0 && rcvr_datablock(csd, 16)`: the CSD, if both steps succeed. */
  function CsdFetch(s: BusState): (r: Step<Option<seq<bv8>>>)
    ensures r.val.Some? ==> |r.val.value| == 16
  {
    var c := SendCmdS(s, CMD9, 0, true);
    if c.val != 0 then Step(c.bus, None) else RcvrS(c.bus, 16)
  }

  /**
   * ACMD13: one byte of the R2 response is skipped, the first 16 bytes of the 64-byte SD status
   * are kept and the other 48 are clocked out and dropped.
   */
  function StatusFetch(s: BusState): (r: Step<Option<seq<bv8>>>)
    ensures r.val.Some? ==> |r.val.value| == 16
  {
    var c := SendCmdS(s, ACMD13, 0, true);
    if c.val != 0 then Step(c.bus, None)
    else
      var b := RcvrS(ExchangeAll(c.bus, [IDLE]), 16);
      if b.val.None? then b else Step(ExchangeAll(b.bus, Fill(48)), b.val)
  }

  /** CTRL_SYNC: select the card and wait until it has finished any internal write. */
  function SyncS(s: BusState): Step<DResult> {
    var w := WaitReadyS(SelectS(s), CMD_TIMEOUT);
    Step(w.bus, if w.val then ResOk else ResError)
  }

  /** The legacy capacity computation shifts by `n - 9`, which C leaves undefined below 9. */
  predicate SectorCountQueryDefined(s: BusState) {
    var f := CsdFetch(s);
    f.val.Some? ==> SectorCountDefined(f.val.value)
  }

  /** GET_SECTOR_COUNT: the capacity in sectors, if the CSD could be read. */
  function SectorCountQueryS(s: BusState): Step<Option<bv32>>
    requires SectorCountQueryDefined(s)
  {
    var f := CsdFetch(s);
    if f.val.None? then Step(f.bus, None) else Step(f.bus, Some(SectorCount(f.val.value)))
  }

  /** The SDv1 erase-size computation shifts by `(csd[13] >> 6) - 1`, which C leaves undefined below 0. */
  predicate BlockSizeQueryDefined(s: BusState, cardType: bv8) {
    cardType & CT_SD2 == 0 && cardType & CT_SD1 != 0 ==>
      var f := CsdFetch(s);
      f.val.Some? ==> Sd1EraseDefined(f.val.value)
  }

  /**
   * GET_BLOCK_SIZE: the erase block size in sectors, from the SD status for an SDv2 card and
   * from the CSD otherwise; for an MMC, as the driver computes it (see `MmcEraseSectorsAsWritten`).
   */
  function BlockSizeQueryS(s: BusState, cardType: bv8): Step<Option<bv32>>
    requires BlockSizeQueryDefined(s, cardType)
  {
    if cardType & CT_SD2 != 0 then
      var f := StatusFetch(s);
      if f.val.None? then Step(f.bus, None) else Step(f.bus, Some(AuSectors(f.val.value)))
    else
      var f := CsdFetch(s);
      if f.val.None? then Step(f.bus, None)
      else if cardType & CT_SD1 != 0 then Step(f.bus, Some(Sd1EraseSectors(f.val.value)))
      else Step(f.bus, Some(MmcEraseSectorsAsWritten(f.val.value)))
  }

  /** The calls whose arithmetic C defines. */
  predicate IoctlDefined(d: DriveState, drv: bv8, cmd: bv8) {
    drv == 0 && d.stat & STA_NOINIT == 0 ==>
      && (cmd == GET_SECTOR_COUNT ==> SectorCountQueryDefined(d.bus))
      && (cmd == GET_BLOCK_SIZE ==> BlockSizeQueryDefined(d.bus, d.cardType))
  }

  /** What `disk_ioctl` leaves: the bus, the result, and the `DWORD` stored through `buff`, if any. */
  datatype IoctlResult = IoctlResult(bus: BusState, res: DResult, out: Option<bv32>)

  /** `disk_ioctl(drv, cmd, buff)`. */
  function IoctlS(d: DriveState, drv: bv8, cmd: bv8): (r: IoctlResult)
    requires IoctlDefined(d, drv, cmd)
    ensures r.out.Some? ==> r.res == ResOk && (cmd == GET_SECTOR_COUNT || cmd == GET_BLOCK_SIZE)
    decreases if cmd == CTRL_TRIM then 1 else 0
  {
    if drv != 0 then IoctlResult(d.bus, ResParErr, None)
    else if d.stat & STA_NOINIT != 0 then IoctlResult(d.bus, ResNotRdy, None)
    else if cmd == CTRL_SYNC then
      var x := SyncS(d.bus);
      IoctlResult(DeselectS(x.bus), x.val, None)
    else if cmd == GET_SECTOR_COUNT then
      var q := SectorCountQueryS(d.bus);
      IoctlResult(DeselectS(q.bus), if q.val.Some? then ResOk else ResError, q.val)
    else if cmd == GET_BLOCK_SIZE then
      var q := BlockSizeQueryS(d.bus, d.cardType);
      IoctlResult(DeselectS(q.bus), if q.val.Some? then ResOk else ResError, q.val)
    else if cmd == CTRL_TRIM then
      if d.cardType & CT_SDC == 0 then IoctlResult(DeselectS(d.bus), ResError, None)
      else
        // the CSD is asked for with a code the switch does not handle
        var csd := IoctlS(d, drv, MMC_GET_CSD);
        if csd.res != ResOk then IoctlResult(DeselectS(csd.bus), ResError, None)
        else assert false; IoctlResult(csd.bus, ResError, None)
    else IoctlResult(DeselectS(d.bus), ResParErr, None)
  }

  // ---------------------------------------------------------------------------------------
  // Loops of the entry points

  /** `for (n = k; n; n--) xchg_spi(0xFF);` */
  method SendFiller(bus: Bus, k: nat)
    modifies bus
    ensures bus.State() == ExchangeAll(old(bus.State()), Fill(k))
  {
    ghost var s0 := bus.State();
    var n: nat := k;
    while n > 0
      invariant n <= k
      invariant bus.State() == ExchangeAll(s0, Fill(k - n))
    {
      var _ := bus.Xchg(IDLE);
      ExchangeAllConcat(s0, Fill(k - n), [IDLE]);
      FillAdd(k - n, 1);
      n := n - 1;
    }
  }

  /** `for (n = 0; n < k; n++) ocr[n] = xchg_spi(0xFF);` */
  method ReceiveBytes(bus: Bus, k: nat) returns (bytes: seq<bv8>)
    modifies bus
    ensures Step(bus.State(), bytes) == ReadBytes(old(bus.State()), k)
  {
    ghost var s0 := bus.State();
    bytes := [];
    var n := 0;
    while n < k
      invariant n <= k
      invariant bus.State() == ExchangeAll(s0, Fill(n))
      invariant bytes == Peek(s0.miso, n)
    {
      ByteAtDrop(s0.miso, n, 0);
      var b := bus.Xchg(IDLE);
      bytes := bytes + [b];
      ExchangeAllConcat(s0, Fill(n), [IDLE]);
      FillAdd(n, 1);
      n := n + 1;
    }
  }

  method InitLoop(bus: Bus, start: u32, cmd: bv8, arg: bv32)
    modifies bus
    ensures bus.State() == InitPoll(old(bus.State()), start, cmd, arg)
  {
    ghost var goal := InitPoll(bus.State(), start, cmd, arg);
    while true
      invariant InitPoll(bus.State(), start, cmd, arg) == goal
      decreases |bus.ticks|
    {
      var expired := WaitTimeout(bus, start, INIT_TIMEOUT);
      if expired {
        break;
      }
      var r := SendCmd(bus, cmd, arg);
      if r == 0 {
        break;
      }
    }
  }

  /** `CardType` is set before the deselect in diskio.c; the order is not observable on the bus. */
  method StartCard(bus: Bus) returns (ty: bv8)
    modifies bus
    ensures Step(bus.State(), ty) == StartupS(old(bus.State()))
  {
    SendFiller(bus, 10);
    ty := IdentifyCard(bus);
    Deselect(bus);
  }

  method IdentifyCard(bus: Bus) returns (ty: bv8)
    modifies bus
    ensures Step(bus.State(), ty) == Identify(old(bus.State()))
  {
    var r := SendCmdNowait(bus, CMD0, 0);
    if r != 1 {
      return 0;
    }
    var start := bus.TickMS();
    r := SendCmd(bus, CMD8, 0x1AA);
    if r == 1 {
      ty := IdentifySd2Card(bus, start);
    } else {
      ty := IdentifyLegacyCard(bus, start);
    }
  }

  method IdentifySd2Card(bus: Bus, start: u32) returns (ty: bv8)
    modifies bus
    ensures Step(bus.State(), ty) == IdentifySd2(old(bus.State()), start)
  {
    var ocr := ReceiveBytes(bus, 4);
    if ocr[2] != 0x01 || ocr[3] != 0xAA {
      return 0;
    }
    InitLoop(bus, start, ACMD41, 0x4000_0000);
    var expired := WaitTimeout(bus, start, INIT_TIMEOUT);
    if expired {
      return 0;
    }
    var r := SendCmd(bus, CMD58, 0);
    if r != 0 {
      return 0;
    }
    ocr := ReceiveBytes(bus, 4);
    ty := if ocr[0] & 0x40 != 0 then CT_SD2 | CT_BLOCK else CT_SD2;
  }

  method IdentifyLegacyCard(bus: Bus, start: u32) returns (ty: bv8)
    modifies bus
    ensures Step(bus.State(), ty) == IdentifyLegacy(old(bus.State()), start)
  {
    var cmd: bv8;
    var r := SendCmd(bus, ACMD41, 0);
    if r <= 1 {
      ty, cmd := CT_SD1, ACMD41;
    } else {
      ty, cmd := CT_MMC, CMD1;
    }
    InitLoop(bus, start, cmd, 0);
    var expired := WaitTimeout(bus, start, INIT_TIMEOUT);
    if expired {
      return 0;
    }
    r := SendCmd(bus, CMD16, 512);
    if r != 0 {
      ty := 0;
    }
  }

  method ReadSingle(bus: Bus, buff: array<bv8>, address: bv32) returns (res: DResult)
    requires BLOCK <= buff.Length
    modifies bus, buff
    ensures var r := ReadSingleS(old(bus.State()), address);
      && bus.State() == r.bus && res == r.res && buff[..] == r.data + old(buff[|r.data|..])
  {
    res := ResError;
    var r := SendCmd(bus, CMD17, address);
    if r == 0 {
      ghost var prev := buff[..];
      var ok := RcvrDatablock(bus, buff, 0, BLOCK);
      assert prev[..0] == [];
      if ok {
        res := ResOk;
      }
    }
    Deselect(bus);
  }

  method ReadMultiple(bus: Bus, buff: array<bv8>, address: bv32, count: nat) returns (res: DResult)
    requires 1 <= count && BLOCK * count <= buff.Length
    modifies bus, buff
    ensures var r := ReadMultipleS(old(bus.State()), address, count);
      && bus.State() == r.bus && res == r.res && buff[..] == r.data + old(buff[|r.data|..])
  {
    var left := count;
    var r := SendCmd(bus, CMD18, address);
    if r == 0 {
      left := ReadBlocksInto(bus, buff, count);
      var _ := SendCmd(bus, CMD12, 0);
    }
    Deselect(bus);
    res := if left != 0 then ResError else ResOk;
  }

  /**
   * One turn of the block loop of `disk_read`: a block received at `off` moves from what is
   * still to come to what the buffer holds below the new offset.
   */
  lemma ReadStep(goal: seq<bv8>, orig: seq<bv8>, prev: seq<bv8>, cur: seq<bv8>, off: nat,
                 block: seq<bv8>, rest: seq<bv8>)
    requires off + |block| <= |prev| == |orig|
    requires goal == prev[..off] + (block + rest) && prev[off..] == orig[off..]
    requires cur == prev[..off] + block + prev[off + |block|..]
    ensures goal == cur[..off + |block|] + rest && cur[off + |block|..] == orig[off + |block|..]
  {
    assert cur[..off + |block|] == prev[..off] + block;
    assert prev[off + |block|..] == prev[off..][|block|..];
    assert orig[off + |block|..] == orig[off..][|block|..];
  }

  /** When the block loop of `disk_read` ends, the buffer is what was received, then what it held. */
  lemma ReadDone(goal: seq<bv8>, orig: seq<bv8>, cur: seq<bv8>, off: nat)
    requires off <= |cur| == |orig| && goal == cur[..off] && cur[off..] == orig[off..]
    ensures cur == goal + orig[|goal|..]
  {
    assert cur == cur[..off] + cur[off..];
  }

  /**
   * The do-while block loop of `disk_read`, receiving block after block into `buff` 512 bytes
   * apart; the result is the count of blocks not received.
   */
  method ReadBlocksInto(bus: Bus, buff: array<bv8>, count: nat) returns (left: nat)
    requires 1 <= count && BLOCK * count <= buff.Length
    modifies bus, buff
    ensures var r := ReadBlocks(old(bus.State()), count);
      && bus.State() == r.bus && buff[..] == r.val + old(buff[|r.val|..])
      && left == count - |r.val| / BLOCK
  {
    ghost var goal := ReadBlocks(bus.State(), count);
    ghost var orig := buff[..];
    left := count;
    var off: nat := 0;
    while true
      invariant 1 <= left <= count && off == BLOCK * (count - left)
      invariant ReadBlocks(bus.State(), left).bus == goal.bus
      invariant goal.val == buff[..off] + ReadBlocks(bus.State(), left).val
      invariant buff[off..] == orig[off..]
      decreases left
    {
      ghost var before := bus.State();
      ghost var prev := buff[..];
      var ok := RcvrDatablock(bus, buff, off, BLOCK);
      if !ok {
        ReadDone(goal.val, orig, buff[..], off);
        return;
      }
      ghost var b := RcvrS(before, BLOCK);
      ReadStep(goal.val, orig, prev, buff[..], off, b.val.value, ReadBlocks(b.bus, left - 1).val);
      off := off + BLOCK;
      left := left - 1;
      if left == 0 {
        ReadDone(goal.val, orig, buff[..], off);
        return;
      }
    }
  }

  method WriteSingle(bus: Bus, buff: seq<bv8>, address: bv32) returns (res: DResult)
    requires BLOCK <= |buff|
    modifies bus
    ensures Step(bus.State(), res) == WriteSingleS(old(bus.State()), buff, address)
  {
    res := ResError;
    var r := SendCmd(bus, CMD24, address);
    if r == 0 {
      var ok := XmitDatablock(bus, buff[..BLOCK], TOKEN_SINGLE);
      if ok {
        res := ResOk;
      }
    }
    Deselect(bus);
  }

  method WriteMultiple(bus: Bus, sdc: bool, buff: seq<bv8>, address: bv32, count: u32) returns (res: DResult)
    requires 1 <= count && BLOCK * count <= |buff|
    modifies bus
    ensures Step(bus.State(), res) == WriteMultipleS(old(bus.State()), sdc, buff, address, count)
  {
    if sdc {
      var _ := SendCmd(bus, ACMD23, count as bv32);
    }
    var left: nat := count;
    var r := SendCmd(bus, CMD25, address);
    if r == 0 {
      left := WriteBlocksFrom(bus, buff, count);
      var ok := XmitDatablock(bus, [], TOKEN_STOP);
      if !ok {
        left := 1;
      }
    }
    Deselect(bus);
    res := if left != 0 then ResError else ResOk;
  }

  /** The do-while block loop of `disk_write`; the result is the count of blocks left unsent. */
  method WriteBlocksFrom(bus: Bus, buff: seq<bv8>, count: nat) returns (left: nat)
    requires 1 <= count && BLOCK * count <= |buff|
    modifies bus
    ensures Step(bus.State(), left) == WriteBlocks(old(bus.State()), buff, 0, count)
  {
    ghost var goal := WriteBlocks(bus.State(), buff, 0, count);
    left := count;
    var off: nat := 0;
    while true
      invariant 1 <= left <= count && off + BLOCK * left <= |buff|
      invariant WriteBlocks(bus.State(), buff, off, left) == goal
      decreases left
    {
      var ok := XmitDatablock(bus, buff[off..off + BLOCK], TOKEN_MULTI);
      if !ok {
        return;
      }
      off := off + BLOCK;
      left := left - 1;
      if left == 0 {
        return;
      }
    }
  }

  /** `send_cmd(CMD9, 0) == 0 && rcvr_datablock(csd, 16)`. */
  method ReadCsd(bus: Bus, csd: array<bv8>) returns (ok: bool)
    requires csd.Length == 16
    modifies bus, csd
    ensures var r := CsdFetch(old(bus.State()));
      bus.State() == r.bus && ok == r.val.Some? && (ok ==> csd[..] == r.val.value)
  {
    var r := SendCmd(bus, CMD9, 0);
    if r != 0 {
      return false;
    }
    ok := RcvrDatablock(bus, csd, 0, 16);
  }

  /** The SD status part of GET_BLOCK_SIZE: ACMD13, a skipped byte, 16 bytes kept, 48 purged. */
  method ReadSdStatus(bus: Bus, status: array<bv8>) returns (ok: bool)
    requires status.Length == 16
    modifies bus, status
    ensures var r := StatusFetch(old(bus.State()));
      bus.State() == r.bus && ok == r.val.Some? && (ok ==> status[..] == r.val.value)
  {
    ghost var c := SendCmdS(bus.State(), ACMD13, 0, true);
    var r := SendCmd(bus, ACMD13, 0);
    if r != 0 {
      return false;
    }
    var _ := bus.Xchg(IDLE);
    assert bus.State() == ExchangeAll(c.bus, [IDLE]);
    ghost var b := RcvrS(bus.State(), 16);
    ok := RcvrDatablock(bus, status, 0, 16);
    if ok {
      SendFiller(bus, 48);
      assert bus.State() == ExchangeAll(b.bus, Fill(48));
    }
  }

  method Sync(bus: Bus) returns (res: DResult)
    modifies bus
    ensures Step(bus.State(), res) == SyncS(old(bus.State()))
  {
    Select(bus);
    var ready := WaitReady(bus, CMD_TIMEOUT);
    res := if ready then ResOk else ResError;
  }

  method QuerySectorCount(bus: Bus) returns (v: Option<bv32>)
    requires SectorCountQueryDefined(bus.State())
    modifies bus
    ensures Step(bus.State(), v) == SectorCountQueryS(old(bus.State()))
  {
    var csd := new bv8[16];
    var ok := ReadCsd(bus, csd);
    v := if ok then Some(SectorCount(csd[..])) else None;
  }

  method QueryBlockSize(bus: Bus, cardType: bv8) returns (v: Option<bv32>)
    requires BlockSizeQueryDefined(bus.State(), cardType)
    modifies bus
    ensures Step(bus.State(), v) == BlockSizeQueryS(old(bus.State()), cardType)
  {
    var csd := new bv8[16];
    if cardType & CT_SD2 != 0 {
      var ok := ReadSdStatus(bus, csd);
      v := if ok then Some(AuSectors(csd[..])) else None;
    } else {
      var ok := ReadCsd(bus, csd);
      if !ok {
        v := None;
      } else if cardType & CT_SD1 != 0 {
        v := Some(Sd1EraseSectors(csd[..]));
      } else {
        v := Some(MmcEraseSectorsAsWritten(csd[..]));
      }
    }
  }

  // ---------------------------------------------------------------------------------------
  // The driver

  /** The driver's module-level state, `Stat` and `CardType`, over the bus it drives. */
  class Driver {
    var stat: bv8
    var cardType: bv8
    const bus: Bus

    function State(): DriveState
      reads this, bus
    {
      DriveState(bus.State(), stat, cardType)
    }

    /**
     * `Stat` starts as STA_NOINIT and `CardType` as 0. The card-detect and write-protect bits
     * would come from outside the driver, so the initial status is a parameter.
     */
    constructor (bus: Bus, initialStat: bv8)
      ensures this.bus == bus && stat == initialStat && cardType == 0
    {
      this.bus := bus;
      stat := initialStat;
      cardType := 0;
    }

    method DiskInitialize(drv: bv8) returns (st: bv8)
      modifies this, bus
      ensures Outcome(State(), st) == InitS(old(State()), drv)
    {
      if drv != 0 {
        return STA_NOINIT;
      }
      var ok := bus.SpiInit();
      if !ok {
        return STA_NOINIT;
      }
      if stat & STA_NODISK != 0 {
        return stat;
      }
      var ty := StartCard(bus);
      cardType := ty;
      if ty != 0 {
        bus.PostSpiInit();
        stat := stat & !STA_NOINIT;
      } else {
        stat := STA_NOINIT;
      }
      st := stat;
    }

    method DiskStatus(drv: bv8) returns (st: bv8)
      ensures st == StatusS(State(), drv)
    {
      if drv != 0 {
        return STA_NOINIT;
      }
      st := stat;
    }

    method DiskRead(drv: bv8, buff: array<bv8>, sector: bv32, count: u32) returns (res: DResult)
      requires BLOCK * count <= buff.Length
      modifies bus, buff
      ensures var r := ReadS(old(State()), drv, sector, count);
        && bus.State() == r.bus && res == r.res && buff[..] == r.data + old(buff[|r.data|..])
    {
      if drv != 0 || count == 0 {
        return ResParErr;
      }
      if stat & STA_NOINIT != 0 {
        return ResNotRdy;
      }
      var address := sector;
      if cardType & CT_BLOCK == 0 {
        address := sector * 512;
      }
      if count == 1 {
        res := ReadSingle(bus, buff, address);
      } else {
        res := ReadMultiple(bus, buff, address, count);
      }
    }

    method DiskWrite(drv: bv8, buff: seq<bv8>, sector: bv32, count: u32) returns (res: DResult)
      requires BLOCK * count <= |buff|
      modifies bus
      ensures Step(bus.State(), res) == WriteS(old(State()), drv, buff, sector, count)
    {
      if drv != 0 || count == 0 {
        return ResParErr;
      }
      if stat & STA_NOINIT != 0 {
        return ResNotRdy;
      }
      if stat & STA_PROTECT != 0 {
        return ResWrPrt;
      }
      var address := sector;
      if cardType & CT_BLOCK == 0 {
        address := sector * 512;
      }
      if count == 1 {
        res := WriteSingle(bus, buff, address);
      } else {
        res := WriteMultiple(bus, cardType & CT_SDC != 0, buff, address, count);
      }
    }

    method DiskIoctl(drv: bv8, cmd: bv8, buff: array<bv32>) returns (res: DResult)
      requires IoctlDefined(State(), drv, cmd)
      requires (cmd == GET_SECTOR_COUNT || cmd == GET_BLOCK_SIZE) ==> buff.Length >= 1
      modifies bus, buff
      ensures var r := IoctlS(old(State()), drv, cmd);
        && bus.State() == r.bus && res == r.res
        && buff[..] == if r.out.Some? then old(buff[..])[0 := r.out.value] else old(buff[..])
      decreases if cmd == CTRL_TRIM then 1 else 0
    {
      if drv != 0 {
        return ResParErr;
      }
      if stat & STA_NOINIT != 0 {
        return ResNotRdy;
      }
      res := ResError;
      if cmd == CTRL_SYNC {
        res := Sync(bus);
      } else if cmd == GET_SECTOR_COUNT {
        var v := QuerySectorCount(bus);
        if v.Some? {
          buff[0] := v.value;
          res := ResOk;
        }
      } else if cmd == GET_BLOCK_SIZE {
        var v := QueryBlockSize(bus, cardType);
        if v.Some? {
          buff[0] := v.value;
          res := ResOk;
        }
      } else if cmd == CTRL_TRIM {
        if cardType & CT_SDC != 0 {
          var csd := new bv32[4];
          var r := DiskIoctl(drv, MMC_GET_CSD, csd);
          if r == ResOk {
            // the erase sequence (CMD32, CMD33, CMD38) is never reached
            assert false;
          }
        }
      } else {
        res := ResParErr;
      }
      Deselect(bus);
    }
  }
}
