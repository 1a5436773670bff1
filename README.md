# A verified model of the FatFs MMC/SDC SPI block driver

This project models `src/diskio.c`, ChaN's MMCv3/SDv1/SDv2 driver in SPI mode as used by the
FatFsDriver Arduino library. It covers:

- the disk functions FatFs calls (`disk_initialize`, `disk_status`, `disk_read`, `disk_write`
  and `disk_ioctl`);
- the layer they use, which sends a command frame and its CRC, escapes application
  (`ACMD<n>`) commands with CMD55, waits for the card to be ready, receives and transmits data
  blocks, and decodes the CSD (card-specific data) register;
- the two module globals `Stat` and `CardType`.

The transport underneath is a scripted fake, module `SpiBus`:

- The card's data-out line is a script of bytes. Each full-duplex exchange consumes the next
  byte; once the script is exhausted the line idles at 0xFF.
- Every byte the host clocks out is appended to a log.
- The millisecond clock is a script of `tickMS()` readings. Once it is exhausted every deadline
  counts as passed, so every polling loop terminates.

Each driver routine is written as imperative Dafny over this bus, with its loops. The buffers
the driver fills (`disk_read`'s, the CSD and SD status buffers, `disk_ioctl`'s `DWORD`) are
`array`s. The buffer `disk_write` only reads is a `seq<bv8>`. Each one is proved equal to a pure function of the old bus
state: `WaitReady` against `WaitReadyS`, `SendCmdWait` against `SendCmdS`, `Driver.DiskRead`
against `ReadS`, and so on. `Stat` and `CardType` are the fields of the class `DiskIO.Driver`.
The properties are lemmas about those functions:

- which bytes the host sends and which of the card's bytes it consumes;
- which results follow from which card answers;
- which guards refuse a request without touching the bus;
- what the CSD decodings mean as fields of the register layout.

Modules:

- `SpiBus` (`bus.dfy`): the bus state and the transport the driver calls (`xchg_spi`,
  `rcvr_spi_multi`, `xmit_spi_multi`, `tickMS`, `activate`, `deactivate`, `fatfs_spi_init`,
  `fatfs_post_spi_init`).
- `Command` (`command.dfy`): command indices, the six-byte frame, and an independent CRC7 that
  checks the fixed CRC bytes.
- `Protocol` (`protocol.dfy`): `waitTimeout`, `wait_ready`, `select`, `deselect`,
  `rcvr_datablock`, `xmit_datablock`, `send_cmd_wait`, `send_cmd` and `send_cmd_nowait`.
- `ProtocolFacts` (`protocol_facts.dfy`): what those routines send and receive.
- `Csd` (`csd.dfy`): the register decodings of `disk_ioctl`.
- `Register` and `CsdLayout` (`csd_layout.dfy`): the same decodings, checked against the bit
  fields the SD and MMC physical layer specifications name.
- `DiskIO` (`diskio.dfy`): the entry points and the `Driver` class.
- `DiskFacts` (`disk_facts.dfy`): what the entry points promise.

Some choices that shape the model:

- C's `BYTE` is `bv8`.
- `DWORD` arithmetic is `bv32`, so it wraps as the target does. `DWORD` and `UINT` values
  crossing the interface are `u32`.
- The unsigned tick difference of `waitTimeout` is taken modulo 2^32.

## Model

| member | source | states |
|---|---|---|
| SpiBus.Bus.constructor | src/FatFsDriver.h:11-15 | a new bus is deselected on the slow clock, with nothing sent and the given card script, clock script and peripheral |
| SpiBus.Bus.Xchg | src/FatFsDriver.cpp:61-63 | `xchg_spi` logs the byte sent and returns the card's next byte (0xFF once the card is silent) |
| SpiBus.Bus.RcvrMulti | src/FatFsDriver.cpp:66-74 | `rcvr_spi_multi` writes the card's next `count` bytes into the buffer at `off`, leaves the rest of the buffer alone and sends fillers |
| SpiBus.Bus.XmitMulti | src/FatFsDriver.cpp:77-83 | `xmit_spi_multi` appends the data to what the host has sent |
| SpiBus.Bus.TickMS | src/FatFsDriver.cpp:27-29 | `tickMS` returns the next clock reading |
| SpiBus.Bus.Activate | src/FatFsDriver.cpp:35-38 | `activate` asserts chip select and changes nothing else |
| SpiBus.Bus.Deactivate | src/FatFsDriver.cpp:40-43 | `deactivate` releases chip select and changes nothing else |
| SpiBus.Bus.SpiInit | src/FatFsDriver.cpp:46-54 | `fatfs_spi_init` fails without a peripheral and otherwise leaves the card deselected |
| SpiBus.Bus.PostSpiInit | src/FatFsDriver.cpp:56-58 | `fatfs_post_spi_init` switches to the fast clock profile |
| SpiBus.ExchangeAllConcat | src/diskio.c:212 | exchanging two byte strings one after the other is exchanging their concatenation |
| Command.FrameRoundTrip | src/diskio.c:164-172 | the frame is 6 bytes with start bits `01` and the end bit set, and the card decodes from it the command index and the 32-bit argument sent |
| Command.FrameArgDecodes | src/diskio.c:165-168 | the four argument bytes, most significant first, recombine to the argument |
| Command.ArgBytesRecombine | src/diskio.c:165-168 | the four `(BYTE)(arg >> k)` bytes put back in place give `arg` |
| Command.FrameStartNotIdle | src/diskio.c:147-148 | for a command without the application flag, the first frame byte has bit 7 clear and so is never the idle byte 0xFF |
| Command.Cmd0CrcValid | src/diskio.c:170 | 0x95 is the CRC7 trailer of CMD0(0), by an independent CRC7 |
| Command.Cmd8CrcValid | src/diskio.c:171 | 0x87 is the CRC7 trailer of CMD8(0x1AA) |
| Command.CrcPlaceholder | src/diskio.c:169 | every command other than CMD0 and CMD8 ends its frame with 0x01 |
| Protocol.CheckTimeout | src/diskio.c:53-55 | the deadline test reads at most one clock value and leaves the card's bytes and chip select alone |
| Protocol.WaitTimeout | src/diskio.c:53-55 | `waitTimeout` is the deadline test on the next clock reading |
| ProtocolFacts.ExpiredElapsed | src/diskio.c:53-55 | a deadline has passed iff the unsigned time since `start`, counted across a wrap of the 32-bit clock, exceeds `ms` |
| ProtocolFacts.ExpiredAcrossWrap | src/diskio.c:54 | 21 ms after 0xFFFFFFF0 a 20 ms deadline has passed; 19 ms after it, it has not |
| Protocol.Poll | src/diskio.c:63-67 | a polling loop changes neither chip select nor the peripheral and only consumes the clock |
| Protocol.WaitReadyS | src/diskio.c:60-70 | `wait_ready` changes neither chip select nor the peripheral |
| Protocol.WaitReady | src/diskio.c:60-70 | the do-while loop of `wait_ready` computes `WaitReadyS` |
| ProtocolFacts.PollMosi | src/diskio.c:64-67 | a polling loop sends only fillers, as many as it exchanges |
| ProtocolFacts.PollMiso | src/diskio.c:64-67 | a polling loop consumes exactly the card bytes it exchanges |
| ProtocolFacts.PollLast | src/diskio.c:64-69 | a polling loop's result is the last card byte it read |
| ProtocolFacts.PollSkipped | src/diskio.c:64-67 | every byte before the last was not the one the loop waits for |
| ProtocolFacts.WaitReadyTraffic | src/diskio.c:60-70 | `wait_ready` sends one filler per byte it reads and consumes exactly those bytes |
| ProtocolFacts.WaitReadyResult | src/diskio.c:60-70 | `wait_ready` succeeds iff its last byte is 0xFF, and every byte before that was busy |
| Protocol.Select | src/diskio.c:88-91 | `select` asserts chip select and sends one dummy byte |
| Protocol.Deselect | src/diskio.c:78-81 | `deselect` releases chip select and sends one dummy byte |
| Protocol.RcvrS | src/diskio.c:99-113 | `rcvr_datablock` leaves chip select alone, and on success yields exactly `btr` bytes |
| Protocol.RcvrDatablock | src/diskio.c:99-113 | the token loop and bulk read compute `RcvrS`; on success the payload is stored at `off` and nothing else in the buffer changes; on failure the buffer is unchanged |
| ProtocolFacts.RcvrToken | src/diskio.c:103-107 | `rcvr_datablock` succeeds iff the byte it takes as the token is 0xFE |
| ProtocolFacts.RcvrSkipsIdle | src/diskio.c:103-106 | every byte before the token is 0xFF |
| ProtocolFacts.RcvrPayload | src/diskio.c:109 | on success the payload is the `btr` card bytes right after the token |
| ProtocolFacts.RcvrMosi | src/diskio.c:99-113 | `rcvr_datablock` sends only fillers: up to the token on failure, and token, payload and two CRC bytes on success |
| ProtocolFacts.RcvrMiso | src/diskio.c:107-110 | on success it consumes the token, `btr` bytes and 2 CRC bytes; on failure nothing after the token |
| Protocol.XmitS | src/diskio.c:122-136 | `xmit_datablock` leaves chip select alone |
| Protocol.XmitDatablock | src/diskio.c:122-136 | the ready wait, token, bulk write, dummy CRC and response check compute `XmitS` |
| ProtocolFacts.XmitNotReady | src/diskio.c:125 | a card that stays busy makes `xmit_datablock` fail having sent only the fillers of the wait |
| ProtocolFacts.XmitStop | src/diskio.c:127-128 | the stop token 0xFD is sent alone after the wait, and the result is success |
| ProtocolFacts.XmitData | src/diskio.c:127-132 | a data block is fillers, token, the 512 bytes, two dummy CRC bytes and one byte to clock in the response |
| ProtocolFacts.XmitResponse | src/diskio.c:132-133 | a data block is accepted iff the low five bits of the data response are 00101 |
| ProtocolFacts.XmitAccepted | src/diskio.c:125-133 | a data block is accepted iff the card becomes ready and then answers `xxx00101` |
| Protocol.ResponsePoll | src/diskio.c:176-179 | the response poll reads no clock and leaves chip select alone |
| Protocol.ReceiveResponse | src/diskio.c:176-179 | the response loop computes `ResponsePoll` with 10 tries |
| ProtocolFacts.ResponseMosi | src/diskio.c:176-179 | the response poll sends only fillers |
| ProtocolFacts.ResponseMiso | src/diskio.c:176-179 | the response poll consumes exactly the bytes it reads |
| ProtocolFacts.ResponseLast | src/diskio.c:176-181 | the response is the last byte read |
| ProtocolFacts.ResponseFirstClear | src/diskio.c:176-179 | every byte before the response had bit 7 set, and a response with bit 7 set means all 10 tries were used |
| ProtocolFacts.ResponseTraffic | src/diskio.c:176-179 | the poll reads at most 10 bytes and sends one filler per byte read |
| Protocol.Transaction | src/diskio.c:153-181 | a command leaves the peripheral configuration alone |
| Protocol.SendCmdS | src/diskio.c:144-182 | `send_cmd_wait` leaves the peripheral configuration alone |
| Protocol.SendCmdWait | src/diskio.c:144-182 | the routine, including its recursive CMD55 call, computes `SendCmdS` |
| Protocol.Transact | src/diskio.c:153-181 | the body after the CMD55 escape computes `Transaction` |
| Protocol.SendFrame | src/diskio.c:164-175 | the frame is sent, followed by one stuff byte for CMD12 only |
| Protocol.SendCmd | src/diskio.c:184-186 | `send_cmd` is `send_cmd_wait` with `wait` set |
| Protocol.SendCmdNowait | src/diskio.c:188-190 | `send_cmd_nowait` is `send_cmd_wait` with `wait` clear |
| ProtocolFacts.AppCommandEscape | src/diskio.c:147-151 | an application command sends CMD55 first; if CMD55 answers more than 1 that answer is returned and the command is never sent; otherwise the command follows without its flag |
| ProtocolFacts.Reselect | src/diskio.c:155-156 | deselect then select sends two fillers and consumes two card bytes |
| ProtocolFacts.CmdReadyTraffic | src/diskio.c:154-157 | a command other than CMD12 reselects and waits, sending only fillers; the wait succeeds iff the last byte was 0xFF, and the card stays selected |
| ProtocolFacts.TransactionBusy | src/diskio.c:157-160 | a busy card with `wait` set is deselected, 0xFF is returned and no frame is sent |
| ProtocolFacts.TransactionFrame | src/diskio.c:154-179 | the host sends fillers, the 6-byte frame and the poll's fillers, in that order |
| ProtocolFacts.TransactionResponse | src/diskio.c:176-181 | the result is the response the card sends after the frame |
| ProtocolFacts.TransactionSelected | src/diskio.c:154-161 | a command that got past the wait leaves the card selected |
| ProtocolFacts.PollAfter | src/diskio.c:176-181 | a poll started `j` bytes into the card's output returns the byte at the offset `ResponseAt` names |
| ProtocolFacts.Cmd12Traffic | src/diskio.c:154-175 | CMD12 skips the reselect and ready wait: frame, one discarded byte and the poll; chip select and clock unchanged |
| Csd.SectorCount | src/diskio.c:350-362 | GET_SECTOR_COUNT's capacity: version 2.0 or legacy layout by CSD_STRUCTURE; its meaning is stated by `CsdLayout.SectorCountV2Layout`, `CsdLayout.CSizeV1Field`, `CsdLayout.LegacyExponentField` and `CsdLayout.SectorCountV1Exact` |
| Csd.AuSectors | src/diskio.c:370 | the SDv2 erase block, `16 << (status[10] >> 4)`; meaning stated by `CsdLayout.AuSectorsLayout` |
| Csd.Sd1EraseSectors | src/diskio.c:377 | the SDv1 erase block; meaning stated by `CsdLayout.Sd1EraseSectorsLayout` |
| Csd.MmcEraseSectors | src/diskio.c:379 | the MMC erase group as the register layout defines it, (ERASE_GRP_SIZE + 1) * (ERASE_GRP_MULT + 1); the corrected half of the finding, stated by `CsdLayout.MmcEraseFactorsLayout` |
| Csd.MmcEraseSectorsAsWritten | src/diskio.c:379 | the MMC erase group as the code computes it, with the multiplier's high bits from `csd[11] & 3`; the driver model uses it, and `CsdLayout.MmcEraseAsWrittenMisreads` shows where it differs |
| CsdLayout.CsdVersionField | src/diskio.c:352 | `csd[0] >> 6` is CSD_STRUCTURE, bits [127:126] |
| CsdLayout.SectorCountV2Layout | src/diskio.c:353-354 | version 2.0: the count is (C_SIZE + 1) * 1024 modulo 2^32, with C_SIZE bits [69:48]; it is exact up to C_SIZE 0x3FFEFF |
| CsdLayout.SectorCountV2Wraps | src/diskio.c:353-354 | the largest value the 22-bit C_SIZE field can hold gives 2^32 sectors, which the `DWORD` holds as 0 |
| CsdLayout.CSizeV1Field | src/diskio.c:357 | legacy `csize` is C_SIZE + 1, with C_SIZE bits [73:62] |
| CsdLayout.LegacyExponentField | src/diskio.c:356 | legacy `n` is C_SIZE_MULT + 2 + READ_BL_LEN, with bits [49:47] and [83:80] |
| CsdLayout.SectorCountV1Exact | src/diskio.c:358 | the legacy 32-bit shift loses nothing |
| CsdLayout.AuSectorsLayout | src/diskio.c:370 | the SDv2 block size is 32 << (AU_SIZE - 1) sectors, i.e. 16 KiB * 2^(AU_SIZE - 1) |
| CsdLayout.Sd1EraseSectorsLayout | src/diskio.c:377 | SDv1: (SECTOR_SIZE + 1) write blocks of 2^WRITE_BL_LEN bytes, in sectors, for block lengths 512 to 2048 |
| CsdLayout.SectorSizeField | src/diskio.c:377 | the bytes the code combines are SECTOR_SIZE, bits [45:39] |
| CsdLayout.WriteBlLenField | src/diskio.c:377 | WRITE_BL_LEN is bits [25:22] |
| CsdLayout.MmcEraseFactorsLayout | src/diskio.c:379 | corrected MMC decoding: its factors are ERASE_GRP_SIZE + 1 (bits [46:42]) and ERASE_GRP_MULT + 1 (bits [41:37]) |
| CsdLayout.EraseGroupFields | src/diskio.c:379 | where ERASE_GRP_SIZE and ERASE_GRP_MULT lie in bytes 10 and 11 |
| CsdLayout.MmcEraseAsWrittenMisreads | src/diskio.c:379 | a CSD with ERASE_GRP_MULT 24 and ERASE_GRP_SIZE 0 has 25-sector erase groups; the code as written yields 1 |
| DiskIO.Driver.constructor | src/diskio.c:48-49 | `CardType` starts at 0 and `Stat` at the given initial status |
| DiskIO.InitPoll | src/diskio.c:219-231 | the polling loop of initialization leaves the peripheral configuration alone |
| DiskIO.InitLoop | src/diskio.c:219-231 | `while (!waitTimeout(...) && send_cmd(cmd, arg));` computes `InitPoll` |
| DiskIO.Identify | src/diskio.c:213-235 | the negotiation leaves the peripheral configuration alone |
| DiskIO.IdentifyCard | src/diskio.c:213-235 | the negotiation routine computes `Identify` |
| DiskIO.IdentifySd2Card | src/diskio.c:217-224 | the SDv2 branch computes `IdentifySd2` |
| DiskIO.IdentifyLegacyCard | src/diskio.c:226-233 | the SDv1/MMC branch computes `IdentifyLegacy` |
| DiskIO.SendFiller | src/diskio.c:212 | the dummy-clock loop sends `k` fillers |
| DiskIO.ReceiveBytes | src/diskio.c:217-221 | the OCR loop returns the card's next `k` bytes |
| DiskIO.StartCard | src/diskio.c:212-237 | dummy clocks, negotiation and deselect compute `StartupS` |
| DiskIO.StartupS | src/diskio.c:212-237 | the 80 dummy clocks, the negotiation and the deselect; its type is stated by `DiskFacts.IdentifyKnownType` through `DiskFacts.InitCardType` |
| DiskIO.InitS | src/diskio.c:203-247 | `disk_initialize` as a function of the drive state; its properties are the `DiskFacts.Init*` lemmas |
| DiskIO.Driver.DiskInitialize | src/diskio.c:203-247 | the new `Stat`, `CardType` and bus state, and the status returned, are `InitS` of the old state |
| DiskFacts.IdentifyKnownType | src/diskio.c:213-233 | the negotiated type is 0, MMC, SDv1, SDv2 or block-addressed SDv2 |
| DiskFacts.Sd2Types | src/diskio.c:217-224 | the SDv2 branch yields 0, SDv2 or block-addressed SDv2 |
| DiskFacts.LegacyTypes | src/diskio.c:226-233 | the other branch yields 0, SDv1 or MMC |
| DiskFacts.IdentifyNeedsIdle | src/diskio.c:214 | a typed card answered CMD0 with 1 |
| DiskFacts.IdentifySd2Echo | src/diskio.c:216-218 | an SDv2 type needs CMD8 answered with 1 and the R7 echo 0x01, 0xAA |
| DiskFacts.IdentifyBadEcho | src/diskio.c:216-218 | a card that answers CMD8 with 1 but does not echo 0x01, 0xAA gets type 0 |
| DiskFacts.InitOtherDrive | src/diskio.c:207 | drive numbers other than 0 give STA_NOINIT and change nothing |
| DiskFacts.InitNoInterface | src/diskio.c:208 | a failed SPI init gives STA_NOINIT and changes nothing |
| DiskFacts.InitNoCard | src/diskio.c:210 | with STA_NODISK set, `Stat` is returned and neither global changes |
| DiskFacts.InitCardType | src/diskio.c:236 | after a negotiation `CardType` is one of the known types |
| DiskFacts.InitStatus | src/diskio.c:239-244 | a typed card clears only STA_NOINIT; an untyped one leaves `Stat` exactly STA_NOINIT |
| DiskFacts.InitReady | src/diskio.c:236-244 | after a negotiation the drive is ready iff a type was found |
| DiskFacts.InitDeselects | src/diskio.c:237-240 | starting from the slow clock, the negotiation ends deselected, and on the fast clock iff a type was found (nothing switches back to the slow profile) |
| DiskFacts.InitCmd0Fails | src/diskio.c:214-243 | no idle answer to CMD0 gives type 0 and status STA_NOINIT |
| DiskFacts.InitReturnsStatus | src/diskio.c:246-258 | `disk_initialize` returns what `disk_status` then reports |
| DiskIO.Driver.DiskStatus | src/diskio.c:255-259 | `disk_status` is STA_NOINIT for another drive and `Stat` for drive 0, and changes nothing |
| DiskIO.StatusS | src/diskio.c:255-259 | `disk_status`: STA_NOINIT for another drive, `Stat` for drive 0; stated by `DiskFacts.InitReturnsStatus` |
| DiskIO.Address | src/diskio.c:271 | the command argument for a sector; stated by `DiskFacts.AddressBytes` |
| DiskFacts.AddressBytes | src/diskio.c:271 | a byte-addressed card gets sector * 512 mod 2^32; a block-addressed card gets the sector |
| DiskFacts.ByteOffset | src/diskio.c:271 | `DWORD` multiplication by 512 is multiplication modulo 2^32 |
| DiskFacts.ByteOffsetLow | src/diskio.c:271 | only the low 23 bits of the sector reach the product |
| DiskIO.ReadBlocks | src/diskio.c:281-284 | the block loop yields whole blocks, at most `n` |
| DiskIO.ReadSingleS | src/diskio.c:273-278 | a single read stores at most one block |
| DiskIO.ReadMultipleS | src/diskio.c:279-287 | a multiple read stores at most `count` blocks |
| DiskIO.ReadS | src/diskio.c:267-291 | `disk_read` stores at most `count` blocks |
| DiskIO.ReadSingle | src/diskio.c:273-288 | CMD17, one block into the buffer, deselect: computes `ReadSingleS`, and the buffer holds the data received followed by its old contents |
| DiskIO.ReadMultiple | src/diskio.c:279-288 | CMD18, the block loop, CMD12, deselect: computes `ReadMultipleS`, with the buffer as for a single read |
| DiskIO.ReadBlocksInto | src/diskio.c:281-284 | the do-while loop stores block `i` at offset 512 i and returns how many blocks were not received |
| DiskIO.Driver.DiskRead | src/diskio.c:267-291 | `disk_read` computes `ReadS`, and the buffer holds what was read followed by its old contents |
| DiskFacts.ReadParamError | src/diskio.c:268 | RES_PARERR iff another drive or a zero count |
| DiskFacts.ReadNotReady | src/diskio.c:269 | RES_NOTRDY iff a valid request to an uninitialized drive |
| DiskFacts.ReadGuardsQuiet | src/diskio.c:268-269 | a refused read touches neither bus nor buffer |
| DiskFacts.ReadOutcome | src/diskio.c:273-290 | an accepted read gives RES_OK or RES_ERROR, OK iff all `count` sectors were stored, and ends deselected |
| DiskFacts.ReadSingleOk | src/diskio.c:274-276 | a single read succeeds iff CMD17 answers 0 and the data token is 0xFE |
| DiskFacts.ReadSingleData | src/diskio.c:275 | what it stores is the 512 bytes after the token |
| DiskFacts.ReadMultipleOk | src/diskio.c:280-290 | a multiple read succeeds iff CMD18 answers 0 and every block arrives |
| DiskFacts.ReadBlocksAll | src/diskio.c:281-284 | the loop gets all `n` blocks iff each block arrives with its token |
| DiskFacts.ReadBlocksFillers | src/diskio.c:281-284 | the block loop sends only fillers |
| DiskFacts.ReadMultipleTraffic | src/diskio.c:280-288 | after CMD18 is accepted the host sends fillers for the blocks, then the CMD12 frame once, then its stuff byte, poll and deselect byte |
| DiskFacts.ReadMultipleRefused | src/diskio.c:280-288 | a refused CMD18 gives RES_ERROR, sends no CMD12 and sends only the deselect byte |
| DiskFacts.ReadStopTraffic | src/diskio.c:285-288 | `send_cmd(CMD12, 0)` then `deselect` sends the frame, the stuff byte, the poll and one byte |
| DiskIO.WriteSingleS | src/diskio.c:307-312 | the single write: CMD24, then `BlockWrite` of its answer |
| DiskIO.BlockWrite | src/diskio.c:308-312 | after CMD24's answer: one 0xFE data block if the command was accepted, then deselect; stated by `DiskFacts.WriteSingleOk` and `DiskFacts.WriteSingleSends` |
| DiskIO.WriteMultipleS | src/diskio.c:313-323 | the multiple write: ACMD23 for SD cards, CMD25, the block loop, the stop token, deselect; stated by `DiskFacts.WriteMultipleOk`, `DiskFacts.WriteHintIgnored` and `DiskFacts.WriteMultipleTraffic` |
| DiskIO.BlocksWrite | src/diskio.c:315-323 | after CMD25's answer: the block loop and the stop token if the command was accepted, then deselect; stated by `DiskFacts.WriteMultipleTraffic` |
| DiskIO.WriteS | src/diskio.c:300-326 | `disk_write` as a function: the three guards, then the single or multiple write; stated by the `DiskFacts.Write*` guard and outcome lemmas |
| DiskIO.WriteBlocks | src/diskio.c:316-319 | the write block loop leaves chip select alone and returns at most `n` blocks left |
| DiskIO.WriteSingle | src/diskio.c:307-323 | CMD24, one block, deselect: computes `WriteSingleS` |
| DiskIO.WriteMultiple | src/diskio.c:313-323 | ACMD23 for SD cards, CMD25, the loop, the stop token and deselect: computes `WriteMultipleS` |
| DiskIO.WriteBlocksFrom | src/diskio.c:316-319 | the do-while loop sends block `i` from offset 512 i and computes `WriteBlocks` |
| DiskIO.Driver.DiskWrite | src/diskio.c:300-326 | `disk_write` computes `WriteS` |
| DiskFacts.WriteParamError | src/diskio.c:301 | RES_PARERR iff another drive or a zero count |
| DiskFacts.WriteNotReady | src/diskio.c:302 | RES_NOTRDY iff a valid request to an uninitialized drive |
| DiskFacts.WriteProtected | src/diskio.c:303 | RES_WRPRT iff a valid request to a ready, write-protected drive |
| DiskFacts.WriteGuardsQuiet | src/diskio.c:301-303 | a refused write does not touch the bus |
| DiskFacts.WriteOutcome | src/diskio.c:307-325 | an accepted write gives RES_OK or RES_ERROR and ends deselected |
| DiskFacts.WriteSingleOk | src/diskio.c:308-310 | given CMD24's answer, a single write succeeds iff that answer is 0, the card becomes ready and it accepts the block |
| DiskFacts.WriteSingleSends | src/diskio.c:308-323 | once CMD24 is accepted and the card is ready, the block sent is the first 512 buffer bytes, between the token 0xFE and the dummy CRC, and then the deselect byte |
| DiskFacts.WriteBlocksAll | src/diskio.c:316-319 | the loop leaves no block unsent iff the card accepts every one |
| DiskFacts.WriteMultipleOk | src/diskio.c:315-325 | a multiple write succeeds iff CMD25 answers 0, every block is accepted and the card is ready for the stop token |
| DiskFacts.WriteMultipleTraffic | src/diskio.c:315-323 | once CMD25 is accepted the host sends the block loop's bytes, then, even after a failed block, the stop-token wait and the stop token 0xFD once if the card became ready, then the deselect byte |
| DiskFacts.WriteHintIgnored | src/diskio.c:314 | the answer to the ACMD23 hint has no effect on the rest of the write |
| DiskFacts.WriteBlocksUses | src/diskio.c:316-319 | the loop reads only the `n` blocks of the buffer from `off` on |
| DiskFacts.WriteBlocksTraffic | src/diskio.c:316-319 | block `i` of the loop sends bytes [off + 512 i, off + 512 i + 512) of the buffer, between the token 0xFC and the dummy CRC |
| DiskIO.CsdFetch | src/diskio.c:351 | a fetched CSD is 16 bytes |
| DiskIO.StatusFetch | src/diskio.c:366-369 | a fetched SD status prefix is 16 bytes |
| DiskIO.ReadCsd | src/diskio.c:351 | `send_cmd(CMD9, 0) == 0 && rcvr_datablock(csd, 16)` computes `CsdFetch` and fills the buffer on success |
| DiskIO.ReadSdStatus | src/diskio.c:366-369 | ACMD13, a skipped byte, 16 bytes kept and 48 purged: computes `StatusFetch` |
| DiskIO.SyncS | src/diskio.c:345-348 | CTRL_SYNC: select and wait for the card; stated by `DiskFacts.IoctlSync` |
| DiskIO.SectorCountQueryS | src/diskio.c:350-362 | GET_SECTOR_COUNT: the CSD's capacity, if the CSD arrives; stated by `DiskFacts.IoctlSectorCount` |
| DiskIO.BlockSizeQueryS | src/diskio.c:364-384 | GET_BLOCK_SIZE: the AU size for SDv2, the SDv1 erase size, or the MMC erase size as `MmcEraseSectorsAsWritten`; stated by `DiskFacts.IoctlBlockSize` and `DiskFacts.IoctlMmcMisreads` |
| DiskIO.Sync | src/diskio.c:346-347 | select and wait: computes `SyncS` |
| DiskIO.QuerySectorCount | src/diskio.c:350-362 | the capacity case computes `SectorCountQueryS` |
| DiskIO.QueryBlockSize | src/diskio.c:364-384 | the erase-block case computes `BlockSizeQueryS`, with the MMC size decoded as line 379 writes it |
| DiskIO.IoctlS | src/diskio.c:334-406 | a value is stored only on RES_OK and only for GET_SECTOR_COUNT or GET_BLOCK_SIZE |
| DiskIO.Driver.DiskIoctl | src/diskio.c:334-406 | `disk_ioctl` computes `IoctlS`, and `buff[0]` changes exactly when a value is stored |
| DiskFacts.CsdFetchFound | src/diskio.c:351 | the CSD is fetched iff CMD9 answers 0 and the data token is 0xFE |
| DiskFacts.CsdFetchKept | src/diskio.c:351 | the CSD is the 16 bytes after the token |
| DiskFacts.StatusFetchFound | src/diskio.c:366-368 | the SD status is fetched iff ACMD13 answers 0 and, one byte later, the data token is 0xFE |
| DiskFacts.StatusFetchKept | src/diskio.c:368-369 | the 16 bytes after the token are kept |
| DiskFacts.IoctlOtherDrive | src/diskio.c:339 | another drive gives RES_PARERR with the bus untouched |
| DiskFacts.IoctlParamError | src/diskio.c:339-400 | RES_PARERR iff another drive or, on a ready drive, a code the switch does not handle |
| DiskFacts.IoctlNotReady | src/diskio.c:340 | RES_NOTRDY iff drive 0 is uninitialized, with the bus untouched |
| DiskFacts.IoctlDeselects | src/diskio.c:403 | every call that reaches the switch ends deselected |
| DiskFacts.IoctlTrimFails | src/diskio.c:386-397 | CTRL_TRIM always gives RES_ERROR and sends no erase command, because MMC_GET_CSD falls to `default` |
| DiskFacts.IoctlOutput | src/diskio.c:342-401 | a value is stored iff the result is RES_OK for GET_SECTOR_COUNT or GET_BLOCK_SIZE |
| DiskFacts.IoctlSync | src/diskio.c:345-348 | CTRL_SYNC gives RES_OK iff the selected card sends 0xFF before the deadline, and RES_ERROR otherwise |
| DiskFacts.IoctlSectorCount | src/diskio.c:350-362 | RES_OK iff the CSD is fetched; the value stored is then the capacity the CSD describes |
| DiskFacts.IoctlBlockSize | src/diskio.c:364-384 | RES_OK iff the register needed arrives (the SD status for SDv2, the CSD otherwise); the value stored is then the AU size for SDv2, the SDv1 erase size, or for an MMC the erase size as line 379 computes it |
| DiskFacts.IoctlMmcMisreads | src/diskio.c:379 | an MMC whose CSD has ERASE_GRP_MULT 24 and ERASE_GRP_SIZE 0 gets RES_OK and the value 1 from GET_BLOCK_SIZE, while its erase group is 25 sectors |

## Left out

- I/O: the Arduino SPI peripheral, its DMA path and chip-select pin handling become the scripted fake bus.
- Clock: `millis()` behind `tickMS` becomes the scripted fake clock.
- Logging: `logmsg` (src/FatFsDriver.cpp:31) is not modelled; the driver does not call it.
- `get_fattime` (src/FatFsDriver.cpp:9-25) is not part of this model: it returns a constant timestamp and the driver does not call it.
- `volatile` on `Stat` and any concurrent access are not modelled.
- `MMC_WP` and `MMC_CD`: the card-detect and write-protect hooks are not reached by any code. The initial `Stat` is a constructor parameter instead of STA_NOINIT, so that STA_NODISK and STA_PROTECT can be set.
- diskio.h is not part of this model. Its constants are taken at the standard FatFs values:
  - STA_NOINIT 1, STA_NODISK 2, STA_PROTECT 4;
  - CT_MMC 1, CT_SD1 2, CT_SD2 4, CT_BLOCK 8;
  - CTRL_SYNC 0, GET_SECTOR_COUNT 1, GET_BLOCK_SIZE 3, CTRL_TRIM 4, MMC_GET_CSD 11.
- `FF_FS_READONLY`: the write path is compiled in.
- Erase sequence: CMD32, CMD33, CMD38 and the 30-second wait of CTRL_TRIM (src/diskio.c:389-396) are unreachable. The recursive MMC_GET_CSD call falls to `default` and returns RES_PARERR, so the model has `assert false` in their place.
- DiskIO.Driver.DiskIoctl: requires `IoctlDefined`. This excludes the two shifts C leaves undefined:
  - a legacy CSD with `n < 9` (src/diskio.c:358);
  - an SDv1 CSD whose `csd[13] >> 6` is 0 (src/diskio.c:377).
- DiskIO.Driver.DiskRead, DiskIO.Driver.DiskWrite: require a buffer of at least `count` * 512 bytes, which the C caller must provide.
- SpiBus.Bus.XmitMulti: the bulk write of `xmit_spi_multi` is modelled as reading nothing back. The card's output is therefore not advanced during the 512 data bytes, which places the data response three bytes after the token.
- SPI setup: the SPI clock rates and modes of `fatfs_spi_init` and `fatfs_post_spi_init` are reduced to a "fast" flag.
- Timing: the model does not state how long any loop runs in real time. A deadline is a number of clock readings.

## Findings

| source | as written | input that shows it | evidently intended | confidence | as-written member | corrected member |
|---|---|---|---|---|---|---|
| src/diskio.c:379 | the MMC erase-group multiplier takes its high two bits from `csd[11] & 3` (bits [33:32]) | a CSD with `csd[10] = 0x03` and `csd[11] = 0`, i.e. ERASE_GRP_MULT = 24 and ERASE_GRP_SIZE = 0: the code reports 1 sector | `csd[10] & 3` (bits [41:40]), giving (ERASE_GRP_SIZE + 1) * (ERASE_GRP_MULT + 1) = 25 sectors | medium, not executed | DiskFacts.IoctlMmcMisreads | CsdLayout.MmcEraseFactorsLayout |

The driver model computes what line 379 computes (`Csd.MmcEraseSectorsAsWritten`, used by
`DiskIO.BlockSizeQueryS`, `DiskIO.IoctlS` and `DiskIO.Driver.DiskIoctl`). `DiskFacts.IoctlMmcMisreads`
shows the misread through `disk_ioctl` itself, and `CsdLayout.MmcEraseAsWrittenMisreads` shows it on
the decoding alone. The corrected decoding `Csd.MmcEraseSectors` is proved against the register
layout by `CsdLayout.MmcEraseFactorsLayout`.

Version-2.0 capacity does wrap, but that is a limit of the `DWORD` type rather than a mistake. `CsdLayout.SectorCountV2Wraps` shows that a card with C_SIZE = 0x3FFFFF has 2^32 sectors and is reported as 0.
