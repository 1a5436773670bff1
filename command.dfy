/**
 * Encoding of an SD/MMC command packet in SPI mode: a start pattern `01` with the six-bit
 * command index, the 32-bit argument most significant byte first, and a CRC7 with the end bit.
 * The driver sends a real CRC only for the two commands a card checks in SPI mode (CMD0, and
 * CMD8 with the argument it always uses), and a placeholder otherwise.
 */
module Command {
  import opened SpiBus

  /** Command indices. Bit 7 marks an application command, which needs a CMD55 prefix. */
  const CMD0: bv8 := 0             // GO_IDLE_STATE
  const CMD1: bv8 := 1             // SEND_OP_COND (MMC)
  const ACMD41: bv8 := 0x80 + 41   // SEND_OP_COND (SDC)
  const CMD8: bv8 := 8             // SEND_IF_COND
  const CMD9: bv8 := 9             // SEND_CSD
  const CMD12: bv8 := 12           // STOP_TRANSMISSION
  const ACMD13: bv8 := 0x80 + 13   // SD_STATUS (SDC)
  const CMD16: bv8 := 16           // SET_BLOCKLEN
  const CMD17: bv8 := 17           // READ_SINGLE_BLOCK
  const CMD18: bv8 := 18           // READ_MULTIPLE_BLOCK
  const ACMD23: bv8 := 0x80 + 23   // SET_WR_BLK_ERASE_COUNT (SDC)
  const CMD24: bv8 := 24           // WRITE_BLOCK
  const CMD25: bv8 := 25           // WRITE_MULTIPLE_BLOCK
  const CMD55: bv8 := 55           // APP_CMD
  const CMD58: bv8 := 58           // READ_OCR

  predicate IsAppCommand(cmd: bv8) { cmd & 0x80 != 0 }

  /** `(BYTE)(arg >> k)`: the byte of the argument that starts at bit `k`. */
  function ArgByte(arg: bv32, k: bv8): bv8
    requires k < 32
  {
    ((arg >> k) & 0xFF) as bv8
  }

  /** The last byte of the frame: a valid CRC for CMD0 and CMD8, a dummy CRC with the end bit otherwise. */
  function CrcByte(cmd: bv8): bv8 {
    if cmd == CMD0 then 0x95 else if cmd == CMD8 then 0x87 else 0x01
  }

  /** The six bytes the host sends for command `cmd` (application flag already removed). */
  function Frame(cmd: bv8, arg: bv32): seq<bv8> {
    [0x40 | cmd, ArgByte(arg, 24), ArgByte(arg, 16), ArgByte(arg, 8), ArgByte(arg, 0), CrcByte(cmd)]
  }

  /** What a card reads back from a frame: the command index and the argument. */
  function FrameIndex(f: seq<bv8>): bv8
    requires |f| == 6
  {
    f[0] & 0x3F
  }

  function FrameArg(f: seq<bv8>): bv32
    requires |f| == 6
  {
    (f[1] as bv32 << 24) | (f[2] as bv32 << 16) | (f[3] as bv32 << 8) | f[4] as bv32
  }

  /**
   * A frame is well formed (start bits `01`, end bit 1) and a card decodes from it exactly the
   * index and the argument that were encoded.
   */
  lemma FrameRoundTrip(cmd: bv8, arg: bv32)
    requires cmd < 0x40
    ensures |Frame(cmd, arg)| == 6
    ensures Frame(cmd, arg)[0] & 0xC0 == 0x40 && Frame(cmd, arg)[5] & 0x01 == 0x01
    ensures FrameIndex(Frame(cmd, arg)) == cmd
    ensures FrameArg(Frame(cmd, arg)) == arg
  {
    var f := Frame(cmd, arg);
    assert f[0] & 0xC0 == 0x40 && f[0] & 0x3F == cmd by {
      assert f[0] == 0x40 | cmd;
    }
    assert f[5] & 0x01 == 0x01 by {
      assert f[5] == CrcByte(cmd);
    }
    FrameArgDecodes(cmd, arg);
  }

  lemma FrameArgDecodes(cmd: bv8, arg: bv32)
    ensures FrameArg(Frame(cmd, arg)) == arg
  {
    var f := Frame(cmd, arg);
    assert f[1] == ArgByte(arg, 24) && f[2] == ArgByte(arg, 16);
    assert f[3] == ArgByte(arg, 8) && f[4] == ArgByte(arg, 0);
    ArgBytesRecombine(arg);
  }

  lemma ArgBytesRecombine(arg: bv32)
    ensures (ArgByte(arg, 24) as bv32 << 24) | (ArgByte(arg, 16) as bv32 << 16)
      | (ArgByte(arg, 8) as bv32 << 8) | ArgByte(arg, 0) as bv32 == arg
  {
  }

  /** No frame of a command without the application flag starts with the idle byte. */
  lemma FrameStartNotIdle(cmd: bv8, arg: bv32)
    requires !IsAppCommand(cmd)
    ensures Frame(cmd, arg)[0] != IDLE && Frame(cmd, arg)[0] & 0x80 == 0
  {
  }

  // An independent CRC7 (generator x^7 + x^3 + 1, most significant bit first), to check the
  // constant CRC bytes against.

  function Crc7Bit(crc: bv8, bit: bool): bv8 {
    var shifted := (crc << 1) & 0x7F;
    if ((crc & 0x40) != 0) != bit then shifted ^ 0x09 else shifted
  }

  function BitOf(b: bv8, i: nat): bool
    requires i < 8
  {
    (b >> i) & 1 == 1
  }

  function Crc7Byte(crc: bv8, b: bv8): bv8 {
    var c7 := Crc7Bit(crc, BitOf(b, 7));
    var c6 := Crc7Bit(c7, BitOf(b, 6));
    var c5 := Crc7Bit(c6, BitOf(b, 5));
    var c4 := Crc7Bit(c5, BitOf(b, 4));
    var c3 := Crc7Bit(c4, BitOf(b, 3));
    var c2 := Crc7Bit(c3, BitOf(b, 2));
    var c1 := Crc7Bit(c2, BitOf(b, 1));
    Crc7Bit(c1, BitOf(b, 0))
  }

  function Crc7(bytes: seq<bv8>, crc: bv8): bv8
    decreases |bytes|
  {
    if bytes == [] then crc else Crc7(bytes[1..], Crc7Byte(crc, bytes[0]))
  }

  /** The last byte a card expects: CRC7 of the first five bytes, then the end bit. */
  function CrcTrailer(f: seq<bv8>): bv8
    requires |f| == 6
  {
    (Crc7(f[..5], 0) << 1) | 1
  }

  /** The fixed byte sent with CMD0(0) is the CRC a card checks. */
  lemma Cmd0CrcValid()
    ensures Frame(CMD0, 0)[5] == CrcTrailer(Frame(CMD0, 0))
  {
    var head: seq<bv8> := [0x40, 0, 0, 0, 0];
    assert Frame(CMD0, 0)[..5] == head;
    assert Crc7Byte(0, 0x40) == 0x64;
    assert Crc7Byte(0x64, 0) == 0x6D;
    assert Crc7Byte(0x6D, 0) == 0x66;
    assert Crc7Byte(0x66, 0) == 0x49;
    assert Crc7Byte(0x49, 0) == 0x4A;
    assert head[1..] == [0, 0, 0, 0];
  }

  /** The fixed byte sent with CMD8 is the CRC a card checks, for the argument 0x1AA the driver uses. */
  lemma Cmd8CrcValid()
    ensures Frame(CMD8, 0x1AA)[5] == CrcTrailer(Frame(CMD8, 0x1AA))
  {
    var head: seq<bv8> := [0x48, 0, 0, 0x01, 0xAA];
    assert ArgByte(0x1AA, 24) == 0 && ArgByte(0x1AA, 16) == 0;
    assert ArgByte(0x1AA, 8) == 0x01 && ArgByte(0x1AA, 0) == 0xAA;
    assert Frame(CMD8, 0x1AA)[..5] == head;
    assert Crc7Byte(0, 0x48) == 0x2C;
    assert Crc7Byte(0x2C, 0) == 0x35;
    assert Crc7Byte(0x35, 0) == 0x0C;
    assert Crc7Byte(0x0C, 0x01) == 0x58;
    assert Crc7Byte(0x58, 0xAA) == 0x43;
    assert head[1..] == [0, 0, 0x01, 0xAA];
  }

  /** Every other command carries the placeholder 0x01, which is not a CRC check the card makes. */
  lemma CrcPlaceholder(cmd: bv8, arg: bv32)
    requires cmd != CMD0 && cmd != CMD8
    ensures Frame(cmd, arg)[5] == 0x01
  {
  }
}
