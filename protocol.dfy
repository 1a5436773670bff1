/**
 * The command and data-block layer of the driver (diskio.c, `waitTimeout` to `send_cmd_nowait`):
 * readiness polling under a deadline, chip-select handling, data block receive and transmit,
 * and the command/response exchange.
 *
 * Each operation is a method over the bus, proved equal to a function of the old bus state;
 * the functions are what the rest of the model and the lemmas reason about.
 */
module Protocol {
  import opened SpiBus
  import opened Command

  datatype Option<T> = None | Some(value: T)

  /** Timeouts, in milliseconds. */
  const INIT_TIMEOUT: u32 := 1000
  const READ_TIMEOUT: u32 := 200
  const WRITE_TIMEOUT: u32 := 500
  const CMD_TIMEOUT: u32 := 600

  /** Data tokens. */
  const TOKEN_SINGLE: bv8 := 0xFE   // start of a block read, or of a single-block write
  const TOKEN_MULTI: bv8 := 0xFC    // start of a block in a multiple-block write
  const TOKEN_STOP: bv8 := 0xFD     // end of a multiple-block write

  /** All data blocks the driver moves are this long. */
  const BLOCK: nat := 512

  // ---------------------------------------------------------------------------------------
  // Deadlines

  /** `waitTimeout`'s test on a clock reading: more than `ms` ms since `start`, unsigned and wrapping. */
  function Expired(now: u32, start: u32, ms: u32): bool {
    (now - start) % TWO_32 > ms
  }

  /** `waitTimeout(start, ms)` on the scripted clock. */
  function CheckTimeout(s: BusState, start: u32, ms: u32): (r: Step<bool>)
    ensures Advances(s, r.bus) && r.bus.cs == s.cs && r.bus.miso == s.miso && r.bus.mosi == s.mosi
    ensures r.val || |r.bus.ticks| < |s.ticks|
  {
    if |s.ticks| == 0 then Step(s, true)
    else Step(s.(ticks := s.ticks[1..]), Expired(s.ticks[0], start, ms))
  }

  method WaitTimeout(bus: Bus, start: u32, ms: u32) returns (expired: bool)
    modifies bus
    ensures Step(bus.State(), expired) == CheckTimeout(old(bus.State()), start, ms)
  {
    if bus.ticks == [] {
      // the scripted clock has run past every deadline
      return true;
    }
    var now := bus.TickMS();
    expired := Expired(now, start, ms);
  }

  // ---------------------------------------------------------------------------------------
  // Polling loops

  /** The byte that ends a poll: the idle byte when waiting for ready, any other when waiting for a token. */
  predicate Done(b: bv8, untilIdle: bool) {
    (b == IDLE) == untilIdle
  }

  /**
   * The do-while loops of `wait_ready` and `rcvr_datablock`: exchange a filler byte, stop when it
   * is the byte looked for, otherwise stop when the deadline has passed. The result is the last
   * byte read.
   */
  function Poll(s: BusState, start: u32, ms: u32, untilIdle: bool): (r: Step<bv8>)
    ensures Advances(s, r.bus) && r.bus.cs == s.cs
    decreases |s.ticks|
  {
    var x := Exchange(s, IDLE);
    if Done(x.val, untilIdle) then x
    else
      var t := CheckTimeout(x.bus, start, ms);
      if t.val then Step(t.bus, x.val)
      else
        Poll(t.bus, start, ms, untilIdle)
  }

  /** `wait_ready(ms)`: true iff the card released the bus (sent 0xFF) before the deadline. */
  function WaitReadyS(s: BusState, ms: u32): (r: Step<bool>)
    ensures Advances(s, r.bus) && r.bus.cs == s.cs
  {
    var t := Tick(s);
    var p := Poll(t.bus, t.val, ms, true);
    Step(p.bus, p.val == IDLE)
  }

  method WaitReady(bus: Bus, ms: u32) returns (ok: bool)
    modifies bus
    ensures Step(bus.State(), ok) == WaitReadyS(old(bus.State()), ms)
  {
    var start := bus.TickMS();
    ghost var goal := Poll(bus.State(), start, ms, true);
    var d: bv8 := IDLE;
    while true
      invariant Poll(bus.State(), start, ms, true) == goal
      decreases |bus.ticks|
    {
      d := bus.Xchg(IDLE);
      if d == IDLE {
        break;
      }
      var expired := WaitTimeout(bus, start, ms);
      if expired {
        break;
      }
    }
    ok := d == IDLE;
  }

  // ---------------------------------------------------------------------------------------
  // Chip select

  /** `select`: assert chip select, then one dummy clock byte. */
  function SelectS(s: BusState): BusState {
    ExchangeAll(CsAsserted(s), [IDLE])
  }

  /** `deselect`: release chip select, then one dummy byte so the card lets go of its output. */
  function DeselectS(s: BusState): BusState {
    ExchangeAll(CsReleased(s), [IDLE])
  }

  method Select(bus: Bus)
    modifies bus
    ensures bus.State() == SelectS(old(bus.State()))
  {
    bus.Activate();
    var _ := bus.Xchg(IDLE);
  }

  method Deselect(bus: Bus)
    modifies bus
    ensures bus.State() == DeselectS(old(bus.State()))
  {
    bus.Deactivate();
    var _ := bus.Xchg(IDLE);
  }

  // ---------------------------------------------------------------------------------------
  // Data blocks

  /**
   * `rcvr_datablock(buff, btr)`: wait for the data start token; on 0xFE read `btr` bytes of
   * payload and discard the two CRC bytes. `None` is failure (a wrong token or the deadline).
   */
  function RcvrS(s: BusState, btr: nat): (r: Step<Option<seq<bv8>>>)
    ensures Advances(s, r.bus) && r.bus.cs == s.cs
    ensures r.val.Some? ==> |r.val.value| == btr
  {
    var t := Tick(s);
    var p := Poll(t.bus, t.val, READ_TIMEOUT, false);
    if p.val != TOKEN_SINGLE then Step(p.bus, None)
    else
      var d := ReadBytes(p.bus, btr);
      ExchangeAllConcat(p.bus, Fill(btr), Fill(2));
      Step(ExchangeAll(d.bus, Fill(2)), Some(d.val))
  }

  method RcvrDatablock(bus: Bus, buff: array<bv8>, off: nat, btr: nat) returns (ok: bool)
    requires off + btr <= buff.Length
    modifies bus, buff
    ensures var r := RcvrS(old(bus.State()), btr);
      && bus.State() == r.bus && ok == r.val.Some?
      && buff[..] == if ok then old(buff[..off]) + r.val.value + old(buff[off + btr..]) else old(buff[..])
  {
    var start := bus.TickMS();
    ghost var goal := Poll(bus.State(), start, READ_TIMEOUT, false);
    var token: bv8 := IDLE;
    while true
      invariant Poll(bus.State(), start, READ_TIMEOUT, false) == goal
      invariant buff[..] == old(buff[..])
      decreases |bus.ticks|
    {
      token := bus.Xchg(IDLE);
      if token != IDLE {
        break;
      }
      var expired := WaitTimeout(bus, start, READ_TIMEOUT);
      if expired {
        break;
      }
    }
    if token != TOKEN_SINGLE {
      return false;
    }
    ghost var afterToken := bus.State();
    bus.RcvrMulti(buff, off, btr);
    var _ := bus.Xchg(IDLE);
    var _ := bus.Xchg(IDLE);
    ExchangeAllConcat(ReadBytes(afterToken, btr).bus, [IDLE], [IDLE]);
    return true;
  }

  /**
   * `xmit_datablock(buff, token)`: wait for the card to be ready, send the token and, unless it
   * is the stop token, 512 bytes of payload, a dummy CRC and read the data response.
   */
  function XmitS(s: BusState, data: seq<bv8>, token: bv8): (r: Step<bool>)
    requires token == TOKEN_STOP || |data| == BLOCK
    ensures Advances(s, r.bus) && r.bus.cs == s.cs
  {
    var w := WaitReadyS(s, WRITE_TIMEOUT);
    if !w.val then Step(w.bus, false)
    else
      var t := Exchange(w.bus, token);
      if token == TOKEN_STOP then Step(t.bus, true)
      else
        var c := ExchangeAll(SendBytes(t.bus, data), Fill(2));
        var resp := Exchange(c, IDLE);
        Step(resp.bus, resp.val & 0x1F == 0x05)
  }

  method XmitDatablock(bus: Bus, buff: seq<bv8>, token: bv8) returns (ok: bool)
    requires token == TOKEN_STOP || |buff| == BLOCK
    modifies bus
    ensures Step(bus.State(), ok) == XmitS(old(bus.State()), buff, token)
  {
    var ready := WaitReady(bus, WRITE_TIMEOUT);
    if !ready {
      return false;
    }
    var _ := bus.Xchg(token);
    if token != TOKEN_STOP {
      bus.XmitMulti(buff);
      ghost var afterData := bus.State();
      var _ := bus.Xchg(IDLE);
      var _ := bus.Xchg(IDLE);
      ExchangeAllConcat(afterData, [IDLE], [IDLE]);
      var resp := bus.Xchg(IDLE);
      if resp & 0x1F != 0x05 {
        return false;
      }
    }
    return true;
  }

  // ---------------------------------------------------------------------------------------
  // Commands

  /** The response poll of `send_cmd_wait`: at most `n` bytes, until one has bit 7 clear. */
  function ResponsePoll(s: BusState, n: nat): (r: Step<bv8>)
    requires n >= 1
    ensures Advances(s, r.bus) && r.bus.cs == s.cs && r.bus.ticks == s.ticks
    decreases n
  {
    var x := Exchange(s, IDLE);
    if x.val & 0x80 != 0 && n > 1 then
      ResponsePoll(x.bus, n - 1)
    else x
  }

  /**
   * `send_cmd_wait` for a command without the application flag: reselect and wait for ready
   * (except for CMD12), send the frame, and poll for the response.
   */
  function Transaction(s: BusState, cmd: bv8, arg: bv32, wait: bool): (r: Step<bv8>)
    ensures Advances(s, r.bus)
  {
    if cmd != CMD12 then
      var sel := SelectS(DeselectS(s));
      var w := WaitReadyS(sel, CMD_TIMEOUT);
      if !w.val && wait then
        Step(DeselectS(w.bus), 0xFF)
      else
        var f := ExchangeAll(w.bus, Frame(cmd, arg));
        ResponsePoll(f, 10)
    else
      var f := ExchangeAll(s, Frame(cmd, arg) + Fill(1));
      ResponsePoll(f, 10)
  }

  /** `send_cmd_wait(cmd, arg, wait)`: an application command is preceded by CMD55. */
  function SendCmdS(s: BusState, cmd: bv8, arg: bv32, wait: bool): (r: Step<bv8>)
    ensures Advances(s, r.bus)
    decreases if IsAppCommand(cmd) then 1 else 0
  {
    if IsAppCommand(cmd) then
      var pre := SendCmdS(s, CMD55, 0, wait);
      if pre.val > 1 then pre
      else
        Transaction(pre.bus, cmd & 0x7F, arg, wait)
    else Transaction(s, cmd, arg, wait)
  }

  method SendCmdWait(bus: Bus, cmd: bv8, arg: bv32, wait: bool) returns (res: bv8)
    modifies bus
    ensures Step(bus.State(), res) == SendCmdS(old(bus.State()), cmd, arg, wait)
    decreases if IsAppCommand(cmd) then 1 else 0
  {
    var c := cmd;
    if c & 0x80 != 0 {
      c := c & 0x7F;
      res := SendCmdWait(bus, CMD55, 0, wait);
      if res > 1 {
        return;
      }
    }
    res := Transact(bus, c, arg, wait);
  }

  /** The body of `send_cmd_wait` once the CMD55 prefix, if any, has been sent. */
  method Transact(bus: Bus, c: bv8, arg: bv32, wait: bool) returns (res: bv8)
    modifies bus
    ensures Step(bus.State(), res) == Transaction(old(bus.State()), c, arg, wait)
  {
    if c != CMD12 {
      Deselect(bus);
      Select(bus);
      var ready := WaitReady(bus, CMD_TIMEOUT);
      if !ready && wait {
        Deselect(bus);
        return 0xFF;
      }
    }
    SendFrame(bus, c, arg);
    res := ReceiveResponse(bus);
  }

  /** The response loop of `send_cmd_wait`: up to ten exchanges until bit 7 of the reply is clear. */
  method ReceiveResponse(bus: Bus) returns (res: bv8)
    modifies bus
    ensures Step(bus.State(), res) == ResponsePoll(old(bus.State()), 10)
  {
    var n: bv8 := 10;
    ghost var goal := ResponsePoll(bus.State(), 10);
    while true
      invariant 1 <= n <= 10
      invariant ResponsePoll(bus.State(), n as nat) == goal
      decreases n
    {
      res := bus.Xchg(IDLE);
      if res & 0x80 == 0 {
        break;
      }
      n := n - 1;
      if n == 0 {
        break;
      }
    }
  }

  /** The frame of `send_cmd_wait`: index, argument, CRC, and for CMD12 one discarded stuff byte. */
  method SendFrame(bus: Bus, c: bv8, arg: bv32)
    modifies bus
    ensures bus.State() == ExchangeAll(old(bus.State()), if c == CMD12 then Frame(c, arg) + Fill(1) else Frame(c, arg))
  {
    ghost var s1 := bus.State();
    var _ := bus.Xchg(0x40 | c);
    var _ := bus.Xchg(ArgByte(arg, 24));
    var _ := bus.Xchg(ArgByte(arg, 16));
    var _ := bus.Xchg(ArgByte(arg, 8));
    var _ := bus.Xchg(ArgByte(arg, 0));
    var n: bv8 := 0x01;
    if c == CMD0 {
      n := 0x95;
    }
    if c == CMD8 {
      n := 0x87;
    }
    assert n == CrcByte(c);
    var _ := bus.Xchg(n);
    FrameSent(s1, c, arg);
    if c == CMD12 {
      var _ := bus.Xchg(IDLE);
    }
  }

  /** The six single exchanges of a frame, as one. */
  lemma FrameSent(s: BusState, c: bv8, arg: bv32)
    ensures ExchangeAll(ExchangeAll(ExchangeAll(ExchangeAll(ExchangeAll(ExchangeAll(s,
      [0x40 | c]), [ArgByte(arg, 24)]), [ArgByte(arg, 16)]), [ArgByte(arg, 8)]),
      [ArgByte(arg, 0)]), [CrcByte(c)]) == ExchangeAll(s, Frame(c, arg))
    ensures ExchangeAll(ExchangeAll(s, Frame(c, arg)), [IDLE]) == ExchangeAll(s, Frame(c, arg) + Fill(1))
  {
    ExchangeSix(s, 0x40 | c, ArgByte(arg, 24), ArgByte(arg, 16), ArgByte(arg, 8),
      ArgByte(arg, 0), CrcByte(c));
    ExchangeAllConcat(s, Frame(c, arg), [IDLE]);
  }

  lemma ExchangeSix(s: BusState, b0: bv8, b1: bv8, b2: bv8, b3: bv8, b4: bv8, b5: bv8)
    ensures ExchangeAll(ExchangeAll(ExchangeAll(ExchangeAll(ExchangeAll(ExchangeAll(s,
      [b0]), [b1]), [b2]), [b3]), [b4]), [b5]) == ExchangeAll(s, [b0, b1, b2, b3, b4, b5])
  {
    ExchangeAllConcat(s, [b0], [b1]);
    assert [b0] + [b1] == [b0, b1];
    ExchangeAllConcat(s, [b0, b1], [b2]);
    assert [b0, b1] + [b2] == [b0, b1, b2];
    ExchangeAllConcat(s, [b0, b1, b2], [b3]);
    assert [b0, b1, b2] + [b3] == [b0, b1, b2, b3];
    ExchangeAllConcat(s, [b0, b1, b2, b3], [b4]);
    assert [b0, b1, b2, b3] + [b4] == [b0, b1, b2, b3, b4];
    ExchangeAllConcat(s, [b0, b1, b2, b3, b4], [b5]);
    assert [b0, b1, b2, b3, b4] + [b5] == [b0, b1, b2, b3, b4, b5];
  }

  /** `send_cmd`: wait for ready before the command. */
  method SendCmd(bus: Bus, cmd: bv8, arg: bv32) returns (res: bv8)
    modifies bus
    ensures Step(bus.State(), res) == SendCmdS(old(bus.State()), cmd, arg, true)
  {
    res := SendCmdWait(bus, cmd, arg, true);
  }

  /** `send_cmd_nowait`: send the command even if the card is still busy. */
  method SendCmdNowait(bus: Bus, cmd: bv8, arg: bv32) returns (res: bv8)
    modifies bus
    ensures Step(bus.State(), res) == SendCmdS(old(bus.State()), cmd, arg, false)
  {
    res := SendCmdWait(bus, cmd, arg, false);
  }
}
