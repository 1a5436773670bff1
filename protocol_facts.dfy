/**
 * What the command and data-block layer puts on the bus, stated as traffic: which bytes the
 * host clocks out, how many bytes of the card's output it consumes, and which of those bytes
 * decide the result. How long a polling loop runs is given by a length function; the card's
 * bytes alone do not fix it, since the clock decides when a loop gives up.
 */
module ProtocolFacts {
  import opened SpiBus
  import opened Command
  import opened Protocol

  // ---------------------------------------------------------------------------------------
  // Deadlines

  /**
   * `waitTimeout` measures the time since `start` the way an unsigned subtraction does: a clock
   * that has wrapped past 2^32 since `start` still counts the milliseconds in between.
   */
  lemma ExpiredElapsed(now: u32, start: u32, ms: u32)
    ensures Expired(now, start, ms) <==> (if start <= now then now - start else now + TWO_32 - start) > ms
  {
    if start > now {
      assert (now - start) % 0x1_0000_0000 == now + 0x1_0000_0000 - start;
    }
  }

  /** Across the wrap: 21 ms after 0xFFFFFFF0 the 20 ms deadline has passed, 19 ms after it has not. */
  lemma ExpiredAcrossWrap()
    ensures Expired(5, 0xFFFF_FFF0, 20) && !Expired(3, 0xFFFF_FFF0, 20)
  {
    ExpiredElapsed(5, 0xFFFF_FFF0, 20);
    ExpiredElapsed(3, 0xFFFF_FFF0, 20);
  }

  // ---------------------------------------------------------------------------------------
  // Lengths of the polling loops

  /** The number of bytes a polling loop exchanges. */
  ghost function PollLength(s: BusState, start: u32, ms: u32, untilIdle: bool): (k: nat)
    ensures k >= 1
    decreases |s.ticks|
  {
    var x := Exchange(s, IDLE);
    if Done(x.val, untilIdle) then 1
    else
      var t := CheckTimeout(x.bus, start, ms);
      if t.val then 1 else 1 + PollLength(t.bus, start, ms, untilIdle)
  }

  /** The number of bytes `wait_ready(ms)` exchanges. */
  ghost function ReadyLength(s: BusState, ms: u32): nat {
    var t := Tick(s);
    PollLength(t.bus, t.val, ms, true)
  }

  /** The number of bytes `rcvr_datablock` exchanges up to and including the token. */
  ghost function TokenLength(s: BusState): nat {
    var t := Tick(s);
    PollLength(t.bus, t.val, READ_TIMEOUT, false)
  }

  /** The byte `rcvr_datablock` takes as the data token. */
  ghost function DataToken(s: BusState): bv8 {
    ByteAt(s.miso, TokenLength(s) - 1)
  }

  /** The number of bytes the response poll reads from the card's output `miso`, at most `n`. */
  ghost function ResponseLength(miso: seq<bv8>, n: nat): (m: nat)
    requires n >= 1
    ensures 1 <= m <= n
    decreases n
  {
    if ByteAt(miso, 0) & 0x80 != 0 && n > 1 then 1 + ResponseLength(Drop(miso, 1), n - 1) else 1
  }

  // ---------------------------------------------------------------------------------------
  // Building blocks

  /** `a` then `b` bytes exchanged is `a + b` bytes exchanged. */
  lemma Moved(s: BusState, t: BusState, u: BusState, a: nat, b: nat)
    requires t.mosi == s.mosi + Fill(a) && t.miso == Drop(s.miso, a)
    requires u.mosi == t.mosi + Fill(b) && u.miso == Drop(t.miso, b)
    ensures u.mosi == s.mosi + Fill(a + b) && u.miso == Drop(s.miso, a + b)
  {
    FillAdd(a, b);
    assert s.mosi + Fill(a) + Fill(b) == s.mosi + (Fill(a) + Fill(b));
    DropDrop(s.miso, a, b);
  }

  lemma {:induction false} PollMosi(s: BusState, start: u32, ms: u32, untilIdle: bool)
    ensures Poll(s, start, ms, untilIdle).bus.mosi == s.mosi + Fill(PollLength(s, start, ms, untilIdle))
    decreases |s.ticks|
  {
    var x := Exchange(s, IDLE);
    assert Fill(1) == [IDLE];
    if !Done(x.val, untilIdle) {
      var t := CheckTimeout(x.bus, start, ms);
      if !t.val {
        var k' := PollLength(t.bus, start, ms, untilIdle);
        PollMosi(t.bus, start, ms, untilIdle);
        FillAdd(1, k');
        assert s.mosi + Fill(1) + Fill(k') == s.mosi + (Fill(1) + Fill(k'));
      }
    }
  }

  lemma {:induction false} PollMiso(s: BusState, start: u32, ms: u32, untilIdle: bool)
    ensures Poll(s, start, ms, untilIdle).bus.miso == Drop(s.miso, PollLength(s, start, ms, untilIdle))
    decreases |s.ticks|
  {
    var x := Exchange(s, IDLE);
    if !Done(x.val, untilIdle) {
      var t := CheckTimeout(x.bus, start, ms);
      if !t.val {
        PollMiso(t.bus, start, ms, untilIdle);
        DropDrop(s.miso, 1, PollLength(t.bus, start, ms, untilIdle));
      }
    }
  }

  /** A polling loop returns the last byte it read. */
  lemma {:induction false} PollLast(s: BusState, start: u32, ms: u32, untilIdle: bool)
    ensures Poll(s, start, ms, untilIdle).val == ByteAt(s.miso, PollLength(s, start, ms, untilIdle) - 1)
    decreases |s.ticks|
  {
    var x := Exchange(s, IDLE);
    if !Done(x.val, untilIdle) {
      var t := CheckTimeout(x.bus, start, ms);
      if !t.val {
        PollLast(t.bus, start, ms, untilIdle);
        ByteAtDrop(s.miso, 1, PollLength(t.bus, start, ms, untilIdle) - 1);
      }
    }
  }

  /** Every byte a polling loop read before the last was not the byte it was waiting for. */
  lemma {:induction false} PollSkipped(s: BusState, start: u32, ms: u32, untilIdle: bool)
    ensures var k := PollLength(s, start, ms, untilIdle);
      forall i :: 0 <= i < k - 1 ==> !Done(ByteAt(s.miso, i), untilIdle)
    decreases |s.ticks|
  {
    var x := Exchange(s, IDLE);
    if !Done(x.val, untilIdle) {
      var t := CheckTimeout(x.bus, start, ms);
      if !t.val {
        var k' := PollLength(t.bus, start, ms, untilIdle);
        PollSkipped(t.bus, start, ms, untilIdle);
        forall i | 0 <= i < k'
          ensures !Done(ByteAt(s.miso, i), untilIdle)
        {
          if i > 0 {
            ByteAtDrop(s.miso, 1, i - 1);
          }
        }
      }
    }
  }

  lemma {:induction false} ResponseMosi(s: BusState, n: nat)
    requires n >= 1
    ensures ResponsePoll(s, n).bus.mosi == s.mosi + Fill(ResponseLength(s.miso, n))
    decreases n
  {
    var x := Exchange(s, IDLE);
    assert Fill(1) == [IDLE];
    if x.val & 0x80 != 0 && n > 1 {
      var m' := ResponseLength(x.bus.miso, n - 1);
      ResponseMosi(x.bus, n - 1);
      FillAdd(1, m');
      assert s.mosi + Fill(1) + Fill(m') == s.mosi + (Fill(1) + Fill(m'));
    }
  }

  lemma {:induction false} ResponseMiso(s: BusState, n: nat)
    requires n >= 1
    ensures ResponsePoll(s, n).bus.miso == Drop(s.miso, ResponseLength(s.miso, n))
    decreases n
  {
    var x := Exchange(s, IDLE);
    if x.val & 0x80 != 0 && n > 1 {
      ResponseMiso(x.bus, n - 1);
      DropDrop(s.miso, 1, ResponseLength(x.bus.miso, n - 1));
    }
  }

  // ---------------------------------------------------------------------------------------
  // The response poll of send_cmd_wait

  /** The response is the last byte read. */
  lemma {:induction false} ResponseLast(s: BusState, n: nat)
    requires n >= 1
    ensures ResponsePoll(s, n).val == ByteAt(s.miso, ResponseLength(s.miso, n) - 1)
    decreases n
  {
    var x := Exchange(s, IDLE);
    if x.val & 0x80 != 0 && n > 1 {
      ResponseLast(x.bus, n - 1);
      ByteAtDrop(s.miso, 1, ResponseLength(x.bus.miso, n - 1) - 1);
    }
  }

  /**
   * Every byte the response poll read before the response had bit 7 set, and a response with
   * bit 7 set means all `n` tries were used.
   */
  lemma {:induction false} ResponseFirstClear(s: BusState, n: nat)
    requires n >= 1
    ensures var m := ResponseLength(s.miso, n);
      && (forall i :: 0 <= i < m - 1 ==> ByteAt(s.miso, i) & 0x80 != 0)
      && (ByteAt(s.miso, m - 1) & 0x80 != 0 ==> m == n)
    decreases n
  {
    var x := Exchange(s, IDLE);
    if x.val & 0x80 != 0 && n > 1 {
      var m' := ResponseLength(x.bus.miso, n - 1);
      ResponseFirstClear(x.bus, n - 1);
      ByteAtDrop(s.miso, 1, m' - 1);
      forall i | 0 <= i < m'
        ensures ByteAt(s.miso, i) & 0x80 != 0
      {
        if i > 0 {
          ByteAtDrop(s.miso, 1, i - 1);
        }
      }
    }
  }

  /** Of the card's output the poll reads exactly the bytes up to the response. */
  lemma ResponseTraffic(s: BusState, n: nat)
    requires n >= 1
    ensures var m := ResponseLength(s.miso, n); var r := ResponsePoll(s, n);
      r.bus.mosi == s.mosi + Fill(m) && r.bus.miso == Drop(s.miso, m)
  {
    ResponseMosi(s, n);
    ResponseMiso(s, n);
  }

  // ---------------------------------------------------------------------------------------
  // wait_ready

  /** `wait_ready` sends only fillers, one per byte it reads. */
  lemma WaitReadyTraffic(s: BusState, ms: u32)
    ensures var k := ReadyLength(s, ms); var r := WaitReadyS(s, ms);
      r.bus.mosi == s.mosi + Fill(k) && r.bus.miso == Drop(s.miso, k)
  {
    var t := Tick(s);
    PollMosi(t.bus, t.val, ms, true);
    PollMiso(t.bus, t.val, ms, true);
  }

  /**
   * `wait_ready` succeeds iff the last byte it read is 0xFF; none before it was: the card is
   * ready iff it released the bus before the deadline.
   */
  lemma WaitReadyResult(s: BusState, ms: u32)
    ensures var k := ReadyLength(s, ms);
      && (WaitReadyS(s, ms).val <==> ByteAt(s.miso, k - 1) == IDLE)
      && forall i :: 0 <= i < k - 1 ==> ByteAt(s.miso, i) != IDLE
  {
    var t := Tick(s);
    PollLast(t.bus, t.val, ms, true);
    PollSkipped(t.bus, t.val, ms, true);
  }

  // ---------------------------------------------------------------------------------------
  // rcvr_datablock

  /**
   * `rcvr_datablock` takes the first byte that is not idle, or the last byte read when the
   * deadline passes, as the token; it succeeds iff that token is 0xFE.
   */
  lemma RcvrToken(s: BusState, btr: nat)
    ensures RcvrS(s, btr).val.Some? <==> DataToken(s) == TOKEN_SINGLE
  {
    var t := Tick(s);
    PollLast(t.bus, t.val, READ_TIMEOUT, false);
  }

  /** Every byte before the token is idle. */
  lemma RcvrSkipsIdle(s: BusState)
    ensures forall i :: 0 <= i < TokenLength(s) - 1 ==> ByteAt(s.miso, i) == IDLE
  {
    var t := Tick(s);
    PollSkipped(t.bus, t.val, READ_TIMEOUT, false);
  }

  /** On success the payload is the `btr` bytes right after the token. */
  lemma RcvrPayload(s: BusState, btr: nat)
    ensures var r := RcvrS(s, btr);
      r.val.Some? ==> r.val.value == Peek(Drop(s.miso, TokenLength(s)), btr)
  {
    var t := Tick(s);
    PollMiso(t.bus, t.val, READ_TIMEOUT, false);
  }

  /**
   * Only fillers are sent. On success the token, the payload and the two CRC bytes are
   * consumed; on failure nothing after the token is.
   */
  ghost function RcvrLength(s: BusState, btr: nat): nat {
    if RcvrS(s, btr).val.Some? then TokenLength(s) + btr + 2 else TokenLength(s)
  }

  lemma RcvrMosi(s: BusState, btr: nat)
    ensures RcvrS(s, btr).bus.mosi == s.mosi + Fill(RcvrLength(s, btr))
  {
    var t := Tick(s);
    var k := TokenLength(s);
    PollMosi(t.bus, t.val, READ_TIMEOUT, false);
    var p := Poll(t.bus, t.val, READ_TIMEOUT, false);
    if p.val == TOKEN_SINGLE {
      var d := ReadBytes(p.bus, btr);
      FillAdd(k, btr);
      FillAdd(k + btr, 2);
      assert d.bus.mosi == s.mosi + Fill(k + btr);
    }
  }

  lemma RcvrMiso(s: BusState, btr: nat)
    ensures RcvrS(s, btr).bus.miso == Drop(s.miso, RcvrLength(s, btr))
  {
    var t := Tick(s);
    var k := TokenLength(s);
    PollMiso(t.bus, t.val, READ_TIMEOUT, false);
    var p := Poll(t.bus, t.val, READ_TIMEOUT, false);
    if p.val == TOKEN_SINGLE {
      DropDrop(s.miso, k, btr);
      DropDrop(s.miso, k + btr, 2);
    }
  }

  // ---------------------------------------------------------------------------------------
  // xmit_datablock

  /** Not ready: `xmit_datablock` fails having sent nothing but the fillers of the wait. */
  lemma XmitNotReady(s: BusState, data: seq<bv8>, token: bv8)
    requires token == TOKEN_STOP || |data| == BLOCK
    requires ByteAt(s.miso, ReadyLength(s, WRITE_TIMEOUT) - 1) != IDLE
    ensures var r := XmitS(s, data, token);
      !r.val && r.bus.mosi == s.mosi + Fill(ReadyLength(s, WRITE_TIMEOUT))
  {
    WaitReadyTraffic(s, WRITE_TIMEOUT);
    WaitReadyResult(s, WRITE_TIMEOUT);
  }

  /** The stop token: once the card is ready, just the token, and success. */
  lemma XmitStop(s: BusState)
    requires ByteAt(s.miso, ReadyLength(s, WRITE_TIMEOUT) - 1) == IDLE
    ensures var r := XmitS(s, [], TOKEN_STOP);
      r.val && r.bus.mosi == s.mosi + Fill(ReadyLength(s, WRITE_TIMEOUT)) + [TOKEN_STOP]
  {
    WaitReadyTraffic(s, WRITE_TIMEOUT);
    WaitReadyResult(s, WRITE_TIMEOUT);
  }

  /**
   * A data token: once the card is ready, the token, the 512 bytes, a two-byte dummy CRC and a
   * filler to clock in the data response.
   */
  lemma XmitData(s: BusState, data: seq<bv8>, token: bv8)
    requires token != TOKEN_STOP && |data| == BLOCK
    requires ByteAt(s.miso, ReadyLength(s, WRITE_TIMEOUT) - 1) == IDLE
    ensures XmitS(s, data, token).bus.mosi
      == s.mosi + Fill(ReadyLength(s, WRITE_TIMEOUT)) + [token] + data + Fill(3)
  {
    WaitReadyTraffic(s, WRITE_TIMEOUT);
    WaitReadyResult(s, WRITE_TIMEOUT);
    var k := ReadyLength(s, WRITE_TIMEOUT);
    assert Fill(2) + [IDLE] == Fill(3);
    assert s.mosi + Fill(k) + [token] + data + Fill(2) + [IDLE]
      == s.mosi + Fill(k) + [token] + data + (Fill(2) + [IDLE]);
  }

  /**
   * The data response is the card's byte three after the token (the bulk write reads nothing
   * back); the block is accepted iff its low five bits are 00101.
   */
  lemma XmitResponse(s: BusState, data: seq<bv8>, token: bv8)
    requires token != TOKEN_STOP && |data| == BLOCK
    requires ByteAt(s.miso, ReadyLength(s, WRITE_TIMEOUT) - 1) == IDLE
    ensures var k := ReadyLength(s, WRITE_TIMEOUT);
      XmitS(s, data, token).val <==> ByteAt(s.miso, k + 3) & 0x1F == 0x05
  {
    WaitReadyTraffic(s, WRITE_TIMEOUT);
    WaitReadyResult(s, WRITE_TIMEOUT);
    var k := ReadyLength(s, WRITE_TIMEOUT);
    DropDrop(s.miso, k, 1);
    DropDrop(s.miso, k + 1, 2);
    ByteAtDrop(s.miso, k + 3, 0);
  }

  /** A data block is accepted iff the card becomes ready and then answers `xxx00101`. */
  lemma XmitAccepted(s: BusState, data: seq<bv8>, token: bv8)
    requires token != TOKEN_STOP && |data| == BLOCK
    ensures var k := ReadyLength(s, WRITE_TIMEOUT);
      XmitS(s, data, token).val <==> ByteAt(s.miso, k - 1) == IDLE && ByteAt(s.miso, k + 3) & 0x1F == 0x05
  {
    if ByteAt(s.miso, ReadyLength(s, WRITE_TIMEOUT) - 1) == IDLE {
      XmitResponse(s, data, token);
    } else {
      XmitNotReady(s, data, token);
    }
  }

  // ---------------------------------------------------------------------------------------
  // send_cmd_wait

  /** Deselect and select: two fillers. */
  lemma Reselect(s: BusState)
    ensures SelectS(DeselectS(s)).mosi == s.mosi + Fill(2)
    ensures SelectS(DeselectS(s)).miso == Drop(s.miso, 2)
    ensures SelectS(DeselectS(s)).ticks == s.ticks
  {
    assert s.mosi + [IDLE] + [IDLE] == s.mosi + Fill(2);
    DropDrop(s.miso, 1, 1);
  }

  /** The ready wait of a command other than CMD12, in bytes after the reselection. */
  ghost function CmdReadyLength(s: BusState): nat {
    ReadyLength(SelectS(DeselectS(s)), CMD_TIMEOUT)
  }

  /**
   * A command other than CMD12 reselects the card and waits for ready; if the card stays busy
   * while `wait` is set, it is deselected and 0xFF returned, and no frame is sent.
   */
  lemma TransactionBusy(s: BusState, cmd: bv8, arg: bv32)
    requires cmd != CMD12
    requires ByteAt(s.miso, CmdReadyLength(s) + 1) != IDLE
    ensures var k := CmdReadyLength(s); var r := Transaction(s, cmd, arg, true);
      r.val == 0xFF && !r.bus.cs && r.bus.mosi == s.mosi + Fill(k + 3)
  {
    var k := CmdReadyLength(s);
    CmdReadyTraffic(s);
    FillAdd(k + 2, 1);
    assert s.mosi + Fill(k + 2) + [IDLE] == s.mosi + Fill(k + 2) + Fill(1);
  }

  /** The bus after the reselection and the ready wait of a command other than CMD12. */
  ghost function CmdReady(s: BusState): Step<bool> {
    WaitReadyS(SelectS(DeselectS(s)), CMD_TIMEOUT)
  }

  lemma CmdReadyTraffic(s: BusState)
    ensures var k := CmdReadyLength(s); var w := CmdReady(s);
      && w.bus.mosi == s.mosi + Fill(k + 2) && w.bus.miso == Drop(s.miso, k + 2)
      && (w.val <==> ByteAt(s.miso, k + 1) == IDLE) && w.bus.cs
  {
    var sel := SelectS(DeselectS(s));
    var k := CmdReadyLength(s);
    Reselect(s);
    WaitReadyTraffic(sel, CMD_TIMEOUT);
    WaitReadyResult(sel, CMD_TIMEOUT);
    Moved(s, sel, CmdReady(s).bus, 2, k);
    ByteAtDrop(s.miso, 2, k - 1);
  }

  /** Once the card is ready, or when `wait` is clear, the frame follows, then the response poll. */
  lemma TransactionSends(s: BusState, cmd: bv8, arg: bv32, wait: bool)
    requires cmd != CMD12
    requires CmdReady(s).val || !wait
    ensures Transaction(s, cmd, arg, wait) == ResponsePoll(ExchangeAll(CmdReady(s).bus, Frame(cmd, arg)), 10)
  {
  }

  /**
   * Once the card is ready, or when `wait` is clear, the six-byte frame follows the fillers,
   * and then the response poll.
   */
  lemma TransactionFrame(s: BusState, cmd: bv8, arg: bv32, wait: bool)
    requires cmd != CMD12
    requires ByteAt(s.miso, CmdReadyLength(s) + 1) == IDLE || !wait
    ensures var k := CmdReadyLength(s); var m := ResponseLength(Drop(s.miso, k + 8), 10);
      Transaction(s, cmd, arg, wait).bus.mosi == s.mosi + Fill(k + 2) + Frame(cmd, arg) + Fill(m)
  {
    var k := CmdReadyLength(s);
    CmdReadyTraffic(s);
    TransactionSends(s, cmd, arg, wait);
    var f := ExchangeAll(CmdReady(s).bus, Frame(cmd, arg));
    assert f.miso == Drop(s.miso, k + 8) by {
      DropDrop(s.miso, k + 2, 6);
    }
    ResponseTraffic(f, 10);
  }

  /** The byte a response poll returns when it starts `j` bytes into the card's output. */
  ghost function ResponseAt(miso: seq<bv8>, j: nat): bv8 {
    ByteAt(miso, j + ResponseLength(Drop(miso, j), 10) - 1)
  }

  lemma PollAfter(miso: seq<bv8>, f: BusState, j: nat)
    requires f.miso == Drop(miso, j)
    ensures ResponsePoll(f, 10).val == ResponseAt(miso, j)
  {
    ResponseLast(f, 10);
    ByteAtDrop(miso, j, ResponseLength(f.miso, 10) - 1);
  }

  /** The response of such a command is what the card sends after the fillers and the frame. */
  lemma TransactionResponse(s: BusState, cmd: bv8, arg: bv32, wait: bool)
    requires cmd != CMD12
    requires ByteAt(s.miso, CmdReadyLength(s) + 1) == IDLE || !wait
    ensures Transaction(s, cmd, arg, wait).val == ResponseAt(s.miso, CmdReadyLength(s) + 8)
  {
    var k := CmdReadyLength(s);
    CmdReadyTraffic(s);
    TransactionSends(s, cmd, arg, wait);
    DropDrop(s.miso, k + 2, 6);
    PollAfter(s.miso, ExchangeAll(CmdReady(s).bus, Frame(cmd, arg)), k + 8);
  }

  /** Such a command leaves the card selected. */
  lemma TransactionSelected(s: BusState, cmd: bv8, arg: bv32, wait: bool)
    requires cmd != CMD12
    requires ByteAt(s.miso, CmdReadyLength(s) + 1) == IDLE || !wait
    ensures Transaction(s, cmd, arg, wait).bus.cs
  {
    CmdReadyTraffic(s);
    TransactionSends(s, cmd, arg, wait);
    var f := ExchangeAll(CmdReady(s).bus, Frame(cmd, arg));
    assert f.cs;
  }

  /**
   * CMD12 (stop a multiple-block read) touches neither chip select nor the clock: the frame,
   * one discarded byte, and the response poll.
   */
  lemma Cmd12Traffic(s: BusState, arg: bv32)
    ensures var r := Transaction(s, CMD12, arg, true);
      && r.bus.mosi == s.mosi + Cmd12Bytes(s, arg)
      && r.bus.cs == s.cs && r.bus.ticks == s.ticks
  {
    var f := ExchangeAll(s, Frame(CMD12, arg) + Fill(1));
    ResponseTraffic(f, 10);
    var m := ResponseLength(Drop(s.miso, 7), 10);
    FillAdd(1, m);
    Regroup4(s.mosi, Frame(CMD12, arg), Fill(1), Fill(m));
  }

  /** What the host sends for CMD12: the frame, the discarded byte and the response poll. */
  ghost function Cmd12Bytes(s: BusState, arg: bv32): seq<bv8> {
    Frame(CMD12, arg) + Fill(1 + ResponseLength(Drop(s.miso, 7), 10))
  }

  /**
   * An application command is CMD55 first. If CMD55 answers more than 1 that answer is the
   * result and nothing more is sent; otherwise the command follows with the flag removed, so
   * the frame on the wire never carries bit 7.
   */
  lemma AppCommandEscape(s: BusState, cmd: bv8, arg: bv32, wait: bool)
    requires IsAppCommand(cmd)
    ensures var pre := Transaction(s, CMD55, 0, wait);
      var r := SendCmdS(s, cmd, arg, wait);
      && (pre.val > 1 ==> r.val == pre.val && r.bus == pre.bus)
      && (pre.val <= 1 ==> r == Transaction(pre.bus, cmd & 0x7F, arg, wait))
      && Frame(cmd & 0x7F, arg)[0] & 0x80 == 0
  {
    FrameStartNotIdle(cmd & 0x7F, arg);
  }
}
