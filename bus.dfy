/**
 * The SPI transport and millisecond clock that the driver runs on, as a scripted fake.
 *
 * The card's data-out line is a script of bytes: every full-duplex exchange consumes the next
 * one, and once the script is exhausted the line idles high (0xFF), as an absent card's would.
 * Every byte the host clocks out is appended to a log. The clock is a script of successive
 * `tickMS()` readings; once it is exhausted, every deadline counts as passed, which is what lets
 * every polling loop of the driver terminate.
 */
module SpiBus {

  /** A `DWORD` / `UINT` of the 32-bit target. */
  type u32 = x: int | 0 <= x < 0x1_0000_0000

  const TWO_32: int := 0x1_0000_0000

  /** The bus line level while nobody drives it, also the filler byte the host sends. */
  const IDLE: bv8 := 0xFF

  datatype BusState = BusState(
    miso: seq<bv8>,    // the card's remaining output, one byte per exchange
    mosi: seq<bv8>,    // every byte the host has clocked out so far
    cs: bool,          // chip select asserted
    ticks: seq<u32>,   // the remaining readings of the millisecond clock
    attached: bool,    // an SPI peripheral has been attached to the driver
    fast: bool)        // the fast clock profile is in force

  /** A bus state after an operation, with the value the operation returned. */
  datatype Step<T> = Step(bus: BusState, val: T)

  function Fill(n: nat): (r: seq<bv8>)
    ensures |r| == n
    ensures forall i :: 0 <= i < n ==> r[i] == IDLE
  {
    seq(n, _ => IDLE)
  }

  /** The byte the card drives at the `i`-th exchange from now. */
  function ByteAt(miso: seq<bv8>, i: nat): bv8 {
    if i < |miso| then miso[i] else IDLE
  }

  /** The card's output after `n` more exchanges. */
  function Drop(miso: seq<bv8>, n: nat): seq<bv8> {
    if n <= |miso| then miso[n..] else []
  }

  /** The next `n` bytes the card drives. */
  function Peek(miso: seq<bv8>, n: nat): (r: seq<bv8>)
    ensures |r| == n
    ensures forall i :: 0 <= i < n ==> r[i] == ByteAt(miso, i)
  {
    seq(n, i requires 0 <= i < n => ByteAt(miso, i))
  }

  /** The host clocks out `out`, one exchange per byte, discarding what comes back. */
  function ExchangeAll(s: BusState, out: seq<bv8>): BusState {
    s.(miso := Drop(s.miso, |out|), mosi := s.mosi + out)
  }

  /** `xchg_spi`: one full-duplex exchange. */
  function Exchange(s: BusState, out: bv8): Step<bv8> {
    Step(ExchangeAll(s, [out]), ByteAt(s.miso, 0))
  }

  /** `rcvr_spi_multi`: `n` bytes clocked in while the host sends filler. */
  function ReadBytes(s: BusState, n: nat): Step<seq<bv8>> {
    Step(ExchangeAll(s, Fill(n)), Peek(s.miso, n))
  }

  /** `xmit_spi_multi`: a bulk write; what the card drives meanwhile is not read. */
  function SendBytes(s: BusState, data: seq<bv8>): BusState {
    s.(mosi := s.mosi + data)
  }

  /** `tickMS`: the next clock reading (0 once the clock script is exhausted). */
  function Tick(s: BusState): Step<u32> {
    if |s.ticks| == 0 then Step(s, 0) else Step(s.(ticks := s.ticks[1..]), s.ticks[0])
  }

  function CsAsserted(s: BusState): BusState { s.(cs := true) }

  function CsReleased(s: BusState): BusState { s.(cs := false) }

  /** `fatfs_spi_init`: fails when no peripheral is attached, otherwise leaves the card deselected. */
  function SpiBegin(s: BusState): Step<bool> {
    if s.attached then Step(s.(cs := false), true) else Step(s, false)
  }

  /** `fatfs_post_spi_init`: switch to the fast clock profile. */
  function FastClock(s: BusState): BusState { s.(fast := true) }

  /**
   * `t` is `s` after some operations: the clock script was only consumed, and the peripheral
   * configuration stayed as it was.
   */
  predicate Advances(s: BusState, t: BusState) {
    |t.ticks| <= |s.ticks| && t.attached == s.attached && t.fast == s.fast
  }

  lemma DropDrop(miso: seq<bv8>, m: nat, n: nat)
    ensures Drop(Drop(miso, m), n) == Drop(miso, m + n)
  {
  }

  lemma ByteAtDrop(miso: seq<bv8>, m: nat, i: nat)
    ensures ByteAt(Drop(miso, m), i) == ByteAt(miso, m + i)
  {
  }

  lemma FillAdd(m: nat, n: nat)
    ensures Fill(m) + Fill(n) == Fill(m + n)
  {
  }

  /** Regrouping concatenations, stated once so that proofs about traffic need not redo it. */
  lemma Regroup4(a: seq<bv8>, b: seq<bv8>, c: seq<bv8>, d: seq<bv8>)
    ensures a + b + c + d == a + (b + (c + d))
  {
  }

  lemma Regroup5(a: seq<bv8>, b: seq<bv8>, c: seq<bv8>, d: seq<bv8>, e: seq<bv8>)
    ensures a + b + c + d + e == a + (b + c + d + e)
  {
  }

  /** What follows `b`, which itself follows `a`. */
  lemma Chain(r: seq<bv8>, b: seq<bv8>, a: seq<bv8>, f: seq<bv8>, t: seq<bv8>)
    requires r == b + t && b == a + f
    ensures r == a + (f + t)
  {
  }

  /** Exchanging `a` and then `b` is exchanging `a + b`. */
  lemma ExchangeAllConcat(s: BusState, a: seq<bv8>, b: seq<bv8>)
    ensures ExchangeAll(ExchangeAll(s, a), b) == ExchangeAll(s, a + b)
  {
    DropDrop(s.miso, |a|, |b|);
    assert s.mosi + a + b == s.mosi + (a + b);
  }

  /**
   * The host side of the bus, over the same state. Each method is the transport primitive the
   * driver calls; its contract gives the new state as the matching function of the old one.
   */
  class Bus {
    var miso: seq<bv8>
    var mosi: seq<bv8>
    var cs: bool
    var ticks: seq<u32>
    var attached: bool
    var fast: bool

    function State(): BusState
      reads this
    {
      BusState(miso, mosi, cs, ticks, attached, fast)
    }

    /** A bus on slow clock, card deselected, nothing sent yet. */
    constructor (script: seq<bv8>, clock: seq<u32>, peripheral: bool)
      ensures State() == BusState(script, [], false, clock, peripheral, false)
    {
      miso, mosi, cs, ticks, attached, fast := script, [], false, clock, peripheral, false;
    }

    method Xchg(out: bv8) returns (b: bv8)
      modifies this
      ensures Step(State(), b) == Exchange(old(State()), out)
    {
      b := ByteAt(miso, 0);
      miso := Drop(miso, 1);
      mosi := mosi + [out];
    }

    /** `rcvr_spi_multi(buff + off, count)`: fills `count` bytes of the caller's buffer in place. */
    method RcvrMulti(buff: array<bv8>, off: nat, count: nat)
      requires off + count <= buff.Length
      modifies this, buff
      ensures var r := ReadBytes(old(State()), count);
        State() == r.bus && buff[..] == old(buff[..off]) + r.val + old(buff[off + count..])
    {
      ghost var s0 := State();
      var i := 0;
      while i < count
        invariant 0 <= i <= count
        invariant State() == ExchangeAll(s0, Fill(i))
        invariant buff[..off] == old(buff[..off]) && buff[off + count..] == old(buff[off + count..])
        invariant forall j :: 0 <= j < i ==> buff[off + j] == ByteAt(s0.miso, j)
      {
        ByteAtDrop(s0.miso, i, 0);
        var b := Xchg(IDLE);
        buff[off + i] := b;
        ExchangeAllConcat(s0, Fill(i), [IDLE]);
        FillAdd(i, 1);
        i := i + 1;
      }
      assert buff[off..off + count] == Peek(s0.miso, count);
      assert buff[..] == buff[..off] + buff[off..off + count] + buff[off + count..];
    }

    /** `xmit_spi_multi(data, |data|)`. */
    method XmitMulti(data: seq<bv8>)
      modifies this
      ensures State() == SendBytes(old(State()), data)
    {
      mosi := mosi + data;
    }

    method TickMS() returns (t: u32)
      modifies this
      ensures Step(State(), t) == Tick(old(State()))
    {
      if ticks == [] {
        t := 0;
      } else {
        t := ticks[0];
        ticks := ticks[1..];
      }
    }

    /** `activate`: assert chip select. */
    method Activate()
      modifies this
      ensures State() == CsAsserted(old(State()))
    {
      cs := true;
    }

    /** `deactivate`: release chip select. */
    method Deactivate()
      modifies this
      ensures State() == CsReleased(old(State()))
    {
      cs := false;
    }

    method SpiInit() returns (ok: bool)
      modifies this
      ensures Step(State(), ok) == SpiBegin(old(State()))
    {
      ok := attached;
      if ok {
        cs := false;
      }
    }

    method PostSpiInit()
      modifies this
      ensures State() == FastClock(old(State()))
    {
      fast := true;
    }
  }
}
