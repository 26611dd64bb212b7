/**
 * What a run of clock edges writes into the buffer.
 *
 * The reference functions below spell out the byte layout of an I2C
 * transfer (UM10204, sections 3.1.5, 3.1.6 and 3.1.10): after a START the
 * first byte is seven address bits, the read/write bit and the acknowledge
 * bit; every later byte is eight data bits and the acknowledge bit, MSB first.
 * The lemmas prove that the decoder, fed those edges one by one, writes
 * exactly these symbols.
 */
module I2CFraming {
  import opened I2CDecoder

  /** Length of one byte on the bus: eight bits and the acknowledge bit. */
  const SLOTS_PER_BYTE: nat := 9

  /** Feed one rising SCL edge per sample, in order. */
  function RunClock(d: Decoder, samples: seq<bool>): (e: Decoder)
    requires Consistent(d) && d.w + |samples| <= CAPACITY
    ensures Consistent(e)
    ensures e.w == d.w + |samples| && e.r == d.r && e.status == d.status
    decreases |samples|
  {
    if samples == [] then d else RunClock(ClockRise(d, samples[0]), samples[1..])
  }

  /** The data-bit symbols for a run of samples. */
  function Digits(samples: seq<bool>): seq<char> {
    seq(|samples|, i requires 0 <= i < |samples| => SymbolOf(Data, samples[i]))
  }

  /** The symbols of one byte on the bus, the first byte after a START or a later one. */
  function ByteSymbols(samples: seq<bool>, first: bool): seq<char>
    requires |samples| == SLOTS_PER_BYTE
  {
    if first then
      Digits(samples[..7]) + [SymbolOf(Direction, samples[7]), SymbolOf(Ack, samples[8])]
    else
      Digits(samples[..8]) + [SymbolOf(Ack, samples[8])]
  }

  /** The symbols of a sequence of whole bytes. */
  function FrameSymbols(samples: seq<bool>, first: bool): seq<char>
    requires |samples| % SLOTS_PER_BYTE == 0
    decreases |samples|
  {
    if samples == [] then []
    else ByteSymbols(samples[..SLOTS_PER_BYTE], first) + FrameSymbols(samples[SLOTS_PER_BYTE..], false)
  }

  /** Running two sample sequences one after the other is running their concatenation. */
  lemma {:induction false} RunClockAppend(d: Decoder, a: seq<bool>, b: seq<bool>)
    requires Consistent(d) && d.w + |a| + |b| <= CAPACITY
    ensures RunClock(d, a + b) == RunClock(RunClock(d, a), b)
    decreases |a|
  {
    if a == [] {
      assert a + b == b;
    } else {
      assert (a + b)[1..] == a[1..] + b;
      RunClockAppend(ClockRise(d, a[0]), a[1..], b);
    }
  }

  /**
   * While the slot counter stays below the read/write slot (or below the
   * acknowledge slot after the first byte), each edge appends one data digit,
   * advances the slot counter and leaves the byte counter alone.
   */
  lemma {:induction false} DataRun(d: Decoder, samples: seq<bool>)
    requires Consistent(d) && d.w + |samples| <= CAPACITY
    requires d.bitCount + |samples| <= (if d.byteCount == 0 then 7 else 8)
    ensures var e := RunClock(d, samples);
            Pending(e) == Pending(d) + Digits(samples)
            && e.bitCount == d.bitCount + |samples| && e.byteCount == d.byteCount
    decreases |samples|
  {
    if samples != [] {
      var d1 := ClockRise(d, samples[0]);
      DataRun(d1, samples[1..]);
      assert Pending(d1) == Pending(d) + [SymbolOf(Data, samples[0])];
      assert Digits(samples) == [SymbolOf(Data, samples[0])] + Digits(samples[1..]);
    }
  }

  /**
   * From the first slot of a byte, nine edges append the symbols of that byte,
   * bring the slot counter back to 0 and count the byte.
   */
  lemma {:induction false} ByteDecodes(d: Decoder, samples: seq<bool>)
    requires Consistent(d) && d.w + SLOTS_PER_BYTE <= CAPACITY
    requires d.bitCount == 0 && |samples| == SLOTS_PER_BYTE
    ensures var e := RunClock(d, samples);
            Pending(e) == Pending(d) + ByteSymbols(samples, d.byteCount == 0)
            && e.bitCount == 0 && e.byteCount == Inc16(d.byteCount)
  {
    var k := if d.byteCount == 0 then 7 else 8;
    var head, tail := samples[..k], samples[k..];
    assert samples == head + tail;
    RunClockAppend(d, head, tail);
    DataRun(d, head);
    var d1 := RunClock(d, head);
    if d.byteCount == 0 {
      assert tail == [samples[7], samples[8]];
      var d2 := ClockRise(d1, samples[7]);
      var d3 := ClockRise(d2, samples[8]);
      assert RunClock(d1, tail) == RunClock(d2, [samples[8]]) by {
        assert tail[1..] == [samples[8]];
      }
      assert RunClock(d2, [samples[8]]) == RunClock(d3, []) by {
        assert [samples[8]][1..] == [];
      }
      assert Pending(d3) == Pending(d1) + [SymbolOf(Direction, samples[7]), SymbolOf(Ack, samples[8])];
    } else {
      assert tail == [samples[8]];
      var d2 := ClockRise(d1, samples[8]);
      assert RunClock(d1, tail) == RunClock(d2, []) by {
        assert tail[1..] == [];
      }
    }
  }

  /**
   * From the first slot of a byte, a run of whole bytes appends their symbols
   * in order, the first of them laid out as an address byte exactly when the
   * byte counter is 0.
   */
  lemma {:induction false} FramesDecode(d: Decoder, samples: seq<bool>)
    requires Consistent(d) && d.w + |samples| <= CAPACITY
    requires d.bitCount == 0 && |samples| % SLOTS_PER_BYTE == 0
    requires d.byteCount + |samples| < UINT16_LIMIT
    ensures var e := RunClock(d, samples);
            Pending(e) == Pending(d) + FrameSymbols(samples, d.byteCount == 0)
            && e.bitCount == 0
    decreases |samples|
  {
    if samples != [] {
      var head, tail := samples[..SLOTS_PER_BYTE], samples[SLOTS_PER_BYTE..];
      assert samples == head + tail;
      RunClockAppend(d, head, tail);
      ByteDecodes(d, head);
      var d1 := RunClock(d, head);
      FramesDecode(d1, tail);
    }
  }

  /**
   * A whole transaction on an idle bus: START, whole bytes, the clock edge
   * that precedes the STOP, and the STOP. The buffer gains 'S', the symbols of
   * the bytes and "s\n"; the bit recorded by the last clock edge is rewound.
   */
  lemma TransactionDecodes(d: Decoder, samples: seq<bool>, last: bool)
    requires Consistent(d) && d.status == Idle
    requires |samples| % SLOTS_PER_BYTE == 0 && d.w + |samples| + 2 < CAPACITY
    ensures var e := DataRise(ClockRise(RunClock(DataFall(d, true), samples), last), true);
            Pending(e) == Pending(d) + ['S'] + FrameSymbols(samples, true) + ['s', '\n']
            && e.status == Idle && e.bitCount == 0 && e.byteCount == 0
  {
    var d1 := DataFall(d, true);
    FramesDecode(d1, samples);
    var d2 := RunClock(d1, samples);
    var d3 := ClockRise(d2, last);
    var p := Pending(d3);
    assert p[..|p| - 1] == Pending(d2);
  }

  /** The layout of the address byte 0x50 (1010000) with a write and an acknowledge. */
  lemma AddressWriteByte()
    ensures FrameSymbols([true, false, true, false, false, false, false, false, false], true)
              == "1010000W+"
  {
    var samples := [true, false, true, false, false, false, false, false, false];
    assert samples[..SLOTS_PER_BYTE] == samples && samples[SLOTS_PER_BYTE..] == [];
    var head := samples[..7];
    assert head == [true, false, true, false, false, false, false];
    assert Digits(head) == "1010000";
  }

  /**
   * What the sniffer's two interrupts see of a master driving the bus: a
   * rising SCL edge with the SDA level it samples, or an SDA change made while
   * SCL is low (the only time an I2C master other than at START and STOP may
   * move SDA, UM10204 section 3.1.3). Falling SCL edges raise no interrupt.
   */
  datatype Edge = Clock(sda: bool) | DataWhileClockLow(high: bool)

  /** How many rising SCL edges a trace holds. */
  function Clocks(edges: seq<Edge>): nat
    decreases |edges|
  {
    if edges == [] then 0 else (if edges[0].Clock? then 1 else 0) + Clocks(edges[1..])
  }

  /** Dispatch one edge to its interrupt handler. */
  function Step(d: Decoder, edge: Edge): (e: Decoder)
    requires Consistent(d) && (edge.Clock? ==> d.w < CAPACITY)
    ensures Consistent(e) && e.r == d.r
    ensures e.w == d.w + (if edge.Clock? then 1 else 0)
  {
    match edge
    case Clock(sda) => ClockRise(d, sda)
    case DataWhileClockLow(high) => DataChange(d, high, false)
  }

  /** Feed a trace of edges to the handlers, in order. */
  function RunBus(d: Decoder, edges: seq<Edge>): (e: Decoder)
    requires Consistent(d) && d.w + Clocks(edges) <= CAPACITY
    ensures Consistent(e) && e.r == d.r && e.w == d.w + Clocks(edges)
    decreases |edges|
  {
    if edges == [] then d else RunBus(Step(d, edges[0]), edges[1..])
  }

  /**
   * The edges of a run of bits, starting with SDA at `level`: for each bit the
   * master moves SDA while SCL is low if the bit differs from the line, then
   * raises SCL, and the sniffer samples the bit.
   */
  function BitEdges(level: bool, samples: seq<bool>): (edges: seq<Edge>)
    ensures Clocks(edges) == |samples|
    decreases |samples|
  {
    if samples == [] then []
    else
      var rest := BitEdges(samples[0], samples[1..]);
      var clocked := [Clock(samples[0])] + rest;
      assert clocked[1..] == rest;
      if samples[0] == level then clocked
      else
        var moved := [DataWhileClockLow(samples[0])] + clocked;
        assert moved[1..] == clocked;
        moved
  }

  /** Two decoder states that agree on everything the written symbols depend on. */
  predicate SameFrame(a: Decoder, b: Decoder) {
    a.buffer == b.buffer && a.w == b.w && a.r == b.r
    && a.bitCount == b.bitCount && a.byteCount == b.byteCount
  }

  /**
   * The SDA changes between clock edges do not alter what the clock edges
   * write: they change only the status and the edge counters. So a bit run
   * fed with its SDA changes leaves the same frame as the clock edges alone.
   */
  lemma {:induction false} BitEdgesMatchClock(a: Decoder, b: Decoder, level: bool, samples: seq<bool>)
    requires Consistent(a) && Consistent(b) && SameFrame(a, b) && a.w + |samples| <= CAPACITY
    ensures SameFrame(RunBus(a, BitEdges(level, samples)), RunClock(b, samples))
    decreases |samples|
  {
    if samples != [] {
      var s0, rest := samples[0], samples[1..];
      var a1 := if s0 == level then a else Step(a, DataWhileClockLow(s0));
      assert SameFrame(a1, b);
      var clocked := [Clock(s0)] + BitEdges(s0, rest);
      assert RunBus(a, BitEdges(level, samples)) == RunBus(a1, clocked) by {
        if s0 != level {
          var moved := [DataWhileClockLow(s0)] + clocked;
          assert BitEdges(level, samples) == moved && moved[1..] == clocked;
        }
      }
      assert clocked[1..] == BitEdges(s0, rest);
      var a2, b2 := ClockRise(a1, s0), ClockRise(b, s0);
      assert SameFrame(a2, b2);
      BitEdgesMatchClock(a2, b2, s0, rest);
    }
  }

  /** The STOP writes the same frame from two states that agree on it. */
  lemma StopKeepsFrame(a: Decoder, b: Decoder)
    requires Consistent(a) && Consistent(b) && SameFrame(a, b) && 1 <= a.w < CAPACITY
    ensures SameFrame(DataRise(a, true), DataRise(b, true))
    ensures Pending(DataRise(a, true)) == Pending(DataRise(b, true))
  {
  }

  /**
   * A whole transaction as the bus drives it: START (SDA falls with SCL high),
   * whole bytes whose bits each move SDA while SCL is low when needed, SDA
   * brought low and one more clock edge, then the STOP (SDA rises with SCL
   * high). The buffer gains 'S', the symbols of the bytes and "s\n", exactly
   * as for the clock edges alone.
   */
  lemma BusTransactionDecodes(d: Decoder, samples: seq<bool>)
    requires Consistent(d) && d.status == Idle
    requires |samples| % SLOTS_PER_BYTE == 0 && d.w + |samples| + 2 < CAPACITY
    ensures var e := DataRise(RunBus(DataFall(d, true), BitEdges(false, samples + [false])), true);
            Pending(e) == Pending(d) + ['S'] + FrameSymbols(samples, true) + ['s', '\n']
            && e.status == Idle && e.bitCount == 0 && e.byteCount == 0
  {
    var d1 := DataFall(d, true);
    var bus := RunBus(d1, BitEdges(false, samples + [false]));
    BitEdgesMatchClock(d1, d1, false, samples + [false]);
    RunClockAppend(d1, samples, [false]);
    var d2 := RunClock(d1, samples);
    assert RunClock(d1, samples + [false]) == ClockRise(d2, false) by {
      assert [false][1..] == [];
    }
    var clock := ClockRise(d2, false);
    assert SameFrame(bus, clock);
    TransactionDecodes(d, samples, false);
    StopKeepsFrame(bus, clock);
  }

  /**
   * The address byte 0x50 with a write and an acknowledge, then a STOP, on an
   * idle bus with nothing pending, with SDA rising while SCL is low before the
   * first clock edge as the leading 1 bit needs: the buffer holds "S1010000W+s\n".
   */
  lemma AddressWriteExample(d: Decoder, samples: seq<bool>)
    requires Consistent(d) && d.status == Idle && Pending(d) == [] && d.w + 11 < CAPACITY
    requires samples == [true, false, true, false, false, false, false, false, false]
    ensures BitEdges(false, samples + [false])[0] == DataWhileClockLow(true)
    ensures Pending(DataRise(RunBus(DataFall(d, true), BitEdges(false, samples + [false])), true))
              == "S1010000W+s\n"
  {
    BusTransactionDecodes(d, samples);
    AddressWriteByte();
    calc {
      Pending(d) + ['S'] + FrameSymbols(samples, true) + ['s', '\n'];
      ['S'] + "1010000W+" + ['s', '\n'];
      "S1010000W+s\n";
    }
  }
}
