/**
 * The decoding state machine of the I2C sniffer as pure state transitions.
 *
 * A `Decoder` value is the whole process-wide state of the firmware: the bus
 * status, the 9600-symbol `dataBuffer` with its write index `w` and read index
 * `r`, the bit-slot and byte counters, and the four diagnostic counters. Each
 * interrupt handler and each drain is a function from the old state (and the
 * sampled line levels) to the new state; the class in module Sniffer is proved
 * to perform exactly these transitions in place.
 */
module I2CDecoder {

  /** Size of `dataBuffer`. */
  const CAPACITY: nat := 9600

  /** The diagnostic counters and `byteCount` are 16-bit unsigned integers. */
  const UINT16_LIMIT: nat := 0x1_0000

  /** A 16-bit unsigned increment: 65535 wraps to 0. */
  function Inc16(x: nat): (y: nat)
    requires x < UINT16_LIMIT
    ensures y < UINT16_LIMIT
    ensures y == 0 <==> x == UINT16_LIMIT - 1
    ensures y != 0 ==> y == x + 1
  {
    (x + 1) % UINT16_LIMIT
  }

  /** I2C_IDLE (0) and I2C_TRX (2); every test in the firmware compares with I2C_IDLE only. */
  datatype BusStatus = Idle | Transaction

  /** The role of one clock-edge sample: `i2cCase` 0, 1 and 2. */
  datatype Role = Data | Ack | Direction

  /**
   * The role of the sample taken at a rising SCL edge, decided by the bit-slot
   * counter before it is incremented: slot 8 is the acknowledge bit, slot 7 of
   * the first byte is the read/write bit, everything else is a data bit.
   */
  function RoleOf(bitCount: nat, byteCount: nat): (role: Role)
    ensures role == Ack <==> bitCount == 8
    ensures role == Direction <==> bitCount == 7 && byteCount == 0
    ensures role == Data <==> bitCount != 8 && !(bitCount == 7 && byteCount == 0)
  {
    if bitCount == 7 && byteCount == 0 then Direction
    else if bitCount == 8 then Ack
    else Data
  }

  /** The symbol written for a sample of the given role and SDA level. */
  function SymbolOf(role: Role, sda: bool): (c: char)
    ensures IsBitSymbol(c)
    ensures RoleOfSymbol(c) == role && LevelOfSymbol(c) == sda
  {
    match role
    case Data => if sda then '1' else '0'
    case Ack => if sda then '-' else '+'
    case Direction => if sda then 'R' else 'W'
  }

  /** The six symbols a clock edge can produce ('S', 's' and '\n' are framing symbols). */
  predicate IsBitSymbol(c: char) {
    c in "01+-RW"
  }

  /** Reading a bit symbol back: which slot produced it. */
  function RoleOfSymbol(c: char): Role
    requires IsBitSymbol(c)
  {
    if c == '0' || c == '1' then Data
    else if c == '+' || c == '-' then Ack
    else Direction
  }

  /** Reading a bit symbol back: the SDA level that was sampled. */
  function LevelOfSymbol(c: char): bool
    requires IsBitSymbol(c)
  {
    c == '1' || c == '-' || c == 'R'
  }

  /** The whole state of the sniffer. */
  datatype Decoder = Decoder(
    status: BusStatus,
    buffer: seq<char>,
    w: nat,
    r: nat,
    bitCount: nat,
    byteCount: nat,
    falseStart: nat,
    sclUp: nat,
    sdaUp: nat,
    sdaDown: nat)

  /**
   * What every reachable state satisfies: the buffer has its fixed size, the
   * read index never passes the write index, the bit-slot counter stays in
   * 0..8 and the 16-bit counters are in range.
   */
  predicate Consistent(d: Decoder) {
    |d.buffer| == CAPACITY
    && d.r <= d.w <= CAPACITY
    && d.bitCount <= 8
    && d.byteCount < UINT16_LIMIT
    && d.falseStart < UINT16_LIMIT
    && d.sclUp < UINT16_LIMIT
    && d.sdaUp < UINT16_LIMIT
    && d.sdaDown < UINT16_LIMIT
  }

  /** The symbols written but not yet drained. */
  function Pending(d: Decoder): seq<char>
    requires Consistent(d)
  {
    d.buffer[d.r..d.w]
  }

  /** The static initialisers: every global is zero and the buffer holds zero bytes. */
  function PowerOn(): (d: Decoder)
    ensures Consistent(d) && d.status == Idle && Pending(d) == []
  {
    Decoder(Idle, seq(CAPACITY, _ => '\0'), 0, 0, 0, 0, 0, 0, 0, 0)
  }

  /**
   * `i2cTriggerOnRaisingSCL`: count the edge, count a false start when the bus
   * is idle (and carry on, since the early return is commented out), classify
   * the sample by the pre-increment slot counter and append its symbol.
   * The buffer index is not checked by the firmware, hence the requires.
   */
  function ClockRise(d: Decoder, sda: bool): (e: Decoder)
    requires Consistent(d) && d.w < CAPACITY
    ensures Consistent(e)
    ensures e.w == d.w + 1 && e.r == d.r && e.status == d.status
    ensures e.buffer == d.buffer[d.w := SymbolOf(RoleOf(d.bitCount, d.byteCount), sda)]
    ensures Pending(e) == Pending(d) + [SymbolOf(RoleOf(d.bitCount, d.byteCount), sda)]
    ensures e.sclUp == Inc16(d.sclUp)
    ensures e.falseStart == (if d.status == Idle then Inc16(d.falseStart) else d.falseStart)
    ensures e.sdaUp == d.sdaUp && e.sdaDown == d.sdaDown
    ensures e.bitCount == (d.bitCount + 1) % 9
    ensures e.byteCount == (if d.bitCount == 8 then Inc16(d.byteCount) else d.byteCount)
  {
    var role := RoleOf(d.bitCount, d.byteCount);
    var c := SymbolOf(role, sda);
    var e := d.(
      sclUp := Inc16(d.sclUp),
      falseStart := if d.status == Idle then Inc16(d.falseStart) else d.falseStart,
      buffer := d.buffer[d.w := c],
      w := d.w + 1,
      bitCount := if role == Ack then 0 else d.bitCount + 1,
      byteCount := if role == Ack then Inc16(d.byteCount) else d.byteCount);
    WriteAppends(d.buffer, d.r, d.w, c);
    e
  }

  /** Writing at the write index and advancing it appends to the pending part. */
  lemma WriteAppends(buffer: seq<char>, r: nat, w: nat, c: char)
    requires r <= w < |buffer|
    ensures buffer[w := c][r..w + 1] == buffer[r..w] + [c]
  {
    var b := buffer[w := c];
    assert |b[r..w + 1]| == |buffer[r..w] + [c]|;
    forall i | 0 <= i < w + 1 - r
      ensures b[r..w + 1][i] == (buffer[r..w] + [c])[i]
    {
    }
  }

  /**
   * The rising-SDA branch of `i2cTriggerOnChangeSDA`, as written. Its test
   * `i2cStatus=!I2C_IDLE && i2cClk==1` assigns: the status becomes "SCL is
   * high", so the branch depends on SCL alone and the status is idle
   * afterwards in both cases. The STOP branch rewinds the write index over the
   * bit recorded by the clock edge just before and writes 's' and '\n'.
   * The firmware decrements the 16-bit index unchecked, hence `1 <= d.w`.
   */
  function DataRise(d: Decoder, scl: bool): (e: Decoder)
    requires Consistent(d) && (scl ==> 1 <= d.w < CAPACITY)
    ensures Consistent(e)
    ensures e.status == Idle
    ensures e.sdaUp == Inc16(d.sdaUp)
    ensures scl ==> e.w == d.w + 1 && e.r == d.r
                    && e.buffer == d.buffer[d.w - 1 := 's'][d.w := '\n']
                    && e.bitCount == 0 && e.byteCount == 0
                    && e.falseStart == d.falseStart && e.sclUp == d.sclUp && e.sdaDown == d.sdaDown
    ensures scl && d.r < d.w ==> Pending(e) == Pending(d)[..|Pending(d)| - 1] + ['s', '\n']
    ensures scl && d.r == d.w ==> Pending(e) == ['\n']
    ensures !scl ==> e == d.(status := Idle, sdaUp := Inc16(d.sdaUp))
  {
    var stop := scl;  // the value the assignment stores in the status
    var e :=
      if stop then
        var rewound := d.w - 1;
        d.(status := Idle, bitCount := 0, byteCount := 0,
           buffer := d.buffer[rewound := 's'][rewound + 1 := '\n'],
           w := rewound + 2)
      else
        d.(status := Idle);
    var e := e.(sdaUp := Inc16(d.sdaUp));
    if scl then RewindWrites(d.buffer, d.r, d.w); e else e
  }

  /** Rewinding over the last symbol and writing "s\n" there, seen from the read index. */
  lemma RewindWrites(buffer: seq<char>, r: nat, w: nat)
    requires r <= w && 1 <= w < |buffer|
    ensures r < w ==> buffer[w - 1 := 's'][w := '\n'][r..w + 1] == buffer[r..w - 1] + ['s', '\n']
    ensures r == w ==> buffer[w - 1 := 's'][w := '\n'][r..w + 1] == ['\n']
  {
    var b := buffer[w - 1 := 's'][w := '\n'];
    if r < w {
      var t := buffer[r..w - 1] + ['s', '\n'];
      assert |b[r..w + 1]| == |t|;
      forall i | 0 <= i < w + 1 - r
        ensures b[r..w + 1][i] == t[i]
      {
      }
    }
  }

  /** A falling SDA while SCL is high on an idle bus: a START condition. */
  predicate IsStart(d: Decoder, scl: bool) {
    d.status == Idle && scl
  }

  /**
   * The falling-SDA branch of `i2cTriggerOnChangeSDA`: a START opens a
   * transaction, zeroes the slot and byte counters and appends 'S'; any other
   * falling edge only counts.
   */
  function DataFall(d: Decoder, scl: bool): (e: Decoder)
    requires Consistent(d) && (IsStart(d, scl) ==> d.w < CAPACITY)
    ensures Consistent(e)
    ensures e.sdaDown == Inc16(d.sdaDown)
    ensures IsStart(d, scl) ==> e.status == Transaction && e.bitCount == 0 && e.byteCount == 0
                                && e.w == d.w + 1 && e.r == d.r && e.buffer == d.buffer[d.w := 'S']
                                && e.falseStart == d.falseStart && e.sclUp == d.sclUp && e.sdaUp == d.sdaUp
    ensures IsStart(d, scl) ==> Pending(e) == Pending(d) + ['S']
    ensures !IsStart(d, scl) ==> e == d.(sdaDown := Inc16(d.sdaDown))
  {
    var e :=
      if d.status == Idle && scl then
        d.(status := Transaction, bitCount := 0, byteCount := 0,
           buffer := d.buffer[d.w := 'S'], w := d.w + 1)
      else
        d;
    var e := e.(sdaDown := Inc16(d.sdaDown));
    if IsStart(d, scl) then WriteAppends(d.buffer, d.r, d.w, 'S'); e else e
  }

  /** What `i2cTriggerOnChangeSDA` demands of the buffer for the edge to be handled in bounds. */
  predicate DataChangeInBounds(d: Decoder, sdaHigh: bool, scl: bool) {
    if sdaHigh then scl ==> 1 <= d.w < CAPACITY
    else IsStart(d, scl) ==> d.w < CAPACITY
  }

  /** `i2cTriggerOnChangeSDA` after debouncing: dispatch on the stable SDA level. */
  function DataChange(d: Decoder, sdaHigh: bool, scl: bool): (e: Decoder)
    requires Consistent(d) && DataChangeInBounds(d, sdaHigh, scl)
    ensures Consistent(e)
    ensures sdaHigh ==> e.status == Idle && e.sdaDown == d.sdaDown
    ensures !sdaHigh ==> e.sdaUp == d.sdaUp
    ensures !scl ==> e.buffer == d.buffer && e.w == d.w && e.r == d.r
                     && e.bitCount == d.bitCount && e.byteCount == d.byteCount
  {
    if sdaHigh then DataRise(d, scl) else DataFall(d, scl)
  }

  /**
   * `resetI2cVariable`: status idle, both indices and the slot counter zeroed,
   * the false-start counter cleared. The byte counter, the three edge counters
   * and the buffer contents are left as they are.
   */
  function ResetVariables(d: Decoder): (e: Decoder)
    requires Consistent(d)
    ensures Consistent(e) && Pending(e) == []
    ensures e.status == Idle && e.w == 0 && e.r == 0 && e.bitCount == 0 && e.falseStart == 0
    ensures e.buffer == d.buffer && e.byteCount == d.byteCount
    ensures e.sclUp == d.sclUp && e.sdaUp == d.sdaUp && e.sdaDown == d.sdaDown
  {
    d.(status := Idle, w := 0, r := 0, bitCount := 0, falseStart := 0)
  }

  /** What a drain hands to its sink, and the state it leaves. */
  datatype Drained = Drained(emitted: seq<char>, after: Decoder)

  /**
   * `processDataBuffer` / `getStringFromDataBuffer`: hand over the symbols
   * from the read index up to the write index, in order, and move the read
   * index there; on an idle bus reclaim the buffer by zeroing both indices.
   * With nothing pending nothing changes (in particular no reclaim).
   */
  function Drain(d: Decoder): (res: Drained)
    requires Consistent(d)
    ensures Consistent(res.after)
    ensures res.emitted == Pending(d) && Pending(res.after) == []
    ensures res.after.buffer == d.buffer && res.after.status == d.status
    ensures res.after.bitCount == d.bitCount && res.after.byteCount == d.byteCount
    ensures res.after.falseStart == d.falseStart && res.after.sclUp == d.sclUp
    ensures res.after.sdaUp == d.sdaUp && res.after.sdaDown == d.sdaDown
    ensures d.r == d.w ==> res.after == d
    ensures d.r < d.w && d.status == Idle ==> res.after.w == 0 && res.after.r == 0
    ensures d.r < d.w && d.status != Idle ==> res.after.w == d.w && res.after.r == d.w
  {
    if d.w == d.r then
      Drained([], d)
    else
      var pw := d.w;
      var read := d.(r := pw);
      Drained(d.buffer[d.r..pw],
              if read.status == Idle && pw == read.w then read.(w := 0, r := 0) else read)
  }

  /** A second drain with no edge in between hands over nothing and changes nothing. */
  lemma DrainTwiceEmitsNothing(d: Decoder)
    requires Consistent(d)
    ensures Drain(Drain(d).after) == Drained([], Drain(d).after)
  {
  }

  /**
   * The stop test the firmware evidently intends (`i2cStatus != I2C_IDLE`):
   * a rising SDA is a STOP only if SCL is high and a transaction is open;
   * otherwise only the rising-edge counter changes.
   */
  function DataRiseIntended(d: Decoder, scl: bool): (e: Decoder)
    requires Consistent(d) && (scl && d.status != Idle ==> 1 <= d.w < CAPACITY)
    ensures Consistent(e)
    ensures e.status == (if scl then Idle else d.status)
    ensures scl && d.status != Idle ==> e == DataRise(d, scl)
    ensures !(scl && d.status != Idle) ==> e == d.(sdaUp := Inc16(d.sdaUp))
  {
    if d.status != Idle && scl then DataRise(d, scl)
    else d.(sdaUp := Inc16(d.sdaUp))
  }

  /**
   * Where the assignment and the intended comparison part: an ordinary data
   * transition (SDA rising while SCL is low) inside a transaction closes the
   * transaction as written, so the next clock edge is counted as a false start;
   * with the comparison the transaction stays open and no false start is counted.
   */
  lemma DataBitClosesTransaction(d: Decoder, sda: bool)
    requires Consistent(d) && d.status == Transaction && d.w < CAPACITY
    ensures DataRise(d, false).status == Idle
    ensures ClockRise(DataRise(d, false), sda).falseStart == Inc16(d.falseStart)
    ensures DataRiseIntended(d, false).status == Transaction
    ensures ClockRise(DataRiseIntended(d, false), sda).falseStart == d.falseStart
  {
  }

  /**
   * A further divergence: as written, a rising SDA with SCL high on an idle
   * bus still rewinds and appends "s\n"; the intended test leaves the buffer alone.
   */
  lemma IdleStopStillWrites(d: Decoder)
    requires Consistent(d) && d.status == Idle && 1 <= d.w < CAPACITY
    ensures DataRise(d, true).w == d.w + 1 && DataRise(d, true).buffer[d.w] == '\n'
    ensures DataRiseIntended(d, true).w == d.w && DataRiseIntended(d, true).buffer == d.buffer
  {
  }

  /**
   * The rewind removes a symbol the consumer has already taken when the read
   * index has caught up with the write index: the 's' lands below the read
   * index and is never handed over; only '\n' is pending.
   */
  lemma StopAfterFullDrainLosesStopSymbol(d: Decoder, sda: bool)
    requires Consistent(d) && d.status == Transaction && d.w + 1 < CAPACITY
    ensures var e := Drain(ClockRise(d, sda)).after;
            e.r == e.w == d.w + 1 && Pending(DataRise(e, true)) == ['\n']
  {
  }

  /**
   * Because every rising SDA leaves the bus idle, a drain can run between the
   * clock edge that precedes a STOP and the STOP itself, and it reclaims the
   * buffer: the STOP then finds the write index at 0 and its rewind has no
   * symbol to remove (in the firmware the 16-bit index underflows).
   */
  lemma DrainBeforeStopEmptiesBuffer(d: Decoder, sda: bool)
    requires Consistent(d) && d.status == Transaction && d.w < CAPACITY
    ensures Drain(ClockRise(DataRise(d, false), sda)).after.w == 0
  {
  }

  /**
   * With the intended comparison the data transition leaves the transaction
   * open, so a drain run only on an idle bus does not run before the STOP, and
   * a drain that does run keeps the write index where it was: the STOP that
   * follows always has the clock edge's symbol to rewind.
   */
  lemma IntendedStopKeepsSymbolToRewind(d: Decoder, sda: bool)
    requires Consistent(d) && d.status == Transaction && d.w < CAPACITY
    ensures ClockRise(DataRiseIntended(d, false), sda).status == Transaction
    ensures Drain(ClockRise(DataRiseIntended(d, false), sda)).after.w == d.w + 1
  {
  }

  /**
   * The read index is strictly behind the write index, or the buffer has just
   * been reclaimed. A STOP in such a state never rewinds onto a symbol that
   * was already handed over.
   */
  predicate BehindOrReclaimed(d: Decoder) {
    d.r < d.w || d.w == 0
  }

  /**
   * Every edge, the reset, and a drain run while the bus is idle (as the main
   * loop runs it) keep the read index behind the write index or the buffer
   * reclaimed. Only a drain on a non-idle bus can bring `r` level with a
   * nonzero `w`, which is what the lost 's' needs.
   */
  lemma IdleDrainsKeepReadBehind(d: Decoder, sda: bool, high: bool, scl: bool)
    requires Consistent(d) && BehindOrReclaimed(d)
    ensures d.w < CAPACITY ==> BehindOrReclaimed(ClockRise(d, sda))
    ensures DataChangeInBounds(d, high, scl) ==> BehindOrReclaimed(DataChange(d, high, scl))
    ensures BehindOrReclaimed(ResetVariables(d))
    ensures d.status == Idle ==> BehindOrReclaimed(Drain(d).after)
    ensures d.status != Idle && d.r < d.w ==> !BehindOrReclaimed(Drain(d).after)
  {
  }
}
