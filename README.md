# I2C sniffer: decoding state machine and symbol buffer

A Dafny model of the core of an ESP32 I2C sniffer. The sniffer passively watches
the two bus lines. A rising-SCL interrupt samples SDA and records one bit symbol.
An SDA-change interrupt recognises START and STOP conditions. A drain, run from
the main loop, hands the recorded symbols to the serial console or to a string.
The two firmware variants, `main.cpp` and `main-send.cpp`, share the decoder
line for line. `main-send.cpp` adds only the string drain `getStringFromDataBuffer`.
So one shared model covers both files.

Modules:

- `I2CDecoder` (decoder.dfy) holds the state of the firmware as a `Decoder`
  value: the bus status, the 9600-entry `dataBuffer` with its write index `w`
  and read index `r`, `bitCount`, `byteCount`, and the counters `falseStart`,
  `sclUpCnt`, `sdaUpCnt` and `sdaDownCnt`. Each handler and the drain is a pure
  transition function, and each function's contract states the whole new state,
  including the pending symbols `buffer[r..w)`.
- `I2CFraming` (framing.dfy) covers runs of edges. It holds reference
  functions for the I2C byte layout of UM10204, sections 3.1.5, 3.1.6 and 3.1.10:
  seven address bits, the R/W bit and the acknowledge bit in the first byte, then
  eight data bits and the acknowledge bit in each later byte. It also describes
  the edges a master drives for a run of bits: SDA moves while SCL is low when
  the next bit differs from the line, then SCL rises (section 3.1.3). Lemmas
  prove that the decoder writes exactly those symbols for a whole transaction.
  This holds both for the clock edges alone and for the full trace, where the
  SDA changes sit between the clock edges.
- `Sniffer` (sniffer.dfy) holds the class `BusSniffer`, whose fields are the
  firmware globals and whose buffer is an `array<char>`. Each handler is a method
  that updates the fields in place. Each method is proved to perform the matching
  `I2CDecoder` transition on `State()`. The two drains are loops that advance
  `bufferPoiR` one symbol at a time, as the firmware does.
- `Debounce` (debounce.dfy) models the do-while that reads SDA twice until the
  two reads agree, over a finite sequence of read pairs.

Behaviour the model follows from the code:

- The STOP test is `i2cStatus=!I2C_IDLE && i2cClk==1`. This is an assignment,
  not a comparison. The status becomes "SCL is high". The stored value is 1 or
  0, and every test in the firmware only compares the status with `I2C_IDLE`.
  As a result, every rising SDA leaves the bus idle, and the STOP branch depends
  on SCL alone. `I2CDecoder.DataRise` models this as written.
  `I2CDecoder.DataRiseIntended` states the evidently intended comparison.
  Lemmas show where the two differ. One difference: an ordinary 0-to-1 data
  transition inside a transaction makes the next clock edge count as a false
  start. This explains the "many false START" remark next to the
  commented-out `return`.
- The early `return` for a clock edge on an idle bus is commented out. So a
  clock edge always appends one symbol and always advances `w`, even on an idle
  bus. An idle bus still gains a symbol per clock edge; it is only counted as a
  false start.
- For address 0x50, write, acknowledge, the R/W slot adds a `W`, so the text is
  `S1010000W+s\n`. `I2CFraming.AddressWriteExample` proves this text on the full
  trace, including the SDA rise while SCL is low that the leading 1 needs.
- Every rising SDA makes the bus idle, and `loop` drains whenever the bus is
  idle (main.cpp:270, main-send.cpp:363). So a drain can reclaim the buffer
  between the clock edge that precedes the STOP and the STOP itself. The STOP
  then finds `w == 0`, and in the firmware the 16-bit index underflows
  (`DrainBeforeStopEmptiesBuffer`). The model makes the STOP require `1 <= w`.
  With the intended comparison the transaction stays open, so this drain does
  not run (`IntendedStopKeepsSymbolToRewind`).
- The STOP branch rewinds `w` by one. If the read index has caught up with a
  nonzero write index, the rewind lands below `r`. The `'s'` then overwrites a
  symbol that was already handed over: it is lost, and only `'\n'` is pending
  (`StopAfterFullDrainLosesStopSymbol`). Only a drain run while the bus is not
  idle leaves `r == w > 0` (`IdleDrainsKeepReadBehind`). `loop` calls the drain
  only when idle, so in the firmware this needs an edge that interrupts `loop`
  after its idle test and before the drain reads `bufferPoiW`. That interleaving
  is not modelled, so the lost `'s'` is a property of the drain and the STOP,
  not a run of the firmware shown end to end.

## Model

| member | source | states |
|---|---|---|
| `I2CDecoder.Inc16` | main.cpp:56-61 | a 16-bit counter increment stays below 65536, wraps 65535 to 0 and is +1 otherwise |
| `I2CDecoder.PowerOn` | main.cpp:43-61 | the statically initialised state is consistent, idle and has nothing pending |
| `I2CDecoder.RoleOf` | main.cpp:88-94 | slot 8 is the ACK slot; slot 7 of byte 0 is the R/W slot; every other slot is a data bit; the three roles are exclusive |
| `I2CDecoder.SymbolOf` | main.cpp:98-126 | each (role, SDA level) gives a bit symbol from which both the role and the level are read back (injective) |
| `I2CDecoder.ClockRise` | main.cpp:72-128 | one edge adds 1 to `sclUpCnt` (mod 2^16); `falseStart` grows exactly when idle; exactly one symbol, chosen by the pre-increment slot, is appended at `w`; the slot counter cycles 0..8; `byteCount` grows only at the ACK slot; status, `r` and the other counters are unchanged |
| `I2CDecoder.DataRise` | main.cpp:148-163 | as written: the status is idle afterwards and `sdaUpCnt` grows; with SCL high `buf[w-1]` becomes `'s'` and `buf[w]` becomes `'\n'`, `w` grows by 1 and the slot and byte counters are 0; the pending text loses its last symbol and gains "s\n", or is only "\n" when `r == w`; with SCL low only the status and `sdaUpCnt` change |
| `I2CDecoder.DataFall` | main.cpp:164-178 | a falling SDA with SCL high on an idle bus opens a transaction, zeroes both counters and appends `'S'` at the old `w`; any other falling edge changes only `sdaDownCnt` |
| `I2CDecoder.DataChange` | main.cpp:137-179 | the SDA handler keeps the state consistent; after a rising SDA the bus is idle; each direction changes only its own edge counter; with SCL low the buffer, both indices and both slot counters are unchanged |
| `I2CDecoder.ResetVariables` | main.cpp:189-196 | reset makes the bus idle, zeroes `w`, `r`, `bitCount` and `falseStart`, and keeps the buffer, `byteCount` and the three edge counters |
| `I2CDecoder.Drain` | main.cpp:203-224 | emits exactly `buf[r..w)` in order and leaves nothing pending; with `r == w` nothing changes; on an idle bus both indices end at 0, otherwise both end at the old `w`; no other field changes |
| `I2CDecoder.DrainTwiceEmitsNothing` | main-send.cpp:258-276 | a second drain with no edge in between emits nothing and changes nothing |
| `I2CDecoder.DataRiseIntended` | main.cpp:152-161 | the intended test: a rising SDA closes a transaction only when SCL is high and a transaction is open; otherwise only `sdaUpCnt` changes |
| `I2CDecoder.DataBitClosesTransaction` | main.cpp:77-81 | as written, a rising SDA with SCL low inside a transaction makes the bus idle, so the next clock edge counts a false start; with the intended test neither happens |
| `I2CDecoder.IdleStopStillWrites` | main-send.cpp:170-179 | as written, a rising SDA with SCL high on an idle bus still appends "s\n"; the intended test leaves the buffer unchanged |
| `I2CDecoder.StopAfterFullDrainLosesStopSymbol` | main.cpp:158-160 | a STOP after a drain that caught up with `w` in a transaction leaves only `'\n'` pending |
| `I2CDecoder.DrainBeforeStopEmptiesBuffer` | main.cpp:219-223 | a drain after a data-bit rise and a clock edge inside a transaction zeroes `w`, so the STOP that follows has nothing to rewind |
| `I2CDecoder.IntendedStopKeepsSymbolToRewind` | main.cpp:152-161 | with the intended test the same data-bit rise and clock edge leave the transaction open, and a drain leaves `w` at the clock edge's symbol |
| `I2CDecoder.IdleDrainsKeepReadBehind` | main.cpp:270-272 | every edge, the reset and a drain on an idle bus keep `r < w` or `w == 0`; a drain with symbols pending on a non-idle bus breaks it |
| `I2CFraming.RunClock` | main-send.cpp:85-141 | feeding n clock edges advances `w` by n and keeps `r`, the status and consistency |
| `I2CFraming.DataRun` | main.cpp:100-102 | edges below the R/W slot (or below the ACK slot after byte 0) append one data digit each and advance the slot counter |
| `I2CFraming.ByteDecodes` | main.cpp:88-126 | from slot 0, nine edges append 7 digits, R/W and ACK for byte 0, or 8 digits and ACK for a later byte; the slot returns to 0 and the byte is counted |
| `I2CFraming.FramesDecode` | main-send.cpp:101-139 | from slot 0, a run of whole bytes appends their symbols in bus order, the first laid out as the address byte exactly when `byteCount` is 0 |
| `I2CFraming.TransactionDecodes` | main.cpp:137-179 | clock edges only: START, whole bytes, the clock edge before the STOP, then the STOP on an idle bus appends `'S'`, the byte symbols and "s\n"; the bus ends idle with both counters 0 |
| `I2CFraming.Step` | main.cpp:248-249 | one edge goes to its handler: a clock edge advances `w` by one, an SDA change with SCL low leaves `w` and `r` alone |
| `I2CFraming.RunBus` | main.cpp:248-249 | a trace of edges advances `w` by the number of clock edges in it and keeps `r` and consistency |
| `I2CFraming.BitEdges` | main.cpp:248-249 | a run of bits as driven on the bus holds exactly one clock edge per bit |
| `I2CFraming.BitEdgesMatchClock` | main.cpp:148-178 | the SDA changes with SCL low between the clock edges leave the same buffer, indices and slot counters as the clock edges alone |
| `I2CFraming.BusTransactionDecodes` | main.cpp:137-179 | the full trace (START, the bits with their SDA changes, SDA low and a clock edge, then the STOP) appends `'S'`, the byte symbols and "s\n"; the bus ends idle with both counters 0 |
| `I2CFraming.AddressWriteByte` | main.cpp:93-94 | the address 0x50 with write and acknowledge is laid out as `1010000W+` |
| `I2CFraming.AddressWriteExample` | main.cpp:115-124 | that transaction on an idle, drained bus, driven with SDA rising while SCL is low before the first clock edge, leaves exactly `S1010000W+s\n` pending |
| `Debounce.StableLevel` | main.cpp:140-144 | returns the level of the first pair of reads that agree, and None exactly when no pair agrees |
| `Sniffer.BusSniffer.constructor` | main-send.cpp:48-66 | the fields start as the static initialisers |
| `Sniffer.BusSniffer.OnRisingSCL` | main.cpp:72-128 | the clock handler updates the fields and the array in place exactly as `ClockRise` |
| `Sniffer.BusSniffer.OnChangeSDA` | main-send.cpp:157-199 | the SDA handler updates the fields and the array in place exactly as `DataChange`, including the assignment in the STOP test |
| `Sniffer.BusSniffer.ResetI2cVariable` | main-send.cpp:209-216 | the fields become `ResetVariables` of the old state |
| `Sniffer.BusSniffer.ProcessDataBuffer` | main-send.cpp:223-245 | the console gains exactly the drained symbols, in order, and the indices end as `Drain` says |
| `Sniffer.BusSniffer.GetStringFromDataBuffer` | main-send.cpp:255-280 | returns exactly the drained symbols (`""` when `r == w`) and leaves the indices as `Drain` says |

## Left out

- Pin access (`digitalRead`, `pinMode`, `attachInterrupt`) is foreign. The sampled SDA and SCL levels are method parameters.
- The debounce loop has no bound in the firmware. `OnChangeSDA` takes the already-stable level. `Debounce.StableLevel` models the loop over a finite sequence of read pairs and reports that no pair agreed instead of looping forever.
- Interrupt preemption is not modelled. All edges and drains are sequential, so the drain's `pw == bufferPoiW` re-check is always true, and an edge cannot fall between `loop`'s idle test and the drain.
- Serial output is not modelled: the counter header printed by each drain, the `Serial.print` calls in `loop`, and `sendMsgOut`. `ProcessDataBuffer` models only the symbols written with `Serial.write`.
- Wi-Fi setup, the HTTP message prefix and the credentials are I/O and are not modelled.
- `setup`, `loop`, the `delay` calls and the `I2CTEST` LED blink branch are not modelled. The drains themselves do not check the status. The rule that `loop` drains only when idle appears only as the hypothesis of `IdleDrainsKeepReadBehind`.
- `BusTransactionDecodes` covers masters that move SDA only while SCL is low, outside START and STOP. A glitch on SDA while SCL is high is a START or STOP to the firmware and is not part of that trace.
- Unused globals (`lastStartMillis`, `i2cAck`, `i2cBitD2`) are not modelled. The scratch globals `i2cBitC`, `i2cClk` and `i2cCase` become parameters and locals.
- The status value 1, which the assignment in the STOP test stores for an instant, is not a separate state. It behaves as "not idle" for every test in the firmware, and the STOP branch immediately replaces it with idle.
- The firmware does not check the buffer bounds. Appending needs `w < 9600`, and the STOP's rewind needs `1 <= w`. These are preconditions, not a fault counter, because the firmware has no fault counter.
- The counters are 16-bit and wrap at 65536 (`Inc16`). So they are not monotonic across a wrap.
- `dataBuffer` holds bytes in the firmware. The model stores the symbols as `char`.

## Findings

| source | as written | input that shows it | evidently intended | confidence | as-written member | corrected member |
|---|---|---|---|---|---|---|
| main.cpp:152 | `i2cStatus=!I2C_IDLE && i2cClk==1` assigns, so every rising SDA sets the status to idle | an open transaction and a 0-to-1 data bit (SDA rises while SCL is low): the bus becomes idle and the next clock edge counts a false start | `i2cStatus!=I2C_IDLE && i2cClk==1`, a STOP only inside a transaction with SCL high | not executed | `I2CDecoder.DataRise`, `I2CDecoder.DataBitClosesTransaction` | `I2CDecoder.DataRiseIntended` |
| main.cpp:152-160 | the idle status set by a data-bit rise lets `loop` drain mid-transaction, and the drain zeroes `bufferPoiW` | an open transaction, a rising SDA with SCL low, a clock edge, a drain, then the STOP: `w == 0`, and the rewind underflows | the transaction stays open until the STOP, so no drain reclaims the buffer before the STOP | not executed | `I2CDecoder.DrainBeforeStopEmptiesBuffer` | `I2CDecoder.IntendedStopKeepsSymbolToRewind` |

The model follows the firmware as written: the handlers and the class use
`DataRise`. The corrected definitions exist to state and prove the intended
behaviour beside it.
