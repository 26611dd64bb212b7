/**
 * The sniffer's process-wide state and its handlers, updated in place.
 *
 * The fields are the globals shared by the two interrupt handlers and the
 * drain; `dataBuffer` is the fixed 9600-entry array. Each method is proved to
 * perform the transition of the matching function in module I2CDecoder on
 * `State()`, the value view of the fields, so every lemma proved there holds
 * of the firmware state as well.
 */
module Sniffer {
  import opened I2CDecoder

  class BusSniffer {
    var status: BusStatus
    const dataBuffer: array<char>
    var bufferPoiW: nat
    var bufferPoiR: nat
    var bitCount: nat
    var byteCount: nat
    var falseStart: nat
    var sclUpCnt: nat
    var sdaUpCnt: nat
    var sdaDownCnt: nat
    /** What `processDataBuffer` has written to the serial console, symbol by symbol. */
    var console: seq<char>

    /** The fields as a decoder value. */
    function State(): Decoder
      reads this, dataBuffer
    {
      Decoder(status, dataBuffer[..], bufferPoiW, bufferPoiR, bitCount, byteCount,
              falseStart, sclUpCnt, sdaUpCnt, sdaDownCnt)
    }

    predicate Valid()
      reads this, dataBuffer
    {
      Consistent(State())
    }

    /** The static initialisation of the globals. */
    constructor ()
      ensures Valid() && State() == PowerOn() && console == []
      ensures fresh(dataBuffer)
    {
      status := Idle;
      dataBuffer := new char[CAPACITY](_ => '\0');
      bufferPoiW, bufferPoiR := 0, 0;
      bitCount, byteCount := 0, 0;
      falseStart, sclUpCnt, sdaUpCnt, sdaDownCnt := 0, 0, 0, 0;
      console := [];
    }

    /** `i2cTriggerOnRaisingSCL`, with the SDA level it samples as a parameter. */
    method OnRisingSCL(sda: bool)
      requires Valid() && bufferPoiW < CAPACITY
      modifies this, dataBuffer
      ensures Valid() && State() == ClockRise(old(State()), sda)
      ensures console == old(console)
    {
      sclUpCnt := Inc16(sclUpCnt);
      if status == Idle {
        falseStart := Inc16(falseStart);  // counted, but the sample is still recorded
      }
      var slot := Data;
      if bitCount == 8 {
        slot := Ack;
      }
      if bitCount == 7 && byteCount == 0 {
        slot := Direction;
      }
      bitCount := bitCount + 1;
      match slot
      case Data =>
        dataBuffer[bufferPoiW] := if sda then '1' else '0';
        bufferPoiW := bufferPoiW + 1;
      case Ack =>
        dataBuffer[bufferPoiW] := if sda then '-' else '+';
        bufferPoiW := bufferPoiW + 1;
        byteCount := Inc16(byteCount);
        bitCount := 0;
      case Direction =>
        dataBuffer[bufferPoiW] := if sda then 'R' else 'W';
        bufferPoiW := bufferPoiW + 1;
    }

    /**
     * `i2cTriggerOnChangeSDA` after the debounce loop, with the stable SDA
     * level and the SCL level it reads as parameters.
     */
    method OnChangeSDA(sdaStable: bool, scl: bool)
      requires Valid() && DataChangeInBounds(State(), sdaStable, scl)
      modifies this, dataBuffer
      ensures Valid() && State() == DataChange(old(State()), sdaStable, scl)
      ensures console == old(console)
    {
      if sdaStable {
        // The test assigns: the status becomes "SCL is high", a non-idle value
        // when it is, and the branch is taken exactly then.
        status := if scl then Transaction else Idle;
        if status != Idle {
          status := Idle;
          bitCount := 0;
          byteCount := 0;
          bufferPoiW := bufferPoiW - 1;
          dataBuffer[bufferPoiW] := 's';
          bufferPoiW := bufferPoiW + 1;
          dataBuffer[bufferPoiW] := '\n';
          bufferPoiW := bufferPoiW + 1;
        }
        sdaUpCnt := Inc16(sdaUpCnt);
      } else {
        if status == Idle && scl {
          status := Transaction;
          bitCount := 0;
          byteCount := 0;
          dataBuffer[bufferPoiW] := 'S';
          bufferPoiW := bufferPoiW + 1;
        }
        sdaDownCnt := Inc16(sdaDownCnt);
      }
    }

    /** `resetI2cVariable`. */
    method ResetI2cVariable()
      requires Valid()
      modifies this
      ensures Valid() && State() == ResetVariables(old(State()))
      ensures console == old(console)
    {
      status := Idle;
      bufferPoiW := 0;
      bufferPoiR := 0;
      bitCount := 0;
      falseStart := 0;
    }

    /**
     * `processDataBuffer`: write the pending symbols to the console one by one,
     * advancing the read index with each, then reclaim the buffer if the bus
     * is idle and the write index has not moved.
     */
    method ProcessDataBuffer()
      requires Valid()
      modifies this`bufferPoiR, this`bufferPoiW, this`console
      ensures Valid() && State() == Drain(old(State())).after
      ensures console == old(console) + Drain(old(State())).emitted
    {
      if bufferPoiW == bufferPoiR {
        return;
      }
      var pw := bufferPoiW;
      var i := bufferPoiR;
      while i < pw
        invariant old(bufferPoiR) <= i <= pw
        invariant bufferPoiR == i && bufferPoiW == pw
        invariant console == old(console) + dataBuffer[old(bufferPoiR)..i]
      {
        console := console + [dataBuffer[i]];
        bufferPoiR := bufferPoiR + 1;
        i := i + 1;
      }
      if status == Idle && pw == bufferPoiW {
        bufferPoiW := 0;
        bufferPoiR := 0;
      }
    }

    /**
     * `getStringFromDataBuffer`: the same drain, accumulating the pending
     * symbols into the returned string instead of writing them out.
     */
    method GetStringFromDataBuffer() returns (ret: string)
      requires Valid()
      modifies this`bufferPoiR, this`bufferPoiW
      ensures Valid() && State() == Drain(old(State())).after
      ensures ret == Drain(old(State())).emitted
    {
      ret := "";
      if bufferPoiW == bufferPoiR {
        return "";
      }
      var pw := bufferPoiW;
      var i := bufferPoiR;
      while i < pw
        invariant old(bufferPoiR) <= i <= pw
        invariant bufferPoiR == i && bufferPoiW == pw
        invariant ret == dataBuffer[old(bufferPoiR)..i]
      {
        ret := ret + [dataBuffer[i]];
        bufferPoiR := bufferPoiR + 1;
        i := i + 1;
      }
      if status == Idle && pw == bufferPoiW {
        bufferPoiW := 0;
        bufferPoiR := 0;
      }
    }
  }
}
