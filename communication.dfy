/**
 * The link between the two controllers (Core/Src/communication.c). The high
 * side sends its two measured voltages in a CRC-8 protected frame; the low
 * side collects bytes in the interrupt handler until the line goes idle,
 * checks the CRC and, only when it matches, takes the values over.
 */
module Communication {
  import opened Typedefs
  import Crc8
  import Float32

  /** sizeof(union uCommFrame): the 12-byte `values` struct and four error flags. */
  const FrameSize: nat := 16
  /** sizeof(commFrame.data.values): two floats, the CRC byte and three padding bytes. */
  const ValuesSize: nat := 12
  /** 2 * sizeof(float): the bytes the CRC covers. */
  const PayloadSize: nat := 8
  /** Offset of `values.crc8`. */
  const CrcOffset: nat := 8
  /** Offsets of bErrParity, bErrFrame, bErrNoise and bErrOverrun. */
  const ParityFlag: nat := 12
  const FrameFlag: nat := 13
  const NoiseFlag: nat := 14
  const OverrunFlag: nat := 15
  /** HAL_UART_ERROR_FE: error codes from this one upwards abort the reception. */
  const UartErrorFe: nat := 0x04

  /** The USART1 ISR flags the receive handler looks at. */
  datatype UartFlags = UartFlags(pe: bool, fe: bool, ne: bool, ore: bool, rxne: bool, idle: bool)

  /** The receiver's acceptance rule: the stored CRC byte matches the CRC of the two values. */
  predicate Accepts(f: seq<bv8>)
    requires |f| == FrameSize
  {
    f[CrcOffset] == Crc8.Checksum(f[..PayloadSize])
  }

  /** The frame after the handler records the error flags (a C `true` is stored as 1). */
  function Marked(f: seq<bv8>, flags: UartFlags): (g: seq<bv8>)
    requires |f| == FrameSize
    ensures |g| == FrameSize && g[..ParityFlag] == f[..ParityFlag]
    ensures g[ParityFlag] == (if flags.pe then 1 else f[ParityFlag])
    ensures g[FrameFlag] == (if flags.fe then 1 else f[FrameFlag])
    ensures g[NoiseFlag] == (if flags.ne then 1 else f[NoiseFlag])
    ensures g[OverrunFlag] == (if flags.ore then 1 else f[OverrunFlag])
  {
    var a := if flags.pe then f[ParityFlag := 1] else f;
    var b := if flags.fe then a[FrameFlag := 1] else a;
    var c := if flags.ne then b[NoiseFlag := 1] else b;
    if flags.ore then c[OverrunFlag := 1] else c
  }

  /** The frame after a received byte: stored at `index` while there is room, flushed otherwise. */
  function Stored(f: seq<bv8>, index: nat, rdr: bv8): (g: seq<bv8>)
    requires |f| == FrameSize
    ensures |g| == FrameSize
  {
    if index < FrameSize then f[index := rdr] else f
  }

  /** The buffer and index after a sequence of received bytes, without an idle event. */
  function StoredAll(f: seq<bv8>, index: nat, bytes: seq<bv8>): (g: seq<bv8>)
    requires |f| == FrameSize
    ensures |g| == FrameSize
    decreases |bytes|
  {
    if |bytes| == 0 then f
    else StoredAll(Stored(f, index, bytes[0]), if index < FrameSize then index + 1 else index, bytes[1..])
  }

  /** Receiving a burst into an empty buffer from index 0 lays its first bytes down in order. */
  lemma {:induction false} StoredAllPrefix(f: seq<bv8>, index: nat, bytes: seq<bv8>)
    requires |f| == FrameSize && index + |bytes| <= FrameSize
    ensures StoredAll(f, index, bytes)[index..index + |bytes|] == bytes
    ensures StoredAll(f, index, bytes)[..index] == f[..index]
    decreases |bytes|
  {
    if |bytes| > 0 {
      var g := Stored(f, index, bytes[0]);
      StoredAllPrefix(g, index + 1, bytes[1..]);
      var h := StoredAll(g, index + 1, bytes[1..]);
      assert h[..index + 1] == g[..index + 1];
      assert h[index] == bytes[0];
      assert h[index..index + |bytes|] == [bytes[0]] + h[index + 1..index + |bytes|];
      assert h[..index] == g[..index];
    }
  }

  /**
   * The frame the high side transmits, read back by a receiver that starts from
   * the zeroed buffer, passes the CRC gate: the two sides agree on the layout.
   */
  lemma SentFrameAccepted(payload: seq<bv8>, padding: seq<bv8>)
    requires |payload| == PayloadSize && |padding| == ValuesSize - PayloadSize - 1
    ensures Accepts(StoredAll(Zeros(), 0, payload + [Crc8.Checksum(payload)] + padding))
  {
    var sent := payload + [Crc8.Checksum(payload)] + padding;
    StoredAllPrefix(Zeros(), 0, sent);
    var g := StoredAll(Zeros(), 0, sent);
    assert g[..ValuesSize] == sent;
    assert g[..PayloadSize] == payload;
  }

  /**
   * A frame laid out as sendResults() builds it, two float images and their
   * CRC-8 followed by any padding and flags, updates exactly the extractor
   * and focus voltages with the images it carries.
   */
  lemma ReceivedSentFrame(meas: Regulated, payload: seq<bv8>, rest: seq<bv8>)
    requires |payload| == PayloadSize && |rest| == FrameSize - PayloadSize - 1
    ensures Received(meas, payload + [Crc8.Checksum(payload)] + rest)
            == meas.(extractVolt := Float32.Decode(payload[0..4]), focusVolt := Float32.Decode(payload[4..8]))
  {
    var f := payload + [Crc8.Checksum(payload)] + rest;
    assert f[..PayloadSize] == payload;
    assert f[0..4] == payload[0..4] && f[4..8] == payload[4..8];
  }

  /**
   * The CRC gate at work: changing any one of the two float images' bytes or
   * the CRC byte of such a frame leaves the measurements as they were.
   */
  lemma ReceivedCorruptedFrame(meas: Regulated, payload: seq<bv8>, rest: seq<bv8>, j: nat, y: bv8)
    requires |payload| == PayloadSize && |rest| == FrameSize - PayloadSize - 1
    requires j <= CrcOffset && (payload + [Crc8.Checksum(payload)] + rest)[j] != y
    ensures Received(meas, (payload + [Crc8.Checksum(payload)] + rest)[j := y]) == meas
  {
    var f := payload + [Crc8.Checksum(payload)] + rest;
    var g := f[j := y];
    if j < PayloadSize {
      assert g[CrcOffset] == Crc8.Checksum(payload);
      assert payload == payload[..j] + [payload[j]] + payload[j + 1..];
      assert g[..PayloadSize] == payload[..j] + [y] + payload[j + 1..];
      Crc8.SingleByteErrorDetected(payload[..j], payload[j], y, payload[j + 1..]);
    } else {
      assert g[..PayloadSize] == payload;
    }
  }

  /** The cleared receive buffer. */
  function Zeros(): (z: seq<bv8>)
    ensures |z| == FrameSize && forall i :: 0 <= i < FrameSize ==> z[i] == 0
  {
    seq(FrameSize, _ => 0)
  }

  /** The new measurement record after a frame is processed: taken over only when accepted. */
  function Received(meas: Regulated, f: seq<bv8>): (m: Regulated)
    requires |f| == FrameSize
    ensures !Accepts(f) ==> m == meas
    ensures Accepts(f) ==> m == meas.(extractVolt := Float32.Decode(f[0..4]), focusVolt := Float32.Decode(f[4..8]))
  {
    if Accepts(f) then meas.(extractVolt := Float32.Decode(f[0..4]), focusVolt := Float32.Decode(f[4..8]))
    else meas
  }

  class Link {
    /** MCU_HIGH or MCU_LOW. */
    const side: Side
    /** The memory image the compiler gives a float; rounding to single precision is not modelled. */
    const single: Float -> seq<bv8>
    /** commFrame, seen through its byte view `uartRxBuff`. */
    const frame: array<bv8>
    /** The receive handler's static `rxIndex`. */
    var rxIndex: nat
    /** bIdle: no transmission in progress. */
    var idle: bool
    /** bLedSetByCommunication: the red LED was switched on by the link. */
    var ledSetByComm: bool
    /** The USART1 receiver is running. */
    var receiving: bool
    /** The frames handed to HAL_UART_Transmit_IT, oldest first. */
    var sent: seq<seq<bv8>>

    ghost predicate Valid()
      reads this
    {
      frame.Length == FrameSize && rxIndex <= FrameSize && forall x :: |single(x)| == 4
    }

    constructor (side: Side, single: Float -> seq<bv8>)
      requires forall x :: |single(x)| == 4
      ensures Valid() && fresh(frame) && this.side == side && this.single == single
      ensures frame[..] == Zeros() && rxIndex == 0 && idle && !ledSetByComm && receiving && sent == []
    {
      this.side := side;
      this.single := single;
      frame := new bv8[FrameSize](_ => 0);
      rxIndex := 0;
      idle := true;
      ledSetByComm := false;
      receiving := true;
      sent := [];
    }

    /**
     * sendResults(): on the high side, stores both values and their CRC in the
     * frame and starts the transmission of the `values` struct. `bIdle` is
     * cleared first and stays cleared when the start fails (`txOk` false).
     */
    method SendResults(sys: SystemState, txOk: bool)
      requires Valid()
      modifies this`idle, this`ledSetByComm, this`sent, frame, sys`redLed
      ensures Valid()
      ensures side == Low ==> frame[..] == old(frame[..]) && idle == old(idle) && sent == old(sent)
                              && ledSetByComm == old(ledSetByComm) && sys.redLed == old(sys.redLed)
      ensures side == High ==> !idle
      ensures side == High ==> frame[0..4] == single(sys.meas.extractVolt) && frame[4..8] == single(sys.meas.focusVolt)
      ensures side == High ==> frame[CrcOffset] == Crc8.Checksum(frame[..PayloadSize])
      ensures side == High ==> frame[CrcOffset + 1..] == old(frame[CrcOffset + 1..])
      ensures side == High && txOk ==> sent == old(sent) + [frame[..ValuesSize]] && !ledSetByComm
                                       && sys.redLed == (old(sys.redLed) && !old(ledSetByComm))
      ensures side == High && !txOk ==> sent == old(sent) && ledSetByComm && sys.redLed
    {
      if side == High {
        idle := false;
        var ext := single(sys.meas.extractVolt);
        var focus := single(sys.meas.focusVolt);
        forall i | 0 <= i < 4 {
          frame[i] := ext[i];
        }
        forall i | 4 <= i < 8 {
          frame[i] := focus[i - 4];
        }
        assert frame[0..4] == ext && frame[4..8] == focus;
        var crc := Crc8.Compute(frame[..PayloadSize]);
        frame[CrcOffset] := crc;
        if !txOk {
          sys.redLed := true;
          ledSetByComm := true;
        } else {
          sent := sent + [frame[..ValuesSize]];
          if ledSetByComm {
            sys.redLed := false;
            ledSetByComm := false;
          }
        }
      }
    }
  

    /** HAL_UART_TxCpltCallback(): the high side becomes idle again; the low side does nothing. */
    method TxComplete()
      modifies this`idle
      ensures idle == (side == High || old(idle))
    {
      if side == High {
        idle := true;
      }
    }

    /** uartIsIdle(). */
    method IsIdle() returns (r: bool)
      ensures r == idle
    {
      r := idle;
    }

    /**
     * HAL_UART_RxCpltCallback(): on the low side, the CRC gate. A frame whose CRC
     * byte does not match leaves the measurements as they were and marks the link
     * as failed; a matching one replaces both voltages. The UART error flags do
     * not take part in the decision.
     */
    method RxComplete(sys: SystemState)
      requires Valid()
      modifies this`ledSetByComm, sys`meas, sys`communicationOk, sys`redLed
      ensures side == High ==> sys.meas == old(sys.meas) && sys.communicationOk == old(sys.communicationOk)
                               && sys.redLed == old(sys.redLed) && ledSetByComm == old(ledSetByComm)
      ensures side == Low ==> sys.meas == Received(old(sys.meas), frame[..])
      ensures side == Low ==> sys.communicationOk == Accepts(frame[..])
      ensures side == Low && !Accepts(frame[..]) ==> ledSetByComm && sys.redLed
      ensures side == Low && Accepts(frame[..]) ==>
        !ledSetByComm && sys.redLed == (old(sys.redLed) && !old(ledSetByComm))
    {
      if side == Low {
        var crc := Crc8.Compute(frame[..PayloadSize]);
        if frame[CrcOffset] != crc {
          sys.redLed := true;
          ledSetByComm := true;
          sys.communicationOk := false;
        } else {
          if ledSetByComm {
            sys.redLed := false;
            ledSetByComm := false;
          }
          sys.meas := sys.meas.(extractVolt := Float32.Decode(frame[0..4]), focusVolt := Float32.Decode(frame[4..8]));
          sys.communicationOk := true;
        }
      }
    }

    /** The buffer once the handler has recorded the flags and the received byte. */
    ghost function Collected(flags: UartFlags, rdr: bv8): (g: seq<bv8>)
      requires Valid()
      reads this, frame
      ensures |g| == FrameSize
    {
      var m := Marked(frame[..], flags);
      if flags.rxne then Stored(m, rxIndex, rdr) else m
    }

    /**
     * uartCustomIrqHandler() (low side): records the error flags, stores the
     * received byte while the buffer has room, and on a line-idle event
     * processes the frame, then clears the buffer, its flags and the index.
     */
    method ReceiveIrq(sys: SystemState, flags: UartFlags, rdr: bv8)
      requires Valid() && side == Low
      modifies this`rxIndex, this`ledSetByComm, frame, sys`meas, sys`communicationOk, sys`redLed
      ensures Valid()
      ensures !flags.idle ==> frame[..] == old(Collected(flags, rdr)) && sys.meas == old(sys.meas)
                              && sys.communicationOk == old(sys.communicationOk)
      ensures !flags.idle ==> rxIndex == if flags.rxne && old(rxIndex) < FrameSize then old(rxIndex) + 1 else old(rxIndex)
      ensures flags.idle ==> frame[..] == Zeros() && rxIndex == 0
      ensures flags.idle ==> sys.meas == Received(old(sys.meas), old(Collected(flags, rdr)))
                             && sys.communicationOk == Accepts(old(Collected(flags, rdr)))
    {
      Collect(flags, rdr);
      if flags.idle {
        RxComplete(sys);
        Flush();
      }
    }

    /** The error flags and the received byte of one interrupt, recorded in the frame. */
    method Collect(flags: UartFlags, rdr: bv8)
      requires Valid()
      modifies this`rxIndex, frame
      ensures Valid() && frame[..] == old(Collected(flags, rdr))
      ensures rxIndex == if flags.rxne && old(rxIndex) < FrameSize then old(rxIndex) + 1 else old(rxIndex)
    {
      ghost var collected := Collected(flags, rdr);
      if flags.pe {
        frame[ParityFlag] := 1;
      }
      if flags.fe {
        frame[FrameFlag] := 1;
      }
      if flags.ne {
        frame[NoiseFlag] := 1;
      }
      if flags.ore {
        frame[OverrunFlag] := 1;
      }
      assert frame[..] == Marked(old(frame[..]), flags);
      if flags.rxne {
        if rxIndex < FrameSize {
          frame[rxIndex] := rdr;
          rxIndex := rxIndex + 1;
        }
      }
      assert frame[..] == collected;
    }

    /** The end of a frame: the buffer, its flags and the index are cleared. */
    method Flush()
      requires Valid()
      modifies this`rxIndex, frame
      ensures Valid() && frame[..] == Zeros() && rxIndex == 0
    {
      rxIndex := 0;
      forall i | 0 <= i < FrameSize {
        frame[i] := 0;
      }
      assert frame[..] == Zeros();
    }

    /** HAL_UART_ErrorCallback(): an error code of FE or above aborts the reception. */
    method ErrorCallback(code: nat)
      modifies this`receiving
      ensures receiving == (old(receiving) && code < UartErrorFe)
    {
      if code >= UartErrorFe {
        receiving := false;
      }
    }

    /**
     * HAL_UART_AbortCpltCallback(): reception restarts (when the HAL accepts the
     * request, `startOk`) only while the high side is powered; otherwise the
     * link stays stopped.
     */
    method AbortComplete(sys: SystemState, startOk: bool)
      modifies this`receiving
      ensures receiving == (old(receiving) || (sys.highSidePowered && startOk))
    {
      if sys.highSidePowered && startOk {
        receiving := true;
      }
    }
  }
}
