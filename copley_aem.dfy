/**
 * The Copley AEM amplifier's bit fields (CopleyAEM): the digital outputs and
 * the position-capture control word are Java ints that are edited one bit
 * at a time and then copied into 16-bit RxPDO entries; the amplifier event
 * status register is read through single-bit masks.
 *
 * The two control words are Java ints, but every bit they are edited at is
 * below 16 and they start at 0, so their upper 16 bits stay clear and each is
 * modelled by the `bv16` that is stored into its Unsigned16 PDO entry. The
 * Unsigned32 event status register is a `bv32`.
 */
module CopleyAem {
  const VendorId: int := 0xab
  const ProductCode: int := 0x1030

  /** Masks of the amplifier event status register. */
  const OverVoltage: bv32 := 0x04
  const UnderVoltage: bv32 := 0x08
  const EncoderError: bv32 := 0x20
  const CurrentLimited: bv32 := 0x80
  const OutputVoltageLimited: bv32 := 0x100

  /** Bit 12 of the position capture control word: clear the position on an index pulse. */
  const ClearOnIndexBit: bv16 := 12

  datatype CaptureIndexPositionMode = FallingEdge | RisingEdge | Disabled

  /** The one-bit mask `1 << i`. */
  function BitMask(i: bv16): bv16
    requires i < 16
  {
    1 << i
  }

  /**
   * `v` with bit `i` set when `value` holds and cleared otherwise (`|= 1 << i`
   * or `&= ~(1 << i)`): bit `i` ends up as `value` and no other bit changes.
   */
  function WithBit(v: bv16, i: bv16, value: bool): (r: bv16)
    requires i < 16
    ensures r & !BitMask(i) == v & !BitMask(i)
    ensures r & BitMask(i) == if value then BitMask(i) else 0
  {
    SetOrClear(v, BitMask(i));
    if value then v | BitMask(i) else v & !BitMask(i)
  }

  /** Or-ing in a mask sets exactly its bits; and-ing with its complement clears exactly its bits. */
  lemma SetOrClear(v: bv16, m: bv16)
    ensures (v | m) & !m == v & !m && (v | m) & m == m
    ensures (v & !m) & !m == v & !m && (v & !m) & m == 0
  {
  }

  /**
   * The capture bits for a mode: bit 0 captures on a falling edge and bit 1
   * on a rising edge, at most one of them is set, and no other bit changes.
   */
  function WithCaptureMode(v: bv16, mode: CaptureIndexPositionMode): (r: bv16)
    ensures r & 1 == if mode == FallingEdge then 1 else 0
    ensures r & 2 == if mode == RisingEdge then 2 else 0
    ensures r & 0xFFFC == v & 0xFFFC
  {
    WithBit(WithBit(v, 0, mode == FallingEdge), 1, mode == RisingEdge)
  }

  /**
   * A status flag reads true exactly when no bit of its mask is missing from
   * the register.
   */
  function GetBitValue(register: bv32, mask: bv32): (r: bool)
    ensures r <==> !register & mask == 0
  {
    register & mask == mask
  }

  /**
   * Whether the drive has seen an index pulse: bit 0 of the signed 16-bit
   * position capture status register, i.e. the register value is odd.
   */
  function HasSeenIndexPulse(status: bv16): (r: bool)
    ensures r <==> status % 2 == 1
  {
    status & 1 == 1
  }

  class CopleyAem {
    /** The Java-side copies of the two control words. */
    var positionCaptureControlValue: bv16
    var digitalOutputStateValue: bv16
    /** The RxPDO entries the copies are written to. */
    var positionCaptureControl: bv16
    var digitalOutputState: bv16

    constructor ()
      ensures positionCaptureControlValue == 0 && digitalOutputStateValue == 0
      ensures positionCaptureControl == 0 && digitalOutputState == 0
    {
      positionCaptureControlValue := 0;
      digitalOutputStateValue := 0;
      positionCaptureControl := 0;
      digitalOutputState := 0;
    }

    /**
     * Switches digital output `port` on or off and writes the outputs to the
     * PDO; a port outside 0..15 is refused and nothing changes.
     */
    method SetDigitalOutput(port: int, enable: bool) returns (ok: bool)
      modifies this
      ensures ok <==> 0 <= port <= 15
      ensures ok ==> digitalOutputStateValue == WithBit(old(digitalOutputStateValue), port as bv16, enable)
      ensures ok ==> digitalOutputState == digitalOutputStateValue
      ensures !ok ==> digitalOutputStateValue == old(digitalOutputStateValue) && digitalOutputState == old(digitalOutputState)
      ensures positionCaptureControlValue == old(positionCaptureControlValue)
      ensures positionCaptureControl == old(positionCaptureControl)
    {
      if port < 0 || port > 15 {
        return false;
      }
      digitalOutputStateValue := WithBit(digitalOutputStateValue, port as bv16, enable);
      digitalOutputState := digitalOutputStateValue;
      ok := true;
    }

    /** Sets the capture edge bits for `mode` and writes the control word to the PDO. */
    method SetCaptureIndexPositionMode(mode: CaptureIndexPositionMode)
      modifies this
      ensures positionCaptureControlValue == WithCaptureMode(old(positionCaptureControlValue), mode)
      ensures positionCaptureControl == positionCaptureControlValue
      ensures digitalOutputStateValue == old(digitalOutputStateValue) && digitalOutputState == old(digitalOutputState)
    {
      var falling := false;
      var rising := false;
      match mode {
        case RisingEdge => rising := true;
        case FallingEdge => falling := true;
        case Disabled =>
      }
      SetPositionCaptureControlRegister(0, falling);
      SetPositionCaptureControlRegister(1, rising);
      positionCaptureControl := positionCaptureControlValue;
    }

    /** Sets or clears bit 12 of the capture control word and writes it to the PDO. */
    method SetClearOnIndex(clearOnIndex: bool)
      modifies this
      ensures positionCaptureControlValue == WithBit(old(positionCaptureControlValue), ClearOnIndexBit, clearOnIndex)
      ensures positionCaptureControl == positionCaptureControlValue
      ensures digitalOutputStateValue == old(digitalOutputStateValue) && digitalOutputState == old(digitalOutputState)
    {
      SetPositionCaptureControlRegister(ClearOnIndexBit, clearOnIndex);
      positionCaptureControl := positionCaptureControlValue;
    }

    method SetPositionCaptureControlRegister(bitIndex: bv16, value: bool)
      requires bitIndex < 16
      modifies this
      ensures positionCaptureControlValue == WithBit(old(positionCaptureControlValue), bitIndex, value)
      ensures positionCaptureControl == old(positionCaptureControl)
      ensures digitalOutputStateValue == old(digitalOutputStateValue) && digitalOutputState == old(digitalOutputState)
    {
      positionCaptureControlValue := WithBit(positionCaptureControlValue, bitIndex, value);
    }
  }

  /** Each named status flag reads exactly one bit of the event status register. */
  lemma StatusFlags(register: bv32)
    ensures GetBitValue(register, OverVoltage) <==> register & 0x04 != 0
    ensures GetBitValue(register, UnderVoltage) <==> register & 0x08 != 0
    ensures GetBitValue(register, EncoderError) <==> register & 0x20 != 0
    ensures GetBitValue(register, CurrentLimited) <==> register & 0x80 != 0
    ensures GetBitValue(register, OutputVoltageLimited) <==> register & 0x100 != 0
    ensures GetBitValue(EncoderError, EncoderError) && !GetBitValue(EncoderError, CurrentLimited)
  {
  }
}
