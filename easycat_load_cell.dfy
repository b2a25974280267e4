/**
 * The EasyCAT load-cell board (EasyCATLoadCellSlave): four load cells, each
 * sent as five decimal digits in bytes 5i+1 .. 5i+5 of a 32-byte frame. Each
 * frame is decoded to raw values, the calibration offsets are subtracted,
 * negative results are clamped to 0, and, when a calibration is pending, the
 * raw values become the new offsets.
 *
 * The raw values are at most 11111 * 255, so no Java int arithmetic here can
 * overflow and plain integers model it exactly.
 */
module EasyCatLoadCell {
  import opened Wrappers
  import opened EasyCatSlave

  const CellCount: nat := 4
  const FrameLength: nat := 32

  /** Cell i's value from its five digits, most significant first. */
  function CellRaw(frame: seq<int>, i: nat): int
    requires i < CellCount && |frame| == FrameLength
  {
    10000 * frame[5 * i + 1] + 1000 * frame[5 * i + 2] + 100 * frame[5 * i + 3] + 10 * frame[5 * i + 4] + frame[5 * i + 5]
  }

  /** The four raw values of a frame. */
  function RawValues(frame: seq<int>): (r: seq<int>)
    requires |frame| == FrameLength
    ensures |r| == CellCount && forall i :: 0 <= i < CellCount ==> r[i] == CellRaw(frame, i)
  {
    [CellRaw(frame, 0), CellRaw(frame, 1), CellRaw(frame, 2), CellRaw(frame, 3)]
  }

  /** The five decimal digits of 0 <= n < 100000, most significant first. */
  function Digits(n: int): (d: seq<int>)
    requires 0 <= n < 100000
    ensures |d| == 5 && forall k :: 0 <= k < 5 ==> 0 <= d[k] <= 9
  {
    [n / 10000, n / 1000 % 10, n / 100 % 10, n / 10 % 10, n % 10]
  }

  /** A frame carrying four cell values as digits, with byte 0 and bytes 21.. as given. */
  function EncodeFrame(values: seq<int>, first: int, rest: seq<int>): (f: seq<int>)
    requires |values| == CellCount && |rest| == FrameLength - 21
    requires forall i :: 0 <= i < CellCount ==> 0 <= values[i] < 100000
    ensures |f| == FrameLength
  {
    [first] + Digits(values[0]) + Digits(values[1]) + Digits(values[2]) + Digits(values[3]) + rest
  }

  /** Decoding a frame that carries four values as decimal digits gives those values back. */
  lemma DecodeEncode(values: seq<int>, first: int, rest: seq<int>)
    requires |values| == CellCount && |rest| == FrameLength - 21
    requires forall i :: 0 <= i < CellCount ==> 0 <= values[i] < 100000
    ensures RawValues(EncodeFrame(values, first, rest)) == values
  {
    var f := EncodeFrame(values, first, rest);
    forall i | 0 <= i < CellCount ensures CellRaw(f, i) == values[i] {
      var d := Digits(values[i]);
      assert f[5 * i + 1..5 * i + 6] == d;
      assert f[5 * i + 1] == d[0] && f[5 * i + 2] == d[1] && f[5 * i + 3] == d[2] && f[5 * i + 4] == d[3] && f[5 * i + 5] == d[4];
      DigitsValue(values[i]);
    }
  }

  /** The five digits weigh back to the number. */
  lemma DigitsValue(n: int)
    requires 0 <= n < 100000
    ensures var d := Digits(n); 10000 * d[0] + 1000 * d[1] + 100 * d[2] + 10 * d[3] + d[4] == n
  {
    var q4 := n / 10;
    var q3 := q4 / 10;
    var q2 := q3 / 10;
    var q1 := q2 / 10;
    assert n == 10 * q4 + n % 10;
    assert q4 == 10 * q3 + q4 % 10;
    assert q3 == 10 * q2 + q3 % 10;
    assert q2 == 10 * q1 + q2 % 10;
    assert n / 100 == q3 && n / 1000 == q2 && n / 10000 == q1;
  }

  /** Each processed value: the raw value minus its offset, or 0 if that is negative. */
  function Processed(raw: seq<int>, offsets: seq<int>): (r: seq<int>)
    requires |raw| == CellCount && |offsets| == CellCount
    ensures |r| == CellCount
    ensures forall i :: 0 <= i < CellCount ==> r[i] >= 0
    ensures forall i :: 0 <= i < CellCount ==> (raw[i] >= offsets[i] ==> r[i] == raw[i] - offsets[i])
    ensures forall i :: 0 <= i < CellCount ==> (raw[i] < offsets[i] ==> r[i] == 0)
  {
    seq(CellCount, i requires 0 <= i < CellCount => if raw[i] - offsets[i] < 0 then 0 else raw[i] - offsets[i])
  }

  class EasyCatLoadCellSlave {
    const slave: EasyCatSlave
    const frameData: array<int>
    var rawValues: seq<int>
    var processedValues: seq<int>
    var offsetValues: seq<int>
    var calibrate: bool

    ghost predicate Valid() reads this, slave
    {
      slave.Valid() && slave.frameLength == FrameLength && frameData.Length == FrameLength &&
      |rawValues| == CellCount && |processedValues| == CellCount && |offsetValues| == CellCount
    }

    /** Offsets start at 0 and a calibration is pending. */
    constructor ()
      ensures Valid() && fresh(frameData) && fresh(slave) && fresh(slave.tx) && fresh(slave.rx)
      ensures calibrate && offsetValues == [0, 0, 0, 0]
    {
      slave := new EasyCatSlave(FrameLength);
      frameData := new int[FrameLength];
      rawValues := [0, 0, 0, 0];
      processedValues := [0, 0, 0, 0];
      offsetValues := [0, 0, 0, 0];
      calibrate := true;
    }

    /**
     * Reads the frame, decodes the raw values, subtracts the offsets and
     * clamps, and then, if a calibration is pending, takes the raw values as
     * the new offsets; the processed values of this frame still use the old
     * offsets.
     */
    method ProcessLoadCellData()
      requires Valid()
      modifies this, frameData
      ensures Valid()
      ensures frameData[..] == slave.tx[..]
      ensures rawValues == RawValues(slave.tx[..])
      ensures processedValues == Processed(rawValues, old(offsetValues))
      ensures offsetValues == if old(calibrate) then rawValues else old(offsetValues)
      ensures !calibrate
    {
      var r := slave.GetTransmitBytes(frameData, 0, 31);
      assert slave.tx[..][0..32] == slave.tx[..];
      var frame := frameData[..];
      rawValues := RawValues(frame);
      var p := Processed(rawValues, offsetValues);
      processedValues := p;
      if calibrate {
        calibrate := false;
        offsetValues := rawValues;
      }
    }

    /** Asks for the next frame's raw values to become the offsets; nothing else changes. */
    method RequestCalibration()
      modifies this
      ensures calibrate
      ensures rawValues == old(rawValues) && processedValues == old(processedValues) && offsetValues == old(offsetValues)
    {
      calibrate := true;
    }
  }

  /**
   * After a calibration on a frame, a frame with the same raw values reads 0
   * on every cell, and a cell whose raw value drops below its offset reads 0
   * too.
   */
  lemma CalibrationZeroes(raw: seq<int>, next: seq<int>)
    requires |raw| == CellCount && |next| == CellCount
    ensures Processed(raw, raw) == [0, 0, 0, 0]
    ensures forall i :: 0 <= i < CellCount && next[i] <= raw[i] ==> Processed(next, raw)[i] == 0
  {
  }
}
