/**
 * The EasyCAT slave (EasyCATSlave): an Arduino board behind an EasyCAT
 * shield that exchanges a fixed-length frame of Unsigned8 entries each way.
 * getTransmitBytes copies a range of the received (TxPDO) bytes into a
 * caller's array; setReceiveBytes writes the first bytes of the sent (RxPDO)
 * frame.
 *
 * An Unsigned8 entry holds a byte: storing a value keeps its low 8 bits, and
 * reading gives 0..255. The two PDOs are arrays of `frameLength` bytes.
 */
module EasyCatSlave {
  import opened Wrappers

  type Byte = x: int | 0 <= x < 256

  /** The byte an Unsigned8 entry holds after storing `v`: its low 8 bits. */
  function Low8(v: int): (r: Byte)
    ensures 0 <= v < 256 ==> r == v
    ensures (r - v) % 256 == 0
  {
    v % 256
  }

  /** The argument check of getTransmitBytes: a range of the frame, and an array exactly its size. */
  predicate TransmitRangeValid(frameLength: int, arrayLength: int, startIndex: int, endIndex: int)
  {
    0 <= startIndex <= endIndex <= frameLength - 1 && endIndex - startIndex + 1 == arrayLength
  }

  /**
   * getTransmitBytes as written: after the argument check, it stores byte i
   * of the frame at index i of the array, for i from startIndex to
   * endIndex, so an index past the array's end stops it with an error.
   */
  function GetTransmitBytesAsWritten(tx: seq<Byte>, arrayToPack: seq<int>, startIndex: int, endIndex: int)
    : (r: Result<seq<int>>)
    ensures r.Ok? ==> TransmitRangeValid(|tx|, |arrayToPack|, startIndex, endIndex) && startIndex == 0
  {
    if !TransmitRangeValid(|tx|, |arrayToPack|, startIndex, endIndex) then Err("Invalid method parameters")
    else if endIndex >= |arrayToPack| then Err("ArrayIndexOutOfBoundsException")
    else Ok(tx[startIndex..endIndex + 1] + arrayToPack[endIndex + 1..])
  }

  /**
   * As written, every range that does not start at 0 passes the argument
   * check and then fails: the array has endIndex - startIndex + 1 entries,
   * which is at most endIndex. Reading byte 1 alone into a one-entry array
   * is such a range.
   */
  lemma GetTransmitBytesAsWrittenFails(tx: seq<Byte>, arrayToPack: seq<int>, startIndex: int, endIndex: int)
    requires TransmitRangeValid(|tx|, |arrayToPack|, startIndex, endIndex)
    ensures GetTransmitBytesAsWritten(tx, arrayToPack, startIndex, endIndex).Ok? <==> startIndex == 0
    ensures |tx| >= 2 ==> GetTransmitBytesAsWritten(tx, [0], 1, 1).Err?
  {
  }

  /** The corrected copy: entry k of the array is byte startIndex + k of the frame. */
  function TransmitRange(tx: seq<Byte>, startIndex: int, endIndex: int): (r: seq<Byte>)
    requires 0 <= startIndex <= endIndex < |tx|
    ensures |r| == endIndex - startIndex + 1
    ensures forall k :: 0 <= k < |r| ==> r[k] == tx[startIndex + k]
  {
    tx[startIndex..endIndex + 1]
  }

  /** Where the written range starts at 0, the source's copy and the corrected one agree. */
  lemma AsWrittenAgreesFromZero(tx: seq<Byte>, arrayToPack: seq<int>, endIndex: int)
    requires TransmitRangeValid(|tx|, |arrayToPack|, 0, endIndex)
    ensures GetTransmitBytesAsWritten(tx, arrayToPack, 0, endIndex) == Ok(TransmitRange(tx, 0, endIndex))
  {
    var copied := tx[0..endIndex + 1];
    assert arrayToPack[endIndex + 1..] == [];
    assert copied + arrayToPack[endIndex + 1..] == copied;
  }

  /** The frame after setReceiveBytes: the first |values| bytes replaced by the low bytes of the values. */
  function ReceiveFrame(rx: seq<Byte>, values: seq<int>): (r: seq<Byte>)
    requires |values| <= |rx|
    ensures |r| == |rx|
    ensures forall k :: 0 <= k < |values| ==> r[k] == Low8(values[k])
    ensures forall k :: |values| <= k < |rx| ==> r[k] == rx[k]
  {
    seq(|rx|, k requires 0 <= k < |rx| => if k < |values| then Low8(values[k]) else rx[k])
  }

  class EasyCatSlave {
    const frameLength: nat
    /** The TxPDO 0x1A00 bytes, as last received from the slave. */
    const tx: array<Byte>
    /** The RxPDO 0x1600 bytes, sent to the slave. */
    const rx: array<Byte>

    ghost predicate Valid() reads this
    {
      tx.Length == frameLength && rx.Length == frameLength && tx != rx
    }

    constructor (frameLength: nat)
      ensures Valid() && this.frameLength == frameLength && fresh(tx) && fresh(rx)
    {
      this.frameLength := frameLength;
      tx := new Byte[frameLength](_ => 0);
      rx := new Byte[frameLength](_ => 0);
    }

    /**
     * Copies frame bytes startIndex..endIndex into `arrayToPack`, entry k
     * receiving byte startIndex + k (the corrected indexing); invalid
     * arguments are refused and the array is left alone.
     */
    method GetTransmitBytes(arrayToPack: array<int>, startIndex: int, endIndex: int) returns (r: Result<()>)
      requires Valid()
      modifies arrayToPack
      ensures r.Ok? <==> TransmitRangeValid(frameLength, arrayToPack.Length, startIndex, endIndex)
      ensures r.Ok? ==> arrayToPack[..] == TransmitRange(tx[..], startIndex, endIndex)
      ensures r.Err? ==> arrayToPack[..] == old(arrayToPack[..])
    {
      if startIndex < 0 || endIndex > frameLength - 1 || startIndex > endIndex || endIndex - startIndex + 1 != arrayToPack.Length {
        return Err("Invalid method parameters");
      }
      var i := startIndex;
      while i <= endIndex
        invariant startIndex <= i <= endIndex + 1
        invariant forall k :: 0 <= k < i - startIndex ==> arrayToPack[k] == tx[startIndex + k]
      {
        arrayToPack[i - startIndex] := tx[i];
        i := i + 1;
      }
      r := Ok(());
    }

    /**
     * Stores the low byte of each value in the first |values| entries of the
     * sent frame; more values than the frame holds are refused.
     */
    method SetReceiveBytes(values: seq<int>) returns (r: Result<()>)
      requires Valid()
      modifies rx
      ensures r.Ok? <==> |values| <= frameLength
      ensures r.Ok? ==> rx[..] == ReceiveFrame(old(rx[..]), values)
      ensures r.Err? ==> rx[..] == old(rx[..])
    {
      if |values| > frameLength {
        return Err("invalid argument dimensions. Must be between 1 and 32");
      }
      var i := 0;
      while i < |values|
        invariant 0 <= i <= |values|
        invariant forall k :: 0 <= k < i ==> rx[k] == Low8(values[k])
        invariant forall k :: i <= k < rx.Length ==> rx[k] == old(rx[k])
      {
        rx[i] := Low8(values[i]);
        i := i + 1;
      }
      r := Ok(());
    }
  }
}
