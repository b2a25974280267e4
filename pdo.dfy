/**
 * Linking a PDO into the process image (PDO.linkBuffer): the PDO's size is
 * worked out from its struct layout, the shared cursor is aligned, the PDO is
 * bound at the cursor, and the cursor is advanced past it.
 *
 * The struct layout itself (length, word size and bits used of the Javolution
 * struct) is taken as given.
 */
module Pdo {
  import opened Wrappers
  import opened BufferOffset

  /** The whole bytes and the leftover bits a PDO occupies. */
  datatype PdoSize = PdoSize(bytes: int, bits: int)

  /**
   * The size from the struct layout: the struct length minus its last word,
   * plus the whole bytes of the bits used in that word; the leftover bits are
   * the bits used modulo 8.
   */
  function SizeOf(length: int, wordSize: int, bitsUsed: int): (s: PdoSize)
    ensures 0 <= s.bits < 8
    ensures s.bytes * 8 + s.bits == (length - wordSize) * 8 + bitsUsed
  {
    PdoSize(length - wordSize + bitsUsed / 8, bitsUsed % 8)
  }

  /** Where the PDO is bound: the cursor after alignment. */
  function PlaceOf(o: Offset, size: PdoSize): Offset
  {
    Aligned(o, size.bytes, size.bits)
  }

  /**
   * A PDO of at least one byte never starts inside a byte; it is bound at
   * or after the cursor, less than one byte further on; the cursor then
   * advances by exactly its size, or linking fails when that would pass the
   * limit.
   */
  lemma {:induction false} LinkSpec(o: Offset, size: PdoSize, bitSize: int)
    requires o.Normal()
    ensures var at := PlaceOf(o, size);
      var next := Increased(at, size.bytes, size.bits, bitSize);
      at.Normal() &&
      (size.bytes + size.bits / 8 > 0 ==> at.bitOffset == 0) &&
      o.Bits() <= at.Bits() < o.Bits() + 8 &&
      (next.Some? <==> at.Bits() + size.bytes * 8 + size.bits <= bitSize) &&
      (next.Some? ==> next.value.Normal() && next.value.Bits() == at.Bits() + size.bytes * 8 + size.bits)
  {
    AlignedSpec(o, size.bytes, size.bits);
    IncreasedSpec(PlaceOf(o, size), size.bytes, size.bits, bitSize);
  }

  class Pdo {
    const address: int
    const size: PdoSize
    /** Where the PDO is bound in the process image, once linked. */
    var binding: Option<Offset>

    constructor (address: int, length: int, wordSize: int, bitsUsed: int)
      ensures this.address == address && size == SizeOf(length, wordSize, bitsUsed) && binding == None
    {
      this.address := address;
      this.size := SizeOf(length, wordSize, bitsUsed);
      this.binding := None;
    }

    /**
     * Aligns the cursor, binds this PDO there and advances the cursor past
     * it. When the cursor cannot advance, the PDO stays bound and the
     * cursor stays aligned but does not move on, and the result is an error.
     */
    method LinkBuffer(holder: BufferOffsetHolder) returns (r: Result<Offset>)
      requires holder.Valid()
      modifies this, holder
      ensures holder.Valid()
      ensures var at := PlaceOf(old(holder.Current()), size);
        var next := Increased(at, size.bytes, size.bits, holder.bitSize);
        binding == Some(at) &&
        (r.Ok? <==> next.Some?) &&
        (r.Ok? ==> r.value == at && holder.Current() == next.value) &&
        (r.Err? ==> holder.Current() == at)
    {
      holder.Align(size.bytes, size.bits);
      binding := Some(holder.Current());
      var ok := holder.Increase(size.bytes, size.bits);
      IncreasedSpec(PlaceOf(old(holder.Current()), size), size.bytes, size.bits, holder.bitSize);
      if !ok {
        return Err("Not enough space available to allocate PDO");
      }
      r := Ok(binding.value);
    }
  }

  /**
   * Replay of the unit test PDOTest: five PDOs linked from byte 12 with 128
   * bits of room. Three 4-bit PDOs share bytes 12 and 13, a 4-byte PDO skips
   * the second half of byte 13 and starts at byte 14, and the last 4-bit PDO
   * lands at byte 18.
   */
  lemma LinkTrace()
    ensures var bitPdo, intPdo := PdoSize(0, 4), PdoSize(4, 0);
      var size := 12 * 8 + 128;
      StartOffset(12, 0, 128) == Offset(12, 0) &&
      PlaceOf(Offset(12, 0), bitPdo) == Offset(12, 0) &&
      Increased(Offset(12, 0), 0, 4, size) == Some(Offset(12, 4)) &&
      PlaceOf(Offset(12, 4), bitPdo) == Offset(12, 4) &&
      Increased(Offset(12, 4), 0, 4, size) == Some(Offset(13, 0)) &&
      PlaceOf(Offset(13, 0), bitPdo) == Offset(13, 0) &&
      Increased(Offset(13, 0), 0, 4, size) == Some(Offset(13, 4)) &&
      PlaceOf(Offset(13, 4), intPdo) == Offset(14, 0) &&
      Increased(Offset(14, 0), 4, 0, size) == Some(Offset(18, 0)) &&
      PlaceOf(Offset(18, 0), bitPdo) == Offset(18, 0)
  {
    assert PlaceOf(Offset(13, 4), PdoSize(4, 0)) == Offset(14, 0);
  }
}
