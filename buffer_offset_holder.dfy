/**
 * The cursor used while laying PDOs out in the process image: a byte offset
 * plus a bit offset inside that byte, and the bit position it may not pass.
 *
 * Java's `x >> 3` and `x & 7` on an int are floor division and the
 * non-negative remainder by 8, which are Dafny's `x / 8` and `x % 8`.
 */
module BufferOffset {
  import opened Wrappers

  /** A position in the process image. */
  datatype Offset = Offset(byteOffset: int, bitOffset: int)
  {
    /** The position counted in bits. */
    function Bits(): int { byteOffset * 8 + bitOffset }

    predicate Normal() { 0 <= bitOffset < 8 }
  }

  /**
   * The position `bytes` bytes and `bits` bits further on, with the bits
   * carried into bytes, unless it lies past `bitSize`.
   */
  function Increased(o: Offset, bytes: int, bits: int, bitSize: int): Option<Offset>
  {
    var newBit := o.bitOffset + bits;
    var newByte := o.byteOffset + bytes + newBit / 8;
    if newByte * 8 + newBit % 8 > bitSize then None
    else Some(Offset(newByte, newBit % 8))
  }

  /**
   * An advance succeeds exactly when the new position is within the limit; it
   * then moves the position by exactly bytes * 8 + bits and leaves the bit
   * offset inside a byte, whatever the signs and sizes of `bytes` and `bits`.
   */
  lemma IncreasedSpec(o: Offset, bytes: int, bits: int, bitSize: int)
    ensures var r := Increased(o, bytes, bits, bitSize);
      (r.Some? <==> o.Bits() + bytes * 8 + bits <= bitSize) &&
      (r.Some? ==> r.value.Normal() && r.value.Bits() == o.Bits() + bytes * 8 + bits)
  {
    var newBit := o.bitOffset + bits;
    assert newBit == (newBit / 8) * 8 + newBit % 8;
  }

  /**
   * The position moved to the start of the next byte when something of at
   * least one byte (`bytes` plus the whole bytes in `bits`) is about to be
   * placed and the position is inside a byte; otherwise the same position.
   */
  function Aligned(o: Offset, bytes: int, bits: int): Offset
  {
    if bytes + bits / 8 > 0 && o.bitOffset > 0 then Offset(o.byteOffset + 1, 0) else o
  }

  /**
   * Before something of at least one byte, a normal position ends up on the
   * first byte boundary at or after it; before anything smaller, or on a
   * boundary already, alignment changes nothing.
   */
  lemma AlignedSpec(o: Offset, bytes: int, bits: int)
    ensures var r := Aligned(o, bytes, bits);
      (bytes + bits / 8 <= 0 || o.bitOffset == 0 ==> r == o) &&
      (o.Normal() && bytes + bits / 8 > 0 ==>
         r.Normal() && r.bitOffset == 0 && o.Bits() <= r.Bits() < o.Bits() + 8)
  {
  }

  /** Where the constructor leaves the cursor: the start position, or 0:0 if it lies past the limit. */
  function StartOffset(byteOffset: int, bitOffset: int, bitSize: int): Offset
  {
    var r := Increased(Offset(0, 0), byteOffset, bitOffset, byteOffset * 8 + bitOffset + bitSize);
    if r.Some? then r.value else Offset(0, 0)
  }

  class BufferOffsetHolder {
    const bitSize: int
    var byteOffset: int
    var bitOffset: int

    function Current(): Offset reads this { Offset(byteOffset, bitOffset) }

    /** The bit offset stays inside a byte. */
    ghost predicate Valid() reads this { Current().Normal() }

    /** The limit is the start position plus `bitSize` bits; the cursor starts at the start position. */
    constructor (byteOffset: int, bitOffset: int, bitSize: int)
      ensures Valid()
      ensures this.bitSize == byteOffset * 8 + bitOffset + bitSize
      ensures Current() == StartOffset(byteOffset, bitOffset, bitSize)
    {
      this.bitSize := byteOffset * 8 + bitOffset + bitSize;
      this.byteOffset := 0;
      this.bitOffset := 0;
      new;
      var ok := Increase(byteOffset, bitOffset);
    }

    /** Advances by `bytes` bytes and `bits` bits if that stays within the limit; otherwise changes nothing. */
    method Increase(bytes: int, bits: int) returns (ok: bool)
      requires Valid()
      modifies this
      ensures Valid()
      ensures ok <==> old(Current()).Bits() + bytes * 8 + bits <= bitSize
      ensures ok ==> Current().Bits() == old(Current()).Bits() + bytes * 8 + bits
      ensures !ok ==> Current() == old(Current())
    {
      var newBitOffset := bitOffset + bits;
      var newByteOffset := byteOffset + bytes + newBitOffset / 8;
      newBitOffset := newBitOffset % 8;
      IncreasedSpec(Current(), bytes, bits, bitSize);
      if newByteOffset * 8 + newBitOffset > bitSize {
        ok := false;
      } else {
        bitOffset := newBitOffset;
        byteOffset := newByteOffset;
        ok := true;
      }
    }

    /** Moves to the next byte boundary before something of one byte or more; see Aligned. */
    method Align(bytes: int, bits: int)
      requires Valid()
      modifies this
      ensures Valid()
      ensures Current() == Aligned(old(Current()), bytes, bits)
    {
      AlignedSpec(Current(), bytes, bits);
      var b := bytes + bits / 8;
      if b > 0 && bitOffset > 0 {
        byteOffset := byteOffset + 1;
        bitOffset := 0;
      }
    }
  }

  /**
   * A holder started at any normal position with room for `n >= 0` bits
   * accepts an advance of k bits exactly when k <= n: the room is exactly n.
   */
  lemma StartCapacity(byteOffset: int, bitOffset: int, n: int, k: int)
    requires 0 <= bitOffset < 8 && n >= 0
    ensures StartOffset(byteOffset, bitOffset, n) == Offset(byteOffset, bitOffset)
    ensures Increased(Offset(byteOffset, bitOffset), 0, k, byteOffset * 8 + bitOffset + n).Some? <==> k <= n
  {
    IncreasedSpec(Offset(0, 0), byteOffset, bitOffset, byteOffset * 8 + bitOffset + n);
    IncreasedSpec(Offset(byteOffset, bitOffset), 0, k, byteOffset * 8 + bitOffset + n);
  }

  /** Replay of the unit test BufferOffsetHolderTest: the cursor trace from 0:0 with 128 bits, ending with a refused advance. */
  lemma IncreaseTrace()
    ensures var s := StartOffset(0, 0, 128);
      s == Offset(0, 0) &&
      Increased(s, 0, 4, 128) == Some(Offset(0, 4)) &&
      Increased(Offset(0, 4), 0, 4, 128) == Some(Offset(1, 0)) &&
      Increased(Offset(1, 0), 0, 4, 128) == Some(Offset(1, 4)) &&
      Increased(Offset(1, 4), 1, 6, 128) == Some(Offset(3, 2)) &&
      Increased(Offset(3, 2), 0, 6, 128) == Some(Offset(4, 0)) &&
      Increased(Offset(4, 0), 3, 7, 128) == Some(Offset(7, 7)) &&
      Increased(Offset(7, 7), 8, 2, 128) == None
  {
  }

  /** Replay of the unit test BufferOffsetHolderTest: a holder started at 12:5 with 128 bits takes 15 bytes 3 bits, then 1 bit, then 4 bits, and then nothing more. */
  lemma OffsetStartTrace()
    ensures var size := 12 * 8 + 5 + 128;
      StartOffset(12, 5, 128) == Offset(12, 5) &&
      Increased(Offset(12, 5), 15, 3, size) == Some(Offset(28, 0)) &&
      Increased(Offset(28, 0), 0, 1, size) == Some(Offset(28, 1)) &&
      Increased(Offset(28, 1), 0, 4, size) == Some(Offset(28, 5)) &&
      Increased(Offset(28, 5), 0, 1, size) == None
  {
  }

  /**
   * Replay of the alignment unit test in BufferOffsetHolderTest: aligning
   * before 3 bits does nothing; after those 3 bits, aligning before
   * one byte moves 0:3 to 1:0, and that byte ends at 2:0.
   */
  lemma AlignTrace()
    ensures var p := Increased(Aligned(Offset(0, 0), 0, 3), 0, 3, 128);
      p == Some(Offset(0, 3)) && Increased(Aligned(p.value, 1, 0), 1, 0, 128) == Some(Offset(2, 0))
  {
    assert Aligned(Offset(0, 0), 0, 3) == Offset(0, 0);
    assert Aligned(Offset(0, 3), 1, 0) == Offset(1, 0);
  }
}
