/**
 * Asynchronous SDO transfers of the master package (SDO and ReadSDO): a
 * request is queued by the user, carried out by the master's state machine
 * on a later tick, and its data is readable only once the transfer succeeded.
 *
 * The transfer itself is not modelled as code: the working counter it
 * returned and the bytes it left in the buffer are parameters.
 */
module MasterSdo {
  import opened Wrappers
  import JavaMath

  /** 256^n, the number of values n bytes can hold. */
  function ByteRange(n: nat): (r: nat)
    ensures r >= 1
  {
    if n == 0 then 1 else 256 * ByteRange(n - 1)
  }

  /** The unsigned value of bytes in little-endian order. */
  function LittleEndian(bs: seq<bv8>): (r: nat)
    ensures r < ByteRange(|bs|)
  {
    if bs == [] then 0 else bs[0] as nat + 256 * LittleEndian(bs[1..])
  }

  /** getUnsignedInt: `x & 0xFFFFFFFFL` on the sign-extended int, which is x modulo 2^32. */
  function UnsignedInt(x: int): (r: nat)
    ensures r < 0x1_0000_0000
    ensures (r - x) % 0x1_0000_0000 == 0
    ensures 0 <= x < 0x1_0000_0000 ==> r == x
    ensures -0x1_0000_0000 <= x < 0 ==> r == x + 0x1_0000_0000
  {
    x % 0x1_0000_0000
  }

  /** getUnsignedShort: `x & 0xFFFF`, which is x modulo 2^16. */
  function UnsignedShort(x: int): (r: nat)
    ensures r < 0x1_0000
    ensures (r - x) % 0x1_0000 == 0
    ensures 0 <= x < 0x1_0000 ==> r == x
    ensures -0x1_0000 <= x < 0 ==> r == x + 0x1_0000
  {
    x % 0x1_0000
  }

  /** getUnsignedByte: `x & 0xFF`, which is x modulo 2^8. */
  function UnsignedByte(x: int): (r: nat)
    ensures r < 0x100
    ensures (r - x) % 0x100 == 0
    ensures 0 <= x < 0x100 ==> r == x
    ensures -0x100 <= x < 0 ==> r == x + 0x100
  {
    x % 0x100
  }

  /** getUnsignedInt after getInt: the 4 bytes read back as an unsigned number. */
  lemma UnsignedIntRoundTrip(bs: seq<bv8>)
    requires |bs| == 4
    ensures UnsignedInt(JavaMath.ToInt32(LittleEndian(bs))) == LittleEndian(bs)
  {
    assert ByteRange(4) == 0x1_0000_0000;
  }

  /** getUnsignedShort after getShort: the 2 bytes read back as an unsigned number. */
  lemma UnsignedShortRoundTrip(bs: seq<bv8>)
    requires |bs| == 2
    ensures UnsignedShort(JavaMath.ToInt16(LittleEndian(bs))) == LittleEndian(bs)
  {
    assert ByteRange(2) == 0x1_0000;
  }

  /** getUnsignedByte after getByte: the byte itself. */
  lemma UnsignedByteRoundTrip(b: bv8)
    ensures UnsignedByte(JavaMath.ToInt8(LittleEndian([b]))) == b as nat
  {
    assert LittleEndian([b]) == b as nat + 256 * LittleEndian([]);
  }

  /**
   * The request flags shared by every SDO. `send`: a transfer is queued and
   * not yet successful; `valid`: the last queued transfer succeeded and no
   * new one has been queued since.
   */
  class Sdo {
    const slaveId: nat
    const index: int
    const subIndex: int
    const size: nat
    var send: bool
    var valid: bool

    ghost predicate Valid() reads this { !(send && valid) }

    constructor (slaveId: nat, index: int, subIndex: int, size: nat)
      ensures Valid()
      ensures this.slaveId == slaveId && this.index == index && this.subIndex == subIndex && this.size == size
      ensures !send && !valid
    {
      this.slaveId := slaveId;
      this.index := index;
      this.subIndex := subIndex;
      this.size := size;
      send := false;
      valid := false;
    }

    /** Queues a transfer; refused, changing nothing, while one is pending. */
    method Queue() returns (ok: bool)
      requires Valid()
      modifies this
      ensures Valid()
      ensures ok <==> !old(send)
      ensures ok ==> send && !valid
      ensures !ok ==> send == old(send) && valid == old(valid)
    {
      if send {
        return false;
      }
      send := true;
      valid := false;
      ok := true;
    }

    function IsValid(): bool reads this { valid }

    /**
     * One tick of the master: with a transfer pending it is attempted and
     * true is returned; it completes when the working counter `sendResult` is
     * positive and otherwise stays pending. With nothing pending, false.
     */
    method Update(sendResult: int) returns (transacted: bool)
      requires Valid()
      modifies this
      ensures Valid()
      ensures transacted <==> old(send)
      ensures old(send) && sendResult > 0 ==> !send && valid
      ensures !(old(send) && sendResult > 0) ==> send == old(send) && valid == old(valid)
    {
      if send {
        if sendResult > 0 {
          send := false;
          valid := true;
        }
        return true;
      }
      transacted := false;
    }
  }

  /** An SDO read: its request flags and the buffer the transfer fills. */
  class ReadSdo {
    const sdo: Sdo
    var buffer: seq<bv8>

    ghost predicate Valid() reads this, sdo { sdo.Valid() && |buffer| == sdo.size }

    constructor (slaveId: nat, index: int, subIndex: int, size: nat)
      ensures Valid() && fresh(sdo)
      ensures sdo.slaveId == slaveId && sdo.index == index && sdo.subIndex == subIndex && sdo.size == size
      ensures !sdo.send && !sdo.valid
    {
      sdo := new Sdo(slaveId, index, subIndex, size);
      buffer := seq(size, _ => 0);
    }

    /** requestNewData is exactly Queue. */
    method RequestNewData() returns (ok: bool)
      requires Valid()
      modifies sdo
      ensures Valid()
      ensures ok <==> !old(sdo.send)
      ensures ok ==> sdo.send && !sdo.valid
      ensures !ok ==> sdo.send == old(sdo.send) && sdo.valid == old(sdo.valid)
    {
      ok := sdo.Queue();
    }

    /**
     * One tick: with a read pending, the transfer runs, leaving `received` in
     * the buffer and returning working counter `wkc`; see Sdo.Update.
     */
    method Update(wkc: int, received: seq<bv8>) returns (transacted: bool)
      requires Valid() && |received| == sdo.size
      modifies this, sdo
      ensures Valid()
      ensures transacted <==> old(sdo.send)
      ensures buffer == if old(sdo.send) then received else old(buffer)
      ensures old(sdo.send) && wkc > 0 ==> !sdo.send && sdo.valid
      ensures !(old(sdo.send) && wkc > 0) ==> sdo.send == old(sdo.send) && sdo.valid == old(sdo.valid)
    {
      if sdo.send {
        buffer := received;
      }
      transacted := sdo.Update(wkc);
    }

    /** The buffer, or an error unless the last read succeeded. */
    method GetData() returns (r: Result<seq<bv8>>)
      ensures r.Ok? <==> sdo.valid
      ensures r.Ok? ==> r.value == buffer
    {
      if !sdo.IsValid() {
        return Err("No new SDO data available. Please only call when valid() is true");
      }
      r := Ok(buffer);
    }

    /**
     * The first `n` bytes as an unsigned little-endian number, masked to
     * n bytes: an error unless the data is valid and holds n bytes.
     */
    method GetUnsigned(n: nat) returns (r: Result<nat>)
      requires n == 1 || n == 2 || n == 4
      ensures r.Ok? <==> sdo.valid && n <= |buffer|
      ensures r.Ok? ==> r.value < ByteRange(n) && r.value == LittleEndian(buffer[..n])
    {
      var d := GetData();
      if d.Err? || |d.value| < n {
        return Err("No new SDO data available");
      }
      var raw := LittleEndian(d.value[..n]);
      if n == 4 {
        UnsignedIntRoundTrip(d.value[..n]);
        r := Ok(UnsignedInt(JavaMath.ToInt32(raw)));
      } else if n == 2 {
        UnsignedShortRoundTrip(d.value[..n]);
        r := Ok(UnsignedShort(JavaMath.ToInt16(raw)));
      } else {
        assert d.value[..n] == [d.value[0]];
        UnsignedByteRoundTrip(d.value[0]);
        r := Ok(UnsignedByte(JavaMath.ToInt8(raw)));
      }
    }
  }
}
