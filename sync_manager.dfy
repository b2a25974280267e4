/**
 * A sync manager of a slave (SyncManager in the wrapper package): the PDOs
 * registered on it, the direction they fix, their total size, their
 * placement in the process image and the SDO writes that assign them on the
 * slave.
 */
module SyncManagers {
  import opened Wrappers
  import JavaMath

  datatype Direction = TxPdo | RxPdo | Unknown

  /** A registered PDO: its object-dictionary address and its size in bytes. */
  datatype PdoEntry = PdoEntry(address: int, size: nat)

  /** One SDO download: object index, subindex, value and its width in bytes (the `writeSDO` overload). */
  datatype SdoWrite = SdoWrite(index: int, subIndex: int, value: int, width: nat)

  /** The widths of Java's `byte` and `short`. */
  const ByteWidth: nat := 1
  const ShortWidth: nat := 2

  /** The total size of a list of PDOs. */
  function SumSizes(pdos: seq<PdoEntry>): nat
  {
    if pdos == [] then 0 else SumSizes(pdos[..|pdos| - 1]) + pdos[|pdos| - 1].size
  }

  /** Sizes add up over concatenation. */
  lemma {:induction false} SumSizesAppend(a: seq<PdoEntry>, b: seq<PdoEntry>)
    ensures SumSizes(a + b) == SumSizes(a) + SumSizes(b)
  {
    if b != [] {
      assert (a + b)[..|a + b| - 1] == a + b[..|b| - 1];
      SumSizesAppend(a, b[..|b| - 1]);
    } else {
      assert a + b == a;
    }
  }

  /** Dropping PDOs from the end never makes the total larger. */
  lemma {:induction false} SumSizesPrefix(pdos: seq<PdoEntry>, k: nat)
    requires k <= |pdos|
    ensures SumSizes(pdos[..k]) <= SumSizes(pdos)
  {
    assert pdos == pdos[..k] + pdos[k..];
    SumSizesAppend(pdos[..k], pdos[k..]);
  }

  /** The PDO assignment object of sync manager `smIndex`. */
  function AssignmentIndex(smIndex: int): int { 0x1C10 + smIndex }

  /**
   * The full write sequence: the entry count set to 0 (which unlocks the
   * entries), each PDO address at subindex 1..n as a `short`, then the count
   * set to n as a `byte`.
   */
  function ConfigurePlan(smIndex: int, pdos: seq<PdoEntry>): (plan: seq<SdoWrite>)
    ensures |plan| == |pdos| + 2
    ensures plan[0] == SdoWrite(AssignmentIndex(smIndex), 0, 0, ByteWidth)
    ensures forall i :: 0 <= i < |pdos| ==>
      plan[i + 1] == SdoWrite(AssignmentIndex(smIndex), i + 1, JavaMath.ToInt16(pdos[i].address), ShortWidth)
    ensures plan[|pdos| + 1] == SdoWrite(AssignmentIndex(smIndex), 0, JavaMath.ToInt8(|pdos|), ByteWidth)
  {
    var idx := AssignmentIndex(smIndex);
    [SdoWrite(idx, 0, 0, ByteWidth)] +
    seq(|pdos|, i requires 0 <= i < |pdos| => SdoWrite(idx, i + 1, JavaMath.ToInt16(pdos[i].address), ShortWidth)) +
    [SdoWrite(idx, 0, JavaMath.ToInt8(|pdos|), ByteWidth)]
  }

  class SyncManager {
    const index: int
    const configurePdos: bool
    var pdos: seq<PdoEntry>
    var direction: Direction

    /** The direction is unset exactly while no PDO is registered. */
    ghost predicate Valid() reads this { direction == Unknown <==> pdos == [] }

    constructor (index: int, configurePdos: bool)
      ensures Valid()
      ensures this.index == index && this.configurePdos == configurePdos
      ensures pdos == [] && direction == Unknown
    {
      this.index := index;
      this.configurePdos := configurePdos;
      pdos := [];
      direction := Unknown;
    }

    /**
     * Registers an RxPDO: refused once a TxPDO is registered; otherwise the
     * direction becomes (or stays) RxPDO and the PDO is appended.
     */
    method RegisterRxPdo(pdo: PdoEntry) returns (ok: bool)
      requires Valid()
      modifies this
      ensures Valid()
      ensures ok <==> old(direction) != TxPdo
      ensures ok ==> direction == RxPdo && pdos == old(pdos) + [pdo]
      ensures !ok ==> direction == old(direction) && pdos == old(pdos)
    {
      match direction {
        case TxPdo =>
          return false;
        case Unknown =>
          direction := RxPdo;
          pdos := pdos + [pdo];
        case RxPdo =>
          pdos := pdos + [pdo];
      }
      ok := true;
    }

    /** Registers a TxPDO; the mirror image of RegisterRxPdo. */
    method RegisterTxPdo(pdo: PdoEntry) returns (ok: bool)
      requires Valid()
      modifies this
      ensures Valid()
      ensures ok <==> old(direction) != RxPdo
      ensures ok ==> direction == TxPdo && pdos == old(pdos) + [pdo]
      ensures !ok ==> direction == old(direction) && pdos == old(pdos)
    {
      match direction {
        case RxPdo =>
          return false;
        case Unknown =>
          direction := TxPdo;
          pdos := pdos + [pdo];
        case TxPdo =>
          pdos := pdos + [pdo];
      }
      ok := true;
    }

    /** The total size in bytes of the registered PDOs. */
    method ProcessDataSize() returns (size: nat)
      ensures size == SumSizes(pdos)
    {
      size := 0;
      var i := 0;
      while i < |pdos|
        invariant 0 <= i <= |pdos|
        invariant size == SumSizes(pdos[..i])
      {
        assert pdos[..i + 1][..i] == pdos[..i];
        size := size + pdos[i].size;
        i := i + 1;
      }
      assert pdos[..i] == pdos;
    }

    /**
     * Binds the PDOs one after the other from byte `start`: PDO i at `start`
     * plus the sizes of the PDOs before it. Returns the binding of each PDO
     * and the offset for the next sync manager, `start` plus the total size.
     */
    method LinkBuffers(start: int) returns (bindings: seq<int>, next: int)
      ensures |bindings| == |pdos|
      ensures forall i :: 0 <= i < |pdos| ==> bindings[i] == start + SumSizes(pdos[..i])
      ensures next == start + SumSizes(pdos)
    {
      bindings := [];
      next := start;
      var i := 0;
      while i < |pdos|
        invariant 0 <= i <= |pdos|
        invariant |bindings| == i
        invariant forall k :: 0 <= k < i ==> bindings[k] == start + SumSizes(pdos[..k])
        invariant next == start + SumSizes(pdos[..i])
      {
        assert pdos[..i + 1][..i] == pdos[..i];
        bindings := bindings + [next];
        next := next + pdos[i].size;
        i := i + 1;
      }
      assert pdos[..i] == pdos;
    }

    /**
     * Writes the PDO assignment, stopping at the first write whose working
     * counter `wkc(k)` is 0, which is then reported as a configuration error.
     * Nothing is written when PDO configuration is off.
     */
    method Configure(wkc: nat -> int) returns (log: seq<SdoWrite>, error: bool)
      ensures !configurePdos ==> log == [] && !error
      ensures configurePdos ==>
        var plan := ConfigurePlan(index, pdos);
        1 <= |log| <= |plan| && log == plan[..|log|] &&
        (forall k :: 0 <= k < |log| - 1 ==> wkc(k) != 0) &&
        (error <==> wkc(|log| - 1) == 0) &&
        (!error ==> |log| == |plan|)
    {
      log := [];
      error := false;
      if !configurePdos {
        return;
      }
      ghost var plan := ConfigurePlan(index, pdos);
      var idx := AssignmentIndex(index);
      log := [SdoWrite(idx, 0, 0, ByteWidth)];
      if wkc(0) == 0 {
        error := true;
        return;
      }
      var i := 0;
      while i < |pdos|
        invariant 0 <= i <= |pdos|
        invariant |log| == i + 1 && log == plan[..i + 1]
        invariant forall k :: 0 <= k < |log| ==> wkc(k) != 0
      {
        log := log + [SdoWrite(idx, i + 1, JavaMath.ToInt16(pdos[i].address), ShortWidth)];
        if wkc(i + 1) == 0 {
          error := true;
          return;
        }
        i := i + 1;
      }
      log := log + [SdoWrite(idx, 0, JavaMath.ToInt8(|pdos|), ByteWidth)];
      error := wkc(|pdos| + 1) == 0;
    }
  }
}
