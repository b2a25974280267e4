/**
 * The Elmo Twitter on the TCB carrier (ElmoTwitterTCB): six digital outputs
 * kept in a Java long, bits 16 to 21, copied to an Unsigned32 RxPDO entry;
 * and a latch that records that the drive has once reached "operation
 * enabled".
 *
 * The long is a `bv64` and the PDO entry a `bv32`. The drive state machine
 * underneath is the one of Dsp402.Dsp402Drive; the intermediate ElmoTwitter
 * class is not part of this model, and its state control is taken to be the
 * DSP402 one it inherits.
 */
module ElmoTwitterTcb {
  import opened Wrappers
  import opened Dsp402

  /** The bits the six outputs occupy: 16 to 21. */
  const OutputBits: bv64 := 0x3F_0000
  /** The mask the clearing branch XORs the output bit with: the low 32 bits. */
  const Low32Mask: bv64 := 0xFFFF_FFFF

  /** The bit of output `output`, `1 << (16 + output)`, listed per output. */
  function OutputMask(output: bv64): bv64
    requires output <= 5
  {
    match output
    case 0 => 0x1_0000
    case 1 => 0x2_0000
    case 2 => 0x4_0000
    case 3 => 0x8_0000
    case 4 => 0x10_0000
    case _ => 0x20_0000
  }

  /** The listed masks are the shifts the source computes. */
  lemma OutputMaskIsShift(output: bv64)
    requires output <= 5
    ensures OutputMask(output) == 1 << (16 + output)
  {
  }

  /**
   * The bit string after setDigitalOutput: or-ing the output bit in, or
   * and-ing with the output bit XOR 0xFFFFFFFF.
   */
  function WithOutput(v: bv64, output: bv64, value: bool): bv64
    requires output <= 5
  {
    if value then v | OutputMask(output) else v & (OutputMask(output) ^ Low32Mask)
  }

  /** Setting an output sets its bit. */
  lemma OutputBitSet(v: bv64, output: bv64)
    requires output <= 5
    ensures WithOutput(v, output, true) & OutputMask(output) == OutputMask(output)
  {
    SetFacts(v, OutputMask(output));
  }

  /** Clearing an output clears its bit. */
  lemma OutputBitCleared(v: bv64, output: bv64)
    requires output <= 5
    ensures WithOutput(v, output, false) & OutputMask(output) == 0
  {
    var m := OutputMask(output);
    OutputMaskInRange(output);
    ClearMask(m);
    ClearFacts(v, m);
  }

  /** Setting an output changes no other bit. */
  lemma SetLeavesOthers(v: bv64, output: bv64)
    requires output <= 5
    ensures WithOutput(v, output, true) & !OutputMask(output) == v & !OutputMask(output)
  {
    SetFacts(v, OutputMask(output));
  }

  /** Clearing an output also clears the upper 32 bits, and changes no other bit. */
  lemma ClearLeavesOthers(v: bv64, output: bv64)
    requires output <= 5
    ensures WithOutput(v, output, false) & !OutputMask(output) == v & Low32Mask & !OutputMask(output)
  {
    var m := OutputMask(output);
    OutputMaskInRange(output);
    ClearMask(m);
    ClearFacts(v, m);
  }

  /** Or-ing in a mask sets its bits and leaves the others. */
  lemma SetFacts(v: bv64, m: bv64)
    ensures (v | m) & m == m && (v | m) & !m == v & !m
  {
  }

  /** Inside the low 32 bits, XOR with 0xFFFFFFFF is the low-32 complement. */
  lemma ClearMask(m: bv64)
    requires m & Low32Mask == m
    ensures m ^ Low32Mask == Low32Mask & !m
  {
  }

  /** And-ing with the low-32 complement of a mask clears its bits and the upper 32 bits. */
  lemma ClearFacts(v: bv64, m: bv64)
    ensures (v & (Low32Mask & !m)) & m == 0
    ensures (v & (Low32Mask & !m)) & !m == v & Low32Mask & !m
  {
  }

  /** The mask of every output lies in the output bits, and hence in the low 32 bits. */
  lemma OutputMaskInRange(output: bv64)
    requires output <= 5
    ensures OutputMask(output) & OutputBits == OutputMask(output)
    ensures OutputMask(output) & Low32Mask == OutputMask(output)
  {
  }

  /** A bit string inside the output bits lies inside the low 32 bits. */
  lemma InsideLow32(v: bv64)
    requires v & !OutputBits == 0
    ensures v & Low32Mask == v
  {
  }

  /**
   * A word that agrees with `v` outside a mask of the output bits, and has
   * at most the mask inside it, stays inside the output bits.
   */
  lemma StaysInOutputBits(v: bv64, r: bv64, m: bv64)
    requires v & !OutputBits == 0 && m & OutputBits == m
    requires r & !m == v & !m
    requires r & m == m || r & m == 0
    ensures r & !OutputBits == 0
  {
  }

  /**
   * On a bit string that only uses the output bits, the 32-bit truncation
   * of the clearing branch loses nothing: every bit but the written one is
   * unchanged.
   */
  lemma WithOutputKeepsOthers(v: bv64, output: bv64, value: bool)
    requires output <= 5 && v & !OutputBits == 0
    ensures WithOutput(v, output, value) & !OutputMask(output) == v & !OutputMask(output)
  {
    if value {
      SetLeavesOthers(v, output);
    } else {
      ClearLeavesOthers(v, output);
      InsideLow32(v);
    }
  }

  /** A bit string that only uses the output bits keeps doing so. */
  lemma WithOutputKeepsOutputBits(v: bv64, output: bv64, value: bool)
    requires output <= 5 && v & !OutputBits == 0
    ensures WithOutput(v, output, value) & !OutputBits == 0
  {
    OutputMaskInRange(output);
    WithOutputKeepsOthers(v, output, value);
    if value {
      OutputBitSet(v, output);
    } else {
      OutputBitCleared(v, output);
    }
    StaysInOutputBits(v, WithOutput(v, output, value), OutputMask(output));
  }

  /** hasBeenEnabled after a state-control tick in which the drive reads as `status`. */
  function Latch(hasBeenEnabled: bool, status: StatusWord): (r: bool)
    ensures hasBeenEnabled ==> r
    ensures r <==> hasBeenEnabled || status == OperationEnable
  {
    if !hasBeenEnabled then status == OperationEnable else true
  }

  /** Once latched, no sequence of statuses resets the latch. */
  lemma {:induction false} LatchNeverResets(hasBeenEnabled: bool, statuses: seq<StatusWord>)
    ensures LatchAll(hasBeenEnabled, statuses) <==> hasBeenEnabled || OperationEnable in statuses
    decreases |statuses|
  {
    if |statuses| > 0 {
      LatchNeverResets(Latch(hasBeenEnabled, statuses[0]), statuses[1..]);
      assert statuses == [statuses[0]] + statuses[1..];
    }
  }

  /** The latch after a run of state-control ticks. */
  function LatchAll(hasBeenEnabled: bool, statuses: seq<StatusWord>): bool
    decreases |statuses|
  {
    if |statuses| == 0 then hasBeenEnabled else LatchAll(Latch(hasBeenEnabled, statuses[0]), statuses[1..])
  }

  class ElmoTwitterTcb {
    const drive: Dsp402Drive
    var digitalOutputBitString: bv64
    /** The Unsigned32 digital outputs entry of RxPDO 0x1606. */
    var digitalOutputs: bv32
    var hasBeenEnabled: bool

    /** Only the six output bits are ever set. */
    ghost predicate Valid() reads this
    {
      digitalOutputBitString & !OutputBits == 0
    }

    constructor ()
      ensures Valid() && fresh(drive)
      ensures digitalOutputBitString == 0 && digitalOutputs == 0 && !hasBeenEnabled
      ensures drive.command == None && !drive.enableDrive
    {
      drive := new Dsp402Drive();
      digitalOutputBitString := 0;
      digitalOutputs := 0;
      hasBeenEnabled := false;
    }

    /**
     * Sets or clears output 0..5 and writes the bit string to the PDO; any
     * other output is refused and nothing changes.
     */
    method SetDigitalOutput(output: int, value: bool) returns (ok: bool)
      requires Valid()
      modifies this
      ensures Valid()
      ensures ok <==> 0 <= output <= 5
      ensures ok ==> digitalOutputBitString == WithOutput(old(digitalOutputBitString), output as bv64, value)
      ensures ok ==> digitalOutputs as bv64 == digitalOutputBitString
      ensures !ok ==> digitalOutputBitString == old(digitalOutputBitString) && digitalOutputs == old(digitalOutputs)
      ensures hasBeenEnabled == old(hasBeenEnabled)
    {
      if output < 0 || output > 5 {
        return false;
      }
      var o: bv64 := output as bv64;
      WithOutputKeepsOutputBits(digitalOutputBitString, o, value);
      digitalOutputBitString := WithOutput(digitalOutputBitString, o, value);
      digitalOutputs := (digitalOutputBitString & Low32Mask) as bv32;
      ok := true;
    }

    /** Latches hasBeenEnabled from the drive's status, then runs the DSP402 state control. */
    method DoStateControl()
      modifies this, drive
      ensures hasBeenEnabled == Latch(old(hasBeenEnabled), old(drive.Status()))
      ensures Step(drive.command, drive.enableDrive) == NextStep(old(drive.Status()), old(drive.command), old(drive.enableDrive))
      ensures drive.controlWord == if drive.command.Some? then SetControlWord(old(drive.controlWord), drive.command.value) else old(drive.controlWord)
      ensures digitalOutputBitString == old(digitalOutputBitString) && digitalOutputs == old(digitalOutputs)
      ensures drive.statusWord == old(drive.statusWord)
    {
      if !hasBeenEnabled {
        hasBeenEnabled := drive.Status() == OperationEnable;
      }
      drive.DoStateControl();
    }
  }
}
