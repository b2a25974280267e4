/**
 * The CiA 402 drive state machine as DSP402Slave drives it: the statusword
 * is decoded to a drive state, the next command is chosen from that state,
 * and the command is written into the controlword next to the
 * manufacturer-specific bits.
 */
module Dsp402 {
  import opened Wrappers

  datatype StatusWord =
    NotReadyToSwitchOn | SwitchOnDisabled | ReadyToSwitchOn | SwitchedOn | OperationEnable | QuickStopActive | Fault

  datatype ControlWord =
    NoAction | Shutdown | SwitchOn | DisableVoltage | EnableOperation | QuickStop | DisableOp | FaultReset

  /** The mask applied to the statusword before decoding, as written. */
  const StatusWordMaskAsWritten: bv16 := 0x8F
  /** The bits the decoding table looks at: 0-3, 5 and 6. */
  const StatusWordMask: bv16 := 0x6F
  const ControlWordMfgBitsMask: bv16 := 0xFF70

  /** The table of (mask, value) rows, checked in order; no match means not ready to switch on. */
  function DecodeStatus(w: bv16): StatusWord
  {
    if w & 0x4F == 0x00 then NotReadyToSwitchOn
    else if w & 0x4F == 0x40 then SwitchOnDisabled
    else if w & 0x6F == 0x21 then ReadyToSwitchOn
    else if w & 0x6F == 0x23 then SwitchedOn
    else if w & 0x6F == 0x27 then OperationEnable
    else if w & 0x4F == 0x07 then QuickStopActive
    else if w & 0x4F == 0x08 then Fault
    else NotReadyToSwitchOn
  }

  /**
   * getStatus as written: masking with 0x8F clears bits 5 and 6 before the
   * table is consulted, so only three of the seven states can come out.
   */
  function GetStatusAsWritten(w: bv16): (s: StatusWord)
    ensures s == NotReadyToSwitchOn || s == QuickStopActive || s == Fault
    ensures s == QuickStopActive <==> w & 0x0F == 0x07
    ensures s == Fault <==> w & 0x0F == 0x08
  {
    DecodeStatus(w & StatusWordMaskAsWritten)
  }

  /** As written, "operation enabled" (0x27) reads as quick stop and "switch on disabled" (0x40) as not ready. */
  lemma GetStatusAsWrittenMisreads()
    ensures GetStatusAsWritten(0x27) == QuickStopActive
    ensures GetStatusAsWritten(0x40) == NotReadyToSwitchOn
    ensures GetStatusAsWritten(0x23) == NotReadyToSwitchOn
  {
  }

  /**
   * getStatus with the mask the table needs: each state is recognised
   * exactly by its CiA 402 bit pattern (bits 0-3, 5 and 6).
   */
  function GetStatus(w: bv16): (s: StatusWord)
    ensures s == SwitchOnDisabled <==> w & 0x4F == 0x40
    ensures s == ReadyToSwitchOn <==> w & 0x6F == 0x21
    ensures s == SwitchedOn <==> w & 0x6F == 0x23
    ensures s == OperationEnable <==> w & 0x6F == 0x27
    ensures s == QuickStopActive <==> w & 0x6F == 0x07
    ensures s == Fault <==> w & 0x4F == 0x08
  {
    DecodeStatus(w & StatusWordMask)
  }

  /** The command bits of each controlword command. */
  function CommandBits(c: ControlWord): bv16
  {
    match c
    case NoAction => 0x00
    case Shutdown => 0x06
    case SwitchOn => 0x07
    case DisableVoltage => 0x05
    case EnableOperation => 0x0F
    case QuickStop => 0x0B
    case DisableOp => 0x07
    case FaultReset => 0x80
  }

  /**
   * The controlword after a command: the manufacturer bits (0xFF70) of the
   * old word are kept and the remaining bits (0x008F) carry the command.
   */
  function SetControlWord(old_: bv16, c: ControlWord): (w: bv16)
    ensures w & ControlWordMfgBitsMask == old_ & ControlWordMfgBitsMask
    ensures w & 0x008F == CommandBits(c)
  {
    (old_ & ControlWordMfgBitsMask) | CommandBits(c)
  }

  /** The command and the enable flag after one step of doStateControl in drive state `s`. */
  datatype Step = Step(command: Option<ControlWord>, enableDrive: bool)

  function NextStep(s: StatusWord, command: Option<ControlWord>, enableDrive: bool): (r: Step)
    ensures r.enableDrive == (enableDrive && s != Fault)
    ensures r.command == None ==> command == None
    ensures s == NotReadyToSwitchOn || s == QuickStopActive ==> r == Step(command, enableDrive)
  {
    match s
    case NotReadyToSwitchOn => Step(command, enableDrive)
    case SwitchOnDisabled =>
      if command == Some(FaultReset) then Step(Some(NoAction), enableDrive)
      else if enableDrive then Step(Some(Shutdown), enableDrive)
      else Step(command, enableDrive)
    case ReadyToSwitchOn => Step(Some(SwitchOn), enableDrive)
    case SwitchedOn => Step(Some(if enableDrive then EnableOperation else DisableVoltage), enableDrive)
    case OperationEnable => if !enableDrive then Step(Some(DisableVoltage), enableDrive) else Step(command, enableDrive)
    case QuickStopActive => Step(command, enableDrive)
    case Fault => Step(Some(if command == Some(FaultReset) then NoAction else FaultReset), false)
  }

  /**
   * With the drive enabled and the status following the commands, the
   * commands walk the drive up the CiA 402 ladder: switch-on disabled ->
   * shutdown -> ready -> switch on -> switched on -> enable operation.
   */
  lemma EnableLadder(c: Option<ControlWord>)
    requires c != Some(FaultReset)
    ensures NextStep(SwitchOnDisabled, c, true).command == Some(Shutdown)
    ensures NextStep(ReadyToSwitchOn, c, true).command == Some(SwitchOn)
    ensures NextStep(SwitchedOn, c, true).command == Some(EnableOperation)
    ensures NextStep(OperationEnable, Some(EnableOperation), true).command == Some(EnableOperation)
  {
  }

  /**
   * A fault is answered by alternating fault-reset and no-action, so the
   * reset bit sees a rising edge; once the drive leaves the fault for
   * "switch on disabled" after a reset, the reset is withdrawn.
   */
  lemma FaultResetToggles(c: Option<ControlWord>, e: bool)
    ensures var s1 := NextStep(Fault, c, e); var s2 := NextStep(Fault, s1.command, s1.enableDrive);
      s1.command != s2.command && {s1.command, s2.command} == {Some(FaultReset), Some(NoAction)}
    ensures NextStep(SwitchOnDisabled, Some(FaultReset), e).command == Some(NoAction)
  {
  }

  /**
   * A drive the user has not enabled is never newly commanded to enable
   * operation: that command survives only in the states that keep the
   * previous command.
   */
  lemma DisabledNeverEnables(s: StatusWord, c: Option<ControlWord>)
    ensures NextStep(s, c, false).command == Some(EnableOperation) ==>
      c == Some(EnableOperation) && (s == NotReadyToSwitchOn || s == QuickStopActive || s == SwitchOnDisabled)
    ensures NextStep(s, c, false).command != Some(Shutdown) || c == Some(Shutdown)
  {
  }

  /**
   * The PDO-facing part of a DSP402 slave: the statusword it reads, the
   * controlword it writes, the last command and whether the user wants the
   * drive enabled. The statusword is decoded with the corrected mask.
   */
  class Dsp402Drive {
    var statusWord: bv16
    var controlWord: bv16
    var command: Option<ControlWord>
    var enableDrive: bool

    constructor ()
      ensures command == None && !enableDrive && statusWord == 0 && controlWord == 0
    {
      statusWord := 0;
      controlWord := 0;
      command := None;
      enableDrive := false;
    }

    function Status(): StatusWord reads this { GetStatus(statusWord) }

    /**
     * One step of the drive state machine; the controlword is written only
     * once there is a command.
     */
    method DoStateControl()
      modifies this
      ensures Step(command, enableDrive) == NextStep(old(Status()), old(command), old(enableDrive))
      ensures controlWord == if command.Some? then SetControlWord(old(controlWord), command.value) else old(controlWord)
      ensures statusWord == old(statusWord)
    {
      var next := NextStep(Status(), command, enableDrive);
      command := next.command;
      enableDrive := next.enableDrive;
      if command.Some? {
        controlWord := SetControlWord(controlWord, command.value);
      }
    }

    method SetEnableDrive(enable: bool)
      modifies this
      ensures enableDrive == enable
      ensures command == old(command) && statusWord == old(statusWord) && controlWord == old(controlWord)
    {
      enableDrive := enable;
    }

    predicate IsDriveOperational() reads this { Status() == OperationEnable }

    /** Ready: the slave is operational, the statusword is not zero and the drive is past "not ready". */
    predicate IsReady(slaveOperational: bool) reads this
    {
      slaveOperational && statusWord != 0 && Status() != NotReadyToSwitchOn
    }

    /** Disables the drive and runs one step of the state machine. */
    method Shutdown()
      modifies this
      ensures Step(command, enableDrive) == NextStep(old(Status()), old(command), false)
      ensures !enableDrive
      ensures controlWord == if command.Some? then SetControlWord(old(controlWord), command.value) else old(controlWord)
      ensures statusWord == old(statusWord)
    {
      SetEnableDrive(false);
      DoStateControl();
    }

    /** Shut down means: not in "operation enabled". */
    predicate HasShutdown() reads this { !IsDriveOperational() }
  }

  /** Once disabled, a drive in "operation enabled" is told to disable its voltage, and that command is sent. */
  lemma ShutdownLeavesOperation(c: Option<ControlWord>, old_: bv16)
    ensures NextStep(OperationEnable, c, false).command == Some(DisableVoltage)
    ensures SetControlWord(old_, DisableVoltage) & 0x008F == 0x05
  {
  }
}
