/**
 * The householding state machine (EtherCATStateMachine): read the slave
 * states, wait for the master's jitter to settle, run each slave's state
 * control in turn, then watch the working counter and service the SDOs
 * round-robin.
 *
 * What the master and SOEM report (the lowest AL state, DC settings, jitter,
 * working counters) is an observation passed in; for the SDO round-robin,
 * `pending[k]` is what the k-th registered SDO's update() returns, which is
 * whether it had a send pending (MasterSdo.Sdo.Update).
 */
module EtherCatStateMachine {
  import opened Wrappers
  import opened RoundRobin

  const MinimumJitterSamples: int := 1000
  /** SOEM's EC_STATE_OPERATIONAL. */
  const AlStateOperational: int := 8

  datatype MachineState = Read | WaitForMaster | SlaveStep(i: nat) | CheckForLost | Final

  /** The slave chain: slave i hands over to slave i + 1, the last slave to Read. */
  function Successor(i: nat, slaveCount: nat): MachineState
  {
    if i + 1 < slaveCount then SlaveStep(i + 1) else Read
  }

  /** Where the chain is entered: the first slave, or Read directly when there are none. */
  function ChainEntry(slaveCount: nat): MachineState
  {
    if slaveCount == 0 then Read else SlaveStep(0)
  }

  /** The state reached after running k slave steps from the chain entry. */
  function Walk(slaveCount: nat, k: nat): MachineState
  {
    if k == 0 then ChainEntry(slaveCount)
    else match Walk(slaveCount, k - 1)
      case SlaveStep(i) => Successor(i, slaveCount)
      case s => s
  }

  /** The chain runs every slave once, in bus order, and then returns to Read. */
  lemma {:induction false} ChainVisitsEverySlave(slaveCount: nat, k: nat)
    requires k <= slaveCount
    ensures Walk(slaveCount, k) == if k < slaveCount then SlaveStep(k) else Read
  {
    if k > 0 {
      ChainVisitsEverySlave(slaveCount, k - 1);
    }
  }

  /** What the master and SOEM report during one tick. */
  datatype Observation = Observation(
    lowestAlState: int,
    dcEnabled: bool,
    jitterSamples: int,
    jitterEstimate: int,
    maximumJitter: int,
    expectedWkc: int,
    actualWkc: int)

  /** What a tick does besides moving the machine. */
  datatype Action = ReadSlaveStates | Wait | SlaveControl(slave: nat) | SdoTransfer

  /** The result of servicing SDOs: the new index and the SDO that transacted, if any. */
  datatype Scan = Scan(current: nat, found: Option<nat>)

  /**
   * doSDOTransfer over `attempts` more SDOs: step the index, stop at the first
   * SDO that transacts.
   */
  function ScanFrom(current: nat, pending: seq<bool>, attempts: nat): Scan
    decreases attempts
  {
    if attempts == 0 || |pending| == 0 then Scan(current, None)
    else
      var k := StepIndex(current, |pending|);
      if pending[k] then Scan(k, Some(k)) else ScanFrom(k, pending, attempts - 1)
  }

  /**
   * What a scan of `attempts` steps finds: a transacting SDO that is the
   * new index, with none transacting in the steps before it; or nothing,
   * having stepped over `attempts` SDOs that do not transact.
   */
  lemma {:induction false} ScanSpec(current: nat, pending: seq<bool>, attempts: nat)
    requires |pending| > 0
    ensures attempts > 0 ==> ScanFrom(current, pending, attempts).current < |pending|
    ensures var r := ScanFrom(current, pending, attempts);
      r.found.Some? ==> r.found.value == r.current && pending[r.current]
    ensures ScanFrom(current, pending, attempts).found.Some? ==>
      exists d: nat :: FirstFound(current, pending, d, ScanFrom(current, pending, attempts).current) && d <= attempts
    ensures var r := ScanFrom(current, pending, attempts);
      r.found.None? ==>
        r.current == Cycle(current, attempts, |pending|) &&
        forall j :: 1 <= j <= attempts ==> !pending[Cycle(current, j, |pending|)]
    decreases attempts
  {
    var n := |pending|;
    if attempts > 0 {
      var k := StepIndex(current, n);
      assert k == Cycle(current, 1, n);
      if pending[k] {
        assert FirstFound(current, pending, 1, k);
      } else {
        ScanSpec(k, pending, attempts - 1);
        ShiftCycle(current, n, attempts);
        var r := ScanFrom(k, pending, attempts - 1);
        if r.found.Some? {
          var d: nat :| FirstFound(k, pending, d, r.current) && d <= attempts - 1;
          assert Cycle(current, d + 1, n) == r.current;
          forall j | 1 <= j < d + 1 ensures !pending[Cycle(current, j, n)] {
            if j > 1 {
              assert Cycle(current, j, n) == Cycle(k, j - 1, n);
            }
          }
          assert FirstFound(current, pending, d + 1, r.current);
        } else {
          forall j | 1 <= j <= attempts ensures !pending[Cycle(current, j, n)] {
            if j > 1 {
              assert Cycle(current, j, n) == Cycle(k, j - 1, n);
            }
          }
        }
      }
    }
  }

  /** After d steps from `current` the index is `at`, and no SDO stepped over before it transacts. */
  predicate FirstFound(current: nat, pending: seq<bool>, d: nat, at: nat)
  {
    1 <= d && Cycle(current, d, |pending|) == at &&
    forall j :: 1 <= j < d ==> Cycle(current, j, |pending|) < |pending| && !pending[Cycle(current, j, |pending|)]
  }

  /** A full pass that finds nothing means no SDO had anything to send. */
  lemma FullScanMissesNothing(current: nat, pending: seq<bool>)
    requires |pending| > 0
    ensures ScanFrom(current, pending, |pending|).found.None? ==> forall k :: 0 <= k < |pending| ==> !pending[k]
  {
    ScanSpec(current, pending, |pending|);
    if ScanFrom(current, pending, |pending|).found.None? {
      forall k | 0 <= k < |pending| ensures !pending[k] {
        CycleCovers(current, |pending|, k);
      }
    }
  }

  /**
   * One tick: the next state and what the tick does. `previousWkc` is
   * Final's record of the working counter it saw last.
   */
  function Transition(s: MachineState, slaveCount: nat, recoveryDisabled: bool, previousWkc: int, o: Observation)
    : (MachineState, Action)
  {
    match s
    case Read =>
      (if o.lowestAlState == AlStateOperational then (if recoveryDisabled then Final else CheckForLost) else WaitForMaster,
       ReadSlaveStates)
    case WaitForMaster =>
      if !o.dcEnabled then (ChainEntry(slaveCount), Wait)
      else if o.jitterSamples < MinimumJitterSamples then (WaitForMaster, Wait)
      else if o.jitterEstimate == 0 || o.jitterEstimate > o.maximumJitter then (WaitForMaster, Wait)
      else (ChainEntry(slaveCount), Wait)
    case SlaveStep(i) => (Successor(i, slaveCount), SlaveControl(i))
    case CheckForLost =>
      if o.expectedWkc != o.actualWkc then (Read, Wait) else (CheckForLost, SdoTransfer)
    case Final =>
      (Final, if o.actualWkc != o.expectedWkc && previousWkc != o.actualWkc then ReadSlaveStates else SdoTransfer)
  }

  /**
   * The master leaves WaitForMaster for the slaves only without DC, or once
   * it has at least 1000 jitter samples and a non-zero estimate within the
   * maximum.
   */
  lemma WaitForMasterGate(slaveCount: nat, recoveryDisabled: bool, previousWkc: int, o: Observation)
    ensures var (next, _) := Transition(WaitForMaster, slaveCount, recoveryDisabled, previousWkc, o);
      (next != WaitForMaster <==>
        !o.dcEnabled || (o.jitterSamples >= MinimumJitterSamples && 0 != o.jitterEstimate <= o.maximumJitter)) &&
      (next != WaitForMaster ==> next == ChainEntry(slaveCount))
  {
  }

  /**
   * Read goes to Final only when every slave is operational and recovery is
   * off, and to CheckForLost only when they are and it is on; Final is never
   * left.
   */
  lemma ReadAndFinal(slaveCount: nat, recoveryDisabled: bool, previousWkc: int, o: Observation)
    ensures Transition(Read, slaveCount, recoveryDisabled, previousWkc, o).0 == Final <==>
      o.lowestAlState == AlStateOperational && recoveryDisabled
    ensures Transition(Read, slaveCount, recoveryDisabled, previousWkc, o).0 == CheckForLost <==>
      o.lowestAlState == AlStateOperational && !recoveryDisabled
    ensures Transition(Final, slaveCount, recoveryDisabled, previousWkc, o).0 == Final
  {
  }

  class StateMachine {
    var slaveCount: nat
    var slaveEntry: MachineState
    var current: MachineState
    var currentSdo: nat
    var recoveryDisabled: bool
    var previousWkc: int

    constructor ()
      ensures current == Read && slaveCount == 0 && currentSdo == 0 && !recoveryDisabled && previousWkc == 0
    {
      slaveCount := 0;
      slaveEntry := Read;
      current := Read;
      currentSdo := 0;
      recoveryDisabled := false;
      previousWkc := 0;
    }

    /** Builds the chain of slave states from the last slave back to the first, and starts at Read. */
    method SetSlaves(n: nat)
      modifies this
      ensures slaveCount == n && slaveEntry == ChainEntry(n) && current == Read
      ensures currentSdo == old(currentSdo) && recoveryDisabled == old(recoveryDisabled) && previousWkc == old(previousWkc)
    {
      var next := Read;
      var i := n;
      while i > 0
        invariant 0 <= i <= n
        invariant next == if i == n then Read else SlaveStep(i)
      {
        i := i - 1;
        next := SlaveStep(i);
      }
      slaveCount := n;
      slaveEntry := next;
      current := Read;
    }

    method DisableRecovery()
      modifies this
      ensures recoveryDisabled && current == old(current) && currentSdo == old(currentSdo)
      ensures slaveCount == old(slaveCount) && slaveEntry == old(slaveEntry) && previousWkc == old(previousWkc)
    {
      recoveryDisabled := true;
    }

    /** Services the SDOs round-robin from the one after the last serviced; see ScanFrom. */
    method DoSdoTransfer(pending: seq<bool>) returns (found: Option<nat>)
      modifies this
      ensures Scan(currentSdo, found) == ScanFrom(old(currentSdo), pending, |pending|)
      ensures current == old(current) && slaveCount == old(slaveCount) && previousWkc == old(previousWkc)
      ensures recoveryDisabled == old(recoveryDisabled) && slaveEntry == old(slaveEntry)
    {
      found := None;
      var c := 0;
      while c < |pending|
        invariant 0 <= c <= |pending|
        invariant current == old(current) && slaveCount == old(slaveCount) && previousWkc == old(previousWkc)
        invariant recoveryDisabled == old(recoveryDisabled) && slaveEntry == old(slaveEntry)
        invariant ScanFrom(currentSdo, pending, |pending| - c) == ScanFrom(old(currentSdo), pending, |pending|)
      {
        currentSdo := StepIndex(currentSdo, |pending|);
        if pending[currentSdo] {
          found := Some(currentSdo);
          return;
        }
        c := c + 1;
      }
    }

    /** One tick of the state machine; the SDO round-robin runs when the tick calls for it. */
    method DoStateControl(o: Observation, pending: seq<bool>) returns (action: Action, found: Option<nat>)
      modifies this
      ensures (current, action) == Transition(old(current), slaveCount, recoveryDisabled, old(previousWkc), o)
      ensures action == SdoTransfer ==> Scan(currentSdo, found) == ScanFrom(old(currentSdo), pending, |pending|)
      ensures action != SdoTransfer ==> currentSdo == old(currentSdo) && found == None
      ensures previousWkc == if old(current) == Final then o.actualWkc else old(previousWkc)
      ensures slaveCount == old(slaveCount) && recoveryDisabled == old(recoveryDisabled) && slaveEntry == old(slaveEntry)
    {
      var (next, a) := Transition(current, slaveCount, recoveryDisabled, previousWkc, o);
      action := a;
      found := None;
      if action == SdoTransfer {
        found := DoSdoTransfer(pending);
      }
      if current == Final {
        previousWkc := o.actualWkc;
      }
      current := next;
    }
  }
}
