/**
 * The master's view of one slave (Slave in the master package): decoding
 * of the AL state and of the DC time difference, registration of sync
 * managers and SDOs, the PDO watchdog arithmetic, and the householding step
 * that drives the slave towards OP and waits for its distributed clock.
 *
 * SOEM calls are parameters (what they returned) or results (which call the
 * step issues).
 */
module EtherCatSlave {
  import opened Wrappers
  import JavaMath
  import MasterSdo

  /** The slave states, in the order the master compares them. */
  datatype SlaveState = Offline | Boot | Init | PreOp | PreOpErr | SafeOp | SafeOpErr | Op
  {
    function Ordinal(): nat
    {
      match this
      case Offline => 0 case Boot => 1 case Init => 2 case PreOp => 3
      case PreOpErr => 4 case SafeOp => 5 case SafeOpErr => 6 case Op => 7
    }
  }

  const MaxDcOffsetDefault: int := 200
  const MaxDcOffsetSamples: int := 10
  /** SOEM's EC_NOFRAME: no frame came back. */
  const NoFrame: int := -1

  /** The AL status code SOEM reports for each state other than Offline. */
  function StateCode(s: SlaveState): int
    requires s != Offline
  {
    match s
    case Boot => 0x03
    case Init => 0x01
    case PreOp => 0x02
    case PreOpErr => 0x02 + 0x10
    case SafeOp => 0x04
    case SafeOpErr => 0x04 + 0x10
    case Op => 0x08
  }

  /**
   * getStateFromEcSlave: the state whose code is `code`; any other code
   * (an error flag on INIT or OP, an unknown value) reads as Offline.
   */
  function StateFromEcSlave(code: int): (s: SlaveState)
    ensures s != Offline ==> StateCode(s) == code
    ensures s == Offline <==> code !in {0x01, 0x02, 0x03, 0x04, 0x08, 0x12, 0x14}
  {
    if code == 0x03 then Boot
    else if code == 0x01 then Init
    else if code == 0x02 then PreOp
    else if code == 0x02 + 0x10 then PreOpErr
    else if code == 0x04 then SafeOp
    else if code == 0x04 + 0x10 then SafeOpErr
    else if code == 0x08 then Op
    else Offline
  }

  /** Decoding inverts the code table: each state other than Offline is read back from its own code. */
  lemma StateCodeRoundTrip(s: SlaveState)
    requires s != Offline
    ensures StateFromEcSlave(StateCode(s)) == s
  {
  }

  /**
   * sm32ToInt32: the DC system-time difference register holds a sign bit
   * (bit 31) and a 31-bit magnitude. A Java int with the sign bit set is
   * negative; its magnitude is `diff & 0x7FFFFFFF`, i.e. diff + 2^31.
   */
  function Sm32ToInt32(diff: int): (r: int)
    requires JavaMath.IsInt32(diff)
    ensures -JavaMath.Two31 < r < JavaMath.Two31
    ensures diff >= 0 ==> r == diff
    ensures diff < 0 ==> r <= 0 && r == -(diff + JavaMath.Two31)
  {
    if diff < 0 then -(diff % JavaMath.Two31) else diff
  }

  /** The register content for a time difference: sign bit and magnitude, read as a Java int. */
  function SignMagnitude(v: int): (raw: int)
    requires -JavaMath.Two31 < v < JavaMath.Two31
    ensures JavaMath.IsInt32(raw)
  {
    if v >= 0 then v else -JavaMath.Two31 + (-v)
  }

  /** Decoding undoes the sign-magnitude encoding for every representable difference. */
  lemma Sm32RoundTrip(v: int)
    requires -JavaMath.Two31 < v < JavaMath.Two31
    ensures Sm32ToInt32(SignMagnitude(v)) == v
  {
  }

  /** Both zeros of sign-magnitude (0 and the sign bit alone) read as 0. */
  lemma Sm32NegativeZero()
    ensures Sm32ToInt32(-JavaMath.Two31) == 0 && Sm32ToInt32(0) == 0
  {
  }

  /** getDCSyncOffset: Integer.MAX_VALUE when no frame came back, otherwise the decoded difference. */
  function DcSyncOffset(wkc: int, raw: int): (r: int)
    requires JavaMath.IsInt32(raw)
    ensures wkc == NoFrame ==> r == JavaMath.Two31 - 1
    ensures wkc != NoFrame ==> -JavaMath.Two31 < r < JavaMath.Two31 && r == Sm32ToInt32(raw)
  {
    if wkc == NoFrame then JavaMath.Two31 - 1 else Sm32ToInt32(raw)
  }

  /** The watchdog divider in ns: 40 ns per (divider register + 2), as a Java int. */
  function WatchdogDivider(divRaw: int): int
  {
    JavaMath.ToInt32(40 * (divRaw + 2))
  }

  /**
   * The PDO watchdog register value for a timeout in ns: the timeout divided
   * by the divider with Java's truncating division; an error (Java's
   * ArithmeticException) when the divider is 0.
   */
  function WatchdogPdoTimeout(divRaw: int, timeoutNs: int): (r: Result<int>)
    ensures r.Ok? <==> WatchdogDivider(divRaw) != 0
    ensures r.Ok? && timeoutNs >= 0 && WatchdogDivider(divRaw) > 0 ==>
      r.value >= 0 && r.value * WatchdogDivider(divRaw) <= timeoutNs < (r.value + 1) * WatchdogDivider(divRaw)
    // For every sign: the magnitude is the floor of |timeout| / |divider|, and the quotient is rounded toward zero.
    ensures r.Ok? ==>
      JavaMath.Abs(r.value) * JavaMath.Abs(WatchdogDivider(divRaw)) <= JavaMath.Abs(timeoutNs) < (JavaMath.Abs(r.value) + 1) * JavaMath.Abs(WatchdogDivider(divRaw))
    ensures r.Ok? && (timeoutNs < 0) == (WatchdogDivider(divRaw) < 0) ==> r.value >= 0
    ensures r.Ok? && (timeoutNs < 0) != (WatchdogDivider(divRaw) < 0) ==> r.value <= 0
  {
    var div := WatchdogDivider(divRaw);
    if div == 0 then Err("division by zero")
    else
      var q := JavaMath.Div(timeoutNs, div);
      assert timeoutNs >= 0 && div > 0 ==> q == timeoutNs / div;
      JavaMath.DivBracket(JavaMath.Abs(timeoutNs), JavaMath.Abs(div));
      Ok(q)
  }

  /** Worked example of the source's comment: with the usual divider register value 2498 (100 us), a 100 ms timeout is written as 1000. */
  lemma WatchdogExample()
    ensures WatchdogDivider(2498) == 100000
    ensures WatchdogPdoTimeout(2498, 100000000) == Ok(1000)
  {
  }

  /** The total of the registered sync managers' process data sizes. */
  function SlotSum(slots: seq<Option<nat>>): nat
  {
    if slots == [] then 0
    else SlotSum(slots[..|slots| - 1]) + (if slots[|slots| - 1].Some? then slots[|slots| - 1].value else 0)
  }

  /** A slot sum is the sum of the sizes of the registered slots only: registering one adds its size. */
  lemma {:induction false} SlotSumUpdate(slots: seq<Option<nat>>, i: nat, size: nat)
    requires i < |slots| && slots[i].None?
    ensures SlotSum(slots[i := Some(size)]) == SlotSum(slots) + size
  {
    var n := |slots| - 1;
    if i < n {
      assert slots[i := Some(size)][..n] == slots[..n][i := Some(size)];
      SlotSumUpdate(slots[..n], i, size);
    } else {
      assert slots[i := Some(size)][..n] == slots[..n];
    }
  }

  /** What a householding step asks of SOEM. */
  datatype HouseholdCall =
    | NoCall
    | ReconfigToPreOp
    | ConfigureAndReconfigToSafeOp
    | DcOffsetRead(offset: int)
    | ReportDcWait(offset: int)
    | RequestOp
    | AckSafeOpError
    | CheckLost

  /** The DC-stability counter and flag. */
  datatype DcCounter = DcCounter(samples: int, stable: bool)

  /** A sample inside the window counts when it is non-zero or comes from the reference clock. */
  predicate CountsAsSample(offset: int, dcPrevious: int)
  {
    offset != 0 || dcPrevious == 0
  }

  /**
   * One DC offset sample: inside the window (-max, max) it counts when it is
   * non-zero or the slave's previous DC port is 0 (the reference clock, whose
   * offset is always 0); a zero offset otherwise restarts the count. The
   * counter is compared before it is incremented, so the clock is declared
   * stable on the sample that finds more than 10 already counted.
   */
  function DcSample(c: DcCounter, offset: int, maxOffset: int, dcPrevious: int): (r: DcCounter)
    ensures !(-maxOffset < offset < maxOffset) ==> r == c
    ensures -maxOffset < offset < maxOffset && CountsAsSample(offset, dcPrevious) ==> r.samples == c.samples + 1
    ensures -maxOffset < offset < maxOffset && !CountsAsSample(offset, dcPrevious) ==> r == DcCounter(0, c.stable)
    ensures c.stable ==> r.stable
  {
    if -maxOffset < offset < maxOffset then
      if CountsAsSample(offset, dcPrevious) then
        DcCounter(c.samples + 1, c.stable || c.samples > MaxDcOffsetSamples)
      else DcCounter(0, c.stable)
    else c
  }

  /** The counter after a run of samples, stopping as the step does once the clock is stable. */
  function DcRun(c: DcCounter, offsets: seq<int>, maxOffset: int, dcPrevious: int): DcCounter
    decreases |offsets|
  {
    if offsets == [] || c.stable then c
    else DcRun(DcSample(c, offsets[0], maxOffset, dcPrevious), offsets[1..], maxOffset, dcPrevious)
  }

  /**
   * From a reset counter, n consecutive counting samples (non-zero and inside
   * the window) leave the count at n, and the clock is stable exactly when
   * n >= 12.
   */
  lemma {:induction false} DcRunCounts(offsets: seq<int>, maxOffset: int, dcPrevious: int, k: int)
    requires 0 <= k < 12
    requires forall i :: 0 <= i < |offsets| ==> offsets[i] != 0 && -maxOffset < offsets[i] < maxOffset
    requires k + |offsets| <= 12
    ensures DcRun(DcCounter(k, false), offsets, maxOffset, dcPrevious) == DcCounter(k + |offsets|, k + |offsets| == 12)
  {
    if offsets != [] {
      var next := DcSample(DcCounter(k, false), offsets[0], maxOffset, dcPrevious);
      assert next == DcCounter(k + 1, k + 1 == 12);
      assert DcRun(DcCounter(k, false), offsets, maxOffset, dcPrevious) == DcRun(next, offsets[1..], maxOffset, dcPrevious);
      if k + 1 < 12 {
        DcRunCounts(offsets[1..], maxOffset, dcPrevious, k + 1);
      } else {
        assert |offsets| == 1;
      }
    }
  }

  /** Twelve good samples from a reset counter make the clock stable; eleven do not. */
  lemma DcStableAfterTwelve(offsets: seq<int>, maxOffset: int, dcPrevious: int)
    requires |offsets| == 12
    requires forall i :: 0 <= i < |offsets| ==> offsets[i] != 0 && -maxOffset < offsets[i] < maxOffset
    ensures DcRun(DcCounter(0, false), offsets, maxOffset, dcPrevious).stable
    ensures !DcRun(DcCounter(0, false), offsets[..11], maxOffset, dcPrevious).stable
  {
    DcRunCounts(offsets, maxOffset, dcPrevious, 0);
    DcRunCounts(offsets[..11], maxOffset, dcPrevious, 0);
  }

  /**
   * One householding step (doEtherCATStateControl without the lost-slave
   * recovery): the call it issues and the DC counter it leaves. `offset` is
   * what getDCSyncOffset would return.
   */
  function HouseholdStep(state: SlaveState, dcEnabled: bool, c: DcCounter, maxOffset: int, offset: int, dcPrevious: int)
    : (HouseholdCall, DcCounter)
  {
    match state
    case Boot | Init => (if dcEnabled then NoCall else ReconfigToPreOp, c)
    case PreOp => (if dcEnabled then NoCall else ConfigureAndReconfigToSafeOp, DcCounter(0, false))
    case PreOpErr => (NoCall, c)
    case SafeOp =>
      if dcEnabled && !c.stable then
        (if -maxOffset < offset < maxOffset then DcOffsetRead(offset) else ReportDcWait(offset),
         DcSample(c, offset, maxOffset, dcPrevious))
      else (RequestOp, c)
    case SafeOpErr => (AckSafeOpError, DcCounter(0, false))
    case Op => (NoCall, c)
    case Offline => (CheckLost, c)
  }

  /**
   * With DC enabled, a slave in SAFE-OP is asked for OP only once its clock
   * is stable; without DC it is asked at once. PRE-OP and a SAFE-OP error
   * both reset the counter.
   */
  lemma HouseholdOpOnlyWhenStable(state: SlaveState, dcEnabled: bool, c: DcCounter, maxOffset: int, offset: int, dcPrevious: int)
    ensures var (call, c') := HouseholdStep(state, dcEnabled, c, maxOffset, offset, dcPrevious);
      (call == RequestOp <==> state == SafeOp && (!dcEnabled || c.stable)) &&
      (state == PreOp || state == SafeOpErr ==> c' == DcCounter(0, false)) &&
      (state != SafeOp && state != PreOp && state != SafeOpErr ==> c' == c)
  {
  }

  class Slave {
    const slaveId: nat
    const aliasAddress: int
    const position: int
    const vendor: int
    const productCode: int
    /** The four sync-manager slots, each holding the process data size of the sync manager registered there. */
    var syncManagers: seq<Option<nat>>
    var sdos: seq<MasterSdo.Sdo>
    /** Whether the master has bound this slave to SOEM's slave record. */
    var configured: bool
    var configurePdoWatchdog: bool
    var pdoWatchdogTimeout: int
    var dcEnabled: bool
    var dc: DcCounter
    var maximumDcOffset: int
    var houseHolderState: SlaveState
    /** The state published to the control thread. */
    var state: SlaveState

    ghost predicate Valid() reads this { |syncManagers| == 4 }

    /** What has been registered on the slave: its sync managers and SDOs. */
    ghost function Registrations(): (seq<Option<nat>>, seq<MasterSdo.Sdo>) reads this { (syncManagers, sdos) }

    /** The PDO watchdog request. */
    ghost function Watchdog(): (bool, int) reads this { (configurePdoWatchdog, pdoWatchdogTimeout) }

    /** The distributed-clock settings. */
    ghost function DcSettings(): (bool, int) reads this { (dcEnabled, maximumDcOffset) }

    constructor (slaveId: nat, vendor: int, productCode: int, aliasAddress: int, position: int)
      ensures Valid()
      ensures this.slaveId == slaveId && this.vendor == vendor && this.productCode == productCode
      ensures this.aliasAddress == aliasAddress && this.position == position
      ensures syncManagers == [None, None, None, None] && sdos == [] && !configured && !configurePdoWatchdog
      ensures dc == DcCounter(0, false) && maximumDcOffset == MaxDcOffsetDefault && houseHolderState == Offline && state == Offline
    {
      this.slaveId := slaveId;
      this.vendor := vendor;
      this.productCode := productCode;
      this.aliasAddress := aliasAddress;
      this.position := position;
      syncManagers := [None, None, None, None];
      sdos := [];
      configured := false;
      configurePdoWatchdog := false;
      pdoWatchdogTimeout := 0;
      dcEnabled := false;
      dc := DcCounter(0, false);
      maximumDcOffset := MaxDcOffsetDefault;
      houseHolderState := Offline;
      state := Offline;
    }

    /**
     * configure: the slave is bound, DC sync is switched on or off as the
     * master asks, and, after the master's init, the slave is in SAFE-OP.
     */
    method MarkConfigured(enableDc: bool)
      modifies this
      ensures configured && state == SafeOp && dcEnabled == enableDc
      ensures Registrations() == old(Registrations()) && Watchdog() == old(Watchdog()) && maximumDcOffset == old(maximumDcOffset)
      ensures dc == old(dc) && houseHolderState == old(houseHolderState)
    {
      configured := true;
      dcEnabled := enableDc;
      state := SafeOp;
    }

    /** Publishes the householder's view of the state to the control thread. */
    method UpdateStateVariables()
      modifies this
      ensures state == houseHolderState && houseHolderState == old(houseHolderState)
      ensures Registrations() == old(Registrations()) && Watchdog() == old(Watchdog()) && DcSettings() == old(DcSettings())
      ensures configured == old(configured) && dc == old(dc)
    {
      state := houseHolderState;
    }

    /** Asks for the PDO watchdog; refused once the slave is configured. */
    method ConfigurePdoWatchdog(timeoutNs: int) returns (ok: bool)
      modifies this
      ensures ok <==> !old(configured)
      ensures ok ==> configurePdoWatchdog && pdoWatchdogTimeout == timeoutNs
      ensures !ok ==> configurePdoWatchdog == old(configurePdoWatchdog) && pdoWatchdogTimeout == old(pdoWatchdogTimeout)
      ensures Registrations() == old(Registrations()) && configured == old(configured) && DcSettings() == old(DcSettings())
      ensures dc == old(dc) && houseHolderState == old(houseHolderState) && state == old(state)
    {
      if configured {
        return false;
      }
      configurePdoWatchdog := true;
      pdoWatchdogTimeout := timeoutNs;
      ok := true;
    }

    /**
     * Registers a sync manager of process data size `size` at `index`:
     * refused for an index outside 0..3 or an occupied slot; otherwise only
     * that slot changes.
     */
    method RegisterSyncManager(index: int, size: nat) returns (ok: bool)
      requires Valid()
      modifies this
      ensures Valid()
      ensures ok <==> 0 <= index < 4 && old(syncManagers)[index].None?
      ensures ok ==> syncManagers == old(syncManagers)[index := Some(size)]
      ensures !ok ==> syncManagers == old(syncManagers)
      ensures sdos == old(sdos) && configured == old(configured) && Watchdog() == old(Watchdog()) && DcSettings() == old(DcSettings())
      ensures dc == old(dc) && houseHolderState == old(houseHolderState) && state == old(state)
    {
      if index < 0 || index >= 4 || syncManagers[index].Some? {
        return false;
      }
      syncManagers := syncManagers[index := Some(size)];
      ok := true;
    }

    /** The process data size of the slave: the sum over the registered sync managers. */
    method ProcessDataSize() returns (size: nat)
      ensures size == SlotSum(syncManagers)
    {
      size := 0;
      var i := 0;
      while i < |syncManagers|
        invariant 0 <= i <= |syncManagers|
        invariant size == SlotSum(syncManagers[..i])
      {
        assert syncManagers[..i + 1][..i] == syncManagers[..i];
        if syncManagers[i].Some? {
          size := size + syncManagers[i].value;
        }
        i := i + 1;
      }
      assert syncManagers[..i] == syncManagers;
    }

    /** Registers an SDO: refused for an SDO of another slave or one already registered; otherwise appended. */
    method RegisterSdo(sdo: MasterSdo.Sdo) returns (ok: bool)
      modifies this
      ensures ok <==> sdo.slaveId == slaveId && sdo !in old(sdos)
      ensures ok ==> sdos == old(sdos) + [sdo]
      ensures !ok ==> sdos == old(sdos)
      ensures syncManagers == old(syncManagers) && configured == old(configured) && Watchdog() == old(Watchdog()) && DcSettings() == old(DcSettings())
      ensures dc == old(dc) && houseHolderState == old(houseHolderState) && state == old(state)
    {
      if sdo.slaveId != slaveId {
        return false;
      }
      var i := 0;
      while i < |sdos|
        invariant 0 <= i <= |sdos|
        invariant sdo !in sdos[..i]
      {
        if sdos[i] == sdo {
          return false;
        }
        i := i + 1;
      }
      assert sdos[..i] == sdos;
      sdos := sdos + [sdo];
      ok := true;
    }

    /**
     * Reads the AL status: on a positive working counter the householder
     * state becomes the decoded `alStatus`; otherwise nothing changes.
     */
    method UpdateEtherCatState(wkc: int, alStatus: int) returns (ok: bool)
      modifies this
      ensures ok <==> wkc > 0
      ensures houseHolderState == if ok then StateFromEcSlave(alStatus) else old(houseHolderState)
      ensures Registrations() == old(Registrations()) && configured == old(configured) && Watchdog() == old(Watchdog()) && DcSettings() == old(DcSettings())
      ensures dc == old(dc) && state == old(state)
    {
      if wkc > 0 {
        houseHolderState := StateFromEcSlave(alStatus);
        return true;
      }
      ok := false;
    }

    /**
     * One householding step. `dcWkc` and `dcRaw` are what reading the DC
     * time difference returned, `dcPrevious` the slave's previous DC port.
     */
    method DoEtherCatStateControl(dcWkc: int, dcRaw: int, dcPrevious: int) returns (call: HouseholdCall)
      requires JavaMath.IsInt32(dcRaw)
      modifies this
      ensures (call, dc) == HouseholdStep(old(houseHolderState), old(dcEnabled), old(dc), old(maximumDcOffset), DcSyncOffset(dcWkc, dcRaw), dcPrevious)
      ensures Registrations() == old(Registrations()) && configured == old(configured) && Watchdog() == old(Watchdog()) && DcSettings() == old(DcSettings())
      ensures houseHolderState == old(houseHolderState)
      // Reconfiguring a PRE-OP slave without DC ends, as configure does, with the published state SAFE-OP.
      ensures state == if old(houseHolderState) == PreOp && !old(dcEnabled) then SafeOp else old(state)
    {
      var offset := DcSyncOffset(dcWkc, dcRaw);
      match houseHolderState {
        case Boot =>
          call := if dcEnabled then NoCall else ReconfigToPreOp;
        case Init =>
          call := if dcEnabled then NoCall else ReconfigToPreOp;
        case PreOp =>
          call := if dcEnabled then NoCall else ConfigureAndReconfigToSafeOp;
          if !dcEnabled {
            state := SafeOp;
          }
          dc := DcCounter(0, false);
        case PreOpErr =>
          call := NoCall;
        case SafeOp =>
          if dcEnabled && !dc.stable {
            if offset < maximumDcOffset && offset > -maximumDcOffset {
              call := DcOffsetRead(offset);
              if offset != 0 || dcPrevious == 0 {
                var counted := dc.samples;
                dc := dc.(samples := dc.samples + 1);
                if counted > MaxDcOffsetSamples {
                  dc := dc.(stable := true);
                }
              } else {
                dc := dc.(samples := 0);
              }
            } else {
              call := ReportDcWait(offset);
            }
          } else {
            call := RequestOp;
          }
        case SafeOpErr =>
          dc := DcCounter(0, false);
          call := AckSafeOpError;
        case Op =>
          call := NoCall;
        case Offline =>
          call := CheckLost;
      }
    }
  }
}
