/**
 * The C helper linked between the Java master and SOEM (swig/ethercathelper.c):
 * bounds-checked accessors into SOEM's slave, sync-manager and FMMU tables,
 * process-image offsets, the FoE size adapter, and the two procedures that
 * bring a slave back to PRE-OP and to SAFE-OP.
 *
 * The frame transport (FPWR) and SOEM's state check are not modelled as code:
 * the reconfiguration methods take their answers as parameters and return the
 * register writes they issue, in order, as an event log.
 */
module EtherCatHelper {
  import opened Wrappers
  import JavaMath

  // SOEM's table sizes, register addresses and record sizes.
  const MaxSm: nat := 8
  const MaxFmmu: nat := 4
  const RegAlControl: int := 0x0120
  const RegFmmu0: int := 0x0600
  const RegSm0: int := 0x0800
  const SmRecordSize: int := 8
  const FmmuRecordSize: int := 16

  // AL states as SOEM encodes them.
  const StateNone: int := 0x00
  const StateInit: int := 0x01
  const StatePreOp: int := 0x02
  const StateBoot: int := 0x03
  const StateSafeOp: int := 0x04
  const StateOp: int := 0x08
  const StateError: int := 0x10

  /** One sync-manager record (ec_smt). */
  datatype SmEntry = SmEntry(startAddr: int, smLength: int, smFlags: int)

  /** One FMMU record (ec_fmmut), reduced to its logical and physical addresses. */
  datatype FmmuEntry = FmmuEntry(logStart: int, logLength: int, physStart: int)

  /** The part of SOEM's ec_slavet the core reads or writes. */
  datatype SlaveEntry = SlaveEntry(
    configAdr: int,
    sm: seq<SmEntry>,
    smType: seq<int>,
    fmmu: seq<FmmuEntry>,
    fmmuUnused: nat,
    inputs: nat,
    outputs: nat,
    mbxWo: int, mbxL: int, mbxRo: int, mbxRl: int)
  {
    /** SOEM's fixed-size tables; FMMUunused never exceeds the FMMU table. */
    predicate WellFormed() {
      |sm| == MaxSm && |smType| == MaxSm && |fmmu| == MaxFmmu && fmmuUnused <= MaxFmmu
    }
  }

  /**
   * The part of SOEM's context the helper reads: the slave list, whose entry 0
   * is the master's own and whose entries 1..slaveCount are the slaves found.
   */
  datatype Context = Context(slaveList: seq<SlaveEntry>, slaveCount: nat, ecatError: bool, dcTime: int)
  {
    predicate WellFormed() { slaveCount < |slaveList| }
  }

  /** ecx_slave: index 0..slaveCount is in the table (slaveCount itself included); larger is absent. */
  function SlaveAt(ctx: Context, index: nat): (r: Option<SlaveEntry>)
    requires ctx.WellFormed()
    ensures r.None? <==> index > ctx.slaveCount
    ensures r.Some? ==> index < |ctx.slaveList| && r.value == ctx.slaveList[index]
  {
    if index > ctx.slaveCount then None else Some(ctx.slaveList[index])
  }

  /** ecx_sm: present exactly for 0 <= index < MaxSm. */
  function SmAt(slave: SlaveEntry, index: nat): (r: Option<SmEntry>)
    requires slave.WellFormed()
    ensures r.None? <==> index >= MaxSm
    ensures r.Some? ==> r.value == slave.sm[index]
  {
    if index >= MaxSm then None else Some(slave.sm[index])
  }

  /** ecx_smtype: the type byte, or 0 for an index past the table. */
  function SmType(slave: SlaveEntry, index: nat): (r: int)
    requires slave.WellFormed()
    ensures index >= MaxSm ==> r == 0
    ensures index < MaxSm ==> r == slave.smType[index]
  {
    if index >= MaxSm then 0 else slave.smType[index]
  }

  /** ecx_fmmu: present exactly for 0 <= index < MaxFmmu. */
  function FmmuAt(slave: SlaveEntry, index: nat): (r: Option<FmmuEntry>)
    requires slave.WellFormed()
    ensures r.None? <==> index >= MaxFmmu
    ensures r.Some? ==> r.value == slave.fmmu[index]
  {
    if index >= MaxFmmu then None else Some(slave.fmmu[index])
  }

  /**
   * Pointer difference `p - buffer` taken on 64-bit unsigned values and
   * returned as a 32-bit signed int. Reducing modulo 2^64 and then to 32 bits
   * is the same as reducing to 32 bits directly. The result is the true offset
   * whenever that fits in an int32, and agrees with it modulo 2^32 otherwise.
   */
  function PointerOffset(p: nat, buffer: nat): (r: int)
    ensures JavaMath.IsInt32(r)
    ensures 0 <= p - buffer < JavaMath.Two31 ==> r == p - buffer
    ensures (r - (p - buffer)) % JavaMath.Two32 == 0
  {
    JavaMath.ToInt32(p - buffer)
  }

  /** ecx_inputoffset: where the slave's inputs start inside the process image `buffer`. */
  function InputOffset(slave: SlaveEntry, buffer: nat): (r: int)
    ensures JavaMath.IsInt32(r)
    ensures buffer <= slave.inputs < buffer + JavaMath.Two31 ==> r == slave.inputs - buffer
  {
    PointerOffset(slave.inputs, buffer)
  }

  /** ecx_outputoffset: where the slave's outputs start inside the process image `buffer`. */
  function OutputOffset(slave: SlaveEntry, buffer: nat): (r: int)
    ensures JavaMath.IsInt32(r)
    ensures buffer <= slave.outputs < buffer + JavaMath.Two31 ==> r == slave.outputs - buffer
  {
    PointerOffset(slave.outputs, buffer)
  }

  /**
   * ecx_FOEread_java_helper: `res` is what the FoE read returned and `psize`
   * the size it reported. A positive result is replaced by the size read;
   * otherwise the (error) result is passed through.
   */
  function FoeReadResult(res: int, psize: int): (r: int)
    ensures res > 0 ==> r == psize
    ensures res <= 0 ==> r == res
  {
    if res > 0 then psize else res
  }

  /** The two meanings share one value: a successful empty read looks like a read that returned 0. */
  lemma FoeReadResultAmbiguous()
    ensures FoeReadResult(1, 0) == FoeReadResult(0, 1024)
  {
  }

  /** What the helpers put on the wire, in order. */
  datatype Payload = AlControl(state: int) | SmRecord(smEntry: SmEntry) | FmmuRecord(fmmuEntry: FmmuEntry)
  datatype PortEvent =
    | Write(station: int, register: int, payload: Payload)
    | EepromToPdi

  predicate IsSmWrite(e: PortEvent) { e.Write? && e.payload.SmRecord? }

  predicate IsAlWrite(e: PortEvent, state: int) { e.Write? && e.register == RegAlControl && e.payload == AlControl(state) }

  /** The SM writes issued for table entries 0..n-1: one per entry whose start address is non-zero. */
  function SmWrites(slave: SlaveEntry, n: nat): seq<PortEvent>
    requires slave.WellFormed() && n <= MaxSm
  {
    if n == 0 then []
    else
      var k := n - 1;
      SmWrites(slave, k) +
      (if slave.sm[k].startAddr != 0
       then [Write(slave.configAdr, RegSm0 + k * SmRecordSize, SmRecord(slave.sm[k]))]
       else [])
  }

  /** The FMMU writes issued for table entries 0..n-1: all of them. */
  function FmmuWrites(slave: SlaveEntry, n: nat): seq<PortEvent>
    requires slave.WellFormed() && n <= MaxFmmu
  {
    if n == 0 then []
    else FmmuWrites(slave, n - 1) + [Write(slave.configAdr, RegFmmu0 + (n - 1) * FmmuRecordSize, FmmuRecord(slave.fmmu[n - 1]))]
  }

  /** Each SM write in SmWrites(slave, n) is for an entry k < n with a non-zero start address, at SM0 + 8k. */
  lemma {:induction false} SmWritesSound(slave: SlaveEntry, n: nat, i: nat)
    requires slave.WellFormed() && n <= MaxSm && i < |SmWrites(slave, n)|
    ensures var e := SmWrites(slave, n)[i];
      e.Write? && e.station == slave.configAdr && e.payload.SmRecord? &&
      exists k :: 0 <= k < n && slave.sm[k].startAddr != 0 && e.register == RegSm0 + k * SmRecordSize && e.payload.smEntry == slave.sm[k]
  {
    var k := n - 1;
    if i < |SmWrites(slave, k)| {
      SmWritesSound(slave, k, i);
    } else {
      assert SmWrites(slave, n)[i] == Write(slave.configAdr, RegSm0 + k * SmRecordSize, SmRecord(slave.sm[k]));
    }
  }

  /** Every entry k < n with a non-zero start address gets a write at SM0 + 8k. */
  lemma {:induction false} SmWritesComplete(slave: SlaveEntry, n: nat, k: nat)
    requires slave.WellFormed() && n <= MaxSm && k < n && slave.sm[k].startAddr != 0
    ensures Write(slave.configAdr, RegSm0 + k * SmRecordSize, SmRecord(slave.sm[k])) in SmWrites(slave, n)
  {
    if k < n - 1 {
      SmWritesComplete(slave, n - 1, k);
    }
  }

  /** The SM writes go out in strictly ascending register order, so no entry is written twice. */
  lemma {:induction false} SmWritesAscending(slave: SlaveEntry, n: nat, i: nat, j: nat)
    requires slave.WellFormed() && n <= MaxSm && i < j < |SmWrites(slave, n)|
    ensures SmWrites(slave, n)[i].Write? && SmWrites(slave, n)[j].Write?
    ensures SmWrites(slave, n)[i].register < SmWrites(slave, n)[j].register
  {
    var k := n - 1;
    var w := SmWrites(slave, n);
    SmWritesSound(slave, n, i);
    SmWritesSound(slave, n, j);
    if j < |SmWrites(slave, k)| {
      SmWritesAscending(slave, k, i, j);
    } else {
      SmWritesSound(slave, k, i);
      assert w[i] == SmWrites(slave, k)[i];
      assert w[j].register == RegSm0 + k * SmRecordSize;
    }
  }

  /** The FMMU writes cover exactly the entries below n, entry c at FMMU0 + 16c. */
  lemma {:induction false} FmmuWritesExact(slave: SlaveEntry, n: nat, c: nat)
    requires slave.WellFormed() && n <= MaxFmmu && c < n
    ensures |FmmuWrites(slave, n)| == n
    ensures FmmuWrites(slave, n)[c] == Write(slave.configAdr, RegFmmu0 + c * FmmuRecordSize, FmmuRecord(slave.fmmu[c]))
  {
    if c < n - 1 {
      FmmuWritesExact(slave, n - 1, c);
    } else if n > 1 {
      FmmuWritesExact(slave, n - 1, 0);
    }
  }

  /**
   * What ecx_reconfig_slave_to_preop does. `initWkc` is what the INIT write to
   * AL control returned; `initState` and `preOpState` are the states the two
   * state checks observed.
   */
  function PreOpPlan(slave: SlaveEntry, initWkc: int, initState: int, preOpState: int): (int, seq<PortEvent>)
    requires slave.WellFormed()
  {
    var initWrite := [Write(slave.configAdr, RegAlControl, AlControl(StateInit))];
    if initWkc <= 0 then (0, initWrite)
    else if initState != StateInit then (initState, initWrite + [EepromToPdi])
    else (preOpState, initWrite + [EepromToPdi] + SmWrites(slave, MaxSm) +
                      [Write(slave.configAdr, RegAlControl, AlControl(StatePreOp))])
  }

  /** ecx_reconfig_slave_to_preop, issuing its writes one by one. */
  method ReconfigToPreOp(slave: SlaveEntry, initWkc: int, initState: int, preOpState: int)
    returns (state: int, events: seq<PortEvent>)
    requires slave.WellFormed()
    ensures (state, events) == PreOpPlan(slave, initWkc, initState, preOpState)
  {
    events := [Write(slave.configAdr, RegAlControl, AlControl(StateInit))];
    if initWkc <= 0 {
      return 0, events;
    }
    events := events + [EepromToPdi];
    state := initState;
    if state == StateInit {
      ghost var before := events;
      var n := 0;
      while n < MaxSm
        invariant 0 <= n <= MaxSm
        invariant events == before + SmWrites(slave, n)
      {
        if slave.sm[n].startAddr != 0 {
          events := events + [Write(slave.configAdr, RegSm0 + n * SmRecordSize, SmRecord(slave.sm[n]))];
        }
        n := n + 1;
      }
      events := events + [Write(slave.configAdr, RegAlControl, AlControl(StatePreOp))];
      state := preOpState;
    }
  }

  /** A failed INIT write ends the procedure with 0 and nothing after that write. */
  lemma PreOpInitWriteFails(slave: SlaveEntry, initWkc: int, initState: int, preOpState: int)
    requires slave.WellFormed() && initWkc <= 0
    ensures PreOpPlan(slave, initWkc, initState, preOpState).0 == 0
    ensures PreOpPlan(slave, initWkc, initState, preOpState).1 == [Write(slave.configAdr, RegAlControl, AlControl(StateInit))]
  {
  }

  /** INIT not observed: no SM write, no PRE-OP request, and the observed state is returned. */
  lemma PreOpInitNotReached(slave: SlaveEntry, initWkc: int, initState: int, preOpState: int)
    requires slave.WellFormed() && initWkc > 0 && initState != StateInit
    ensures PreOpPlan(slave, initWkc, initState, preOpState).0 == initState
    ensures forall e <- PreOpPlan(slave, initWkc, initState, preOpState).1 :: !IsSmWrite(e) && !IsAlWrite(e, StatePreOp)
  {
  }

  /**
   * INIT observed: after the INIT write and the EEPROM hand-over come the SM
   * writes (exactly one per entry with a non-zero start address, ascending),
   * then the PRE-OP request; the state the second check observed is returned.
   */
  lemma PreOpInitReached(slave: SlaveEntry, initWkc: int, preOpState: int)
    requires slave.WellFormed() && initWkc > 0
    ensures var (state, events) := PreOpPlan(slave, initWkc, StateInit, preOpState);
      state == preOpState &&
      events[..2] == [Write(slave.configAdr, RegAlControl, AlControl(StateInit)), EepromToPdi] &&
      events[2..|events| - 1] == SmWrites(slave, MaxSm) &&
      IsAlWrite(events[|events| - 1], StatePreOp)
  {
  }

  /**
   * What ecx_reconfig_slave_to_safeop does. The C function has no return
   * statement; the model returns the last state the state check observed.
   */
  function SafeOpPlan(slave: SlaveEntry, preOpState: int, safeOpState: int): (int, seq<PortEvent>)
    requires slave.WellFormed()
  {
    if preOpState != StatePreOp then (preOpState, [])
    else (safeOpState, [Write(slave.configAdr, RegAlControl, AlControl(StateSafeOp))] + FmmuWrites(slave, slave.fmmuUnused))
  }

  /** ecx_reconfig_slave_to_safeop, issuing its writes one by one. */
  method ReconfigToSafeOp(slave: SlaveEntry, preOpState: int, safeOpState: int)
    returns (state: int, events: seq<PortEvent>)
    requires slave.WellFormed()
    ensures (state, events) == SafeOpPlan(slave, preOpState, safeOpState)
  {
    state := preOpState;
    events := [];
    if state == StatePreOp {
      events := [Write(slave.configAdr, RegAlControl, AlControl(StateSafeOp))];
      state := safeOpState;
      var c := 0;
      while c < slave.fmmuUnused
        invariant 0 <= c <= slave.fmmuUnused
        invariant events == [Write(slave.configAdr, RegAlControl, AlControl(StateSafeOp))] + FmmuWrites(slave, c)
      {
        events := events + [Write(slave.configAdr, RegFmmu0 + c * FmmuRecordSize, FmmuRecord(slave.fmmu[c]))];
        c := c + 1;
      }
    }
  }

  /**
   * With PRE-OP observed, the SAFE-OP request is followed by exactly one write
   * per FMMU entry c < FMMUunused, at FMMU0 + 16c, whatever the second check saw.
   */
  lemma {:induction false} SafeOpFmmuWrites(slave: SlaveEntry, safeOpState: int, c: nat)
    requires slave.WellFormed() && c < slave.fmmuUnused
    ensures var (state, events) := SafeOpPlan(slave, StatePreOp, safeOpState);
      state == safeOpState && |events| == 1 + slave.fmmuUnused &&
      events[1 + c] == Write(slave.configAdr, RegFmmu0 + c * FmmuRecordSize, FmmuRecord(slave.fmmu[c]))
  {
    FmmuWritesExact(slave, slave.fmmuUnused, c);
  }

  /** Without PRE-OP observed nothing is written and the observed state is returned. */
  lemma SafeOpNotPreOp(slave: SlaveEntry, preOpState: int, safeOpState: int)
    requires slave.WellFormed() && preOpState != StatePreOp
    ensures SafeOpPlan(slave, preOpState, safeOpState) == (preOpState, [])
  {
  }
}
