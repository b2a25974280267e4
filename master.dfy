/**
 * The EtherCAT master (Master): mapping the slaves SOEM discovered onto the
 * registered slaves by alias:position address, SDO registration, the
 * receive-time jitter estimate, the overall state and the expected working
 * counter.
 */
module EtherCatMaster {
  import opened Wrappers
  import JavaMath
  import MasterSdo
  import opened EtherCatSlave

  /** A slave address: the alias and the position after the last slave that set it. */
  datatype Address = Address(alias: int, position: int)

  /** Before the first slave: alias 0, position -1. */
  const StartAddress := Address(0, -1)

  /**
   * The address of the next slave on the bus: a slave without an alias, or
   * with the same alias as its predecessor, takes the next position under
   * that alias; a slave with a new alias starts at position 0 under it.
   */
  function NextAddress(ecAlias: int, previous: Address): Address
  {
    if ecAlias == 0 || ecAlias == previous.alias then Address(previous.alias, previous.position + 1)
    else Address(ecAlias, 0)
  }

  /** The addresses of the slaves following `previous`, given the aliases read from their EEPROMs. */
  function AddressesFrom(previous: Address, ecAliases: seq<int>): (r: seq<Address>)
    ensures |r| == |ecAliases|
    decreases |ecAliases|
  {
    if ecAliases == [] then []
    else
      var a := NextAddress(ecAliases[0], previous);
      [a] + AddressesFrom(a, ecAliases[1..])
  }

  function Addresses(ecAliases: seq<int>): seq<Address>
  {
    AddressesFrom(StartAddress, ecAliases)
  }

  /** One step of the mapping loop: the next address is the i-th one, and the rest follow from it. */
  lemma AddressesStep(addrs: seq<Address>, previous: Address, ecAliases: seq<int>, i: nat)
    requires |addrs| == i < |ecAliases|
    requires addrs + AddressesFrom(previous, ecAliases[i..]) == Addresses(ecAliases)
    ensures var a := NextAddress(ecAliases[i], previous);
      Addresses(ecAliases)[i] == a && (addrs + [a]) + AddressesFrom(a, ecAliases[i + 1..]) == Addresses(ecAliases)
  {
    var a := NextAddress(ecAliases[i], previous);
    assert ecAliases[i..][1..] == ecAliases[i + 1..];
    assert AddressesFrom(previous, ecAliases[i..]) == [a] + AddressesFrom(a, ecAliases[i + 1..]);
    assert (addrs + AddressesFrom(previous, ecAliases[i..]))[i] == a;
  }

  /**
   * The addressing scheme: a slave with its own alias is addressed by it;
   * each slave either continues its predecessor's alias one position further
   * on or starts a new alias at position 0; positions are never negative.
   */
  lemma {:induction false} AddressesShape(previous: Address, ecAliases: seq<int>)
    requires previous.position >= -1
    ensures var r := AddressesFrom(previous, ecAliases);
      (forall i :: 0 <= i < |r| ==> r[i].position >= 0) &&
      (forall i :: 0 <= i < |r| && ecAliases[i] != 0 ==> r[i].alias == ecAliases[i]) &&
      (|r| > 0 ==> (r[0].alias == previous.alias && r[0].position == previous.position + 1) ||
                   (r[0].alias != previous.alias && r[0].position == 0)) &&
      (forall i :: 0 < i < |r| ==>
        (r[i].alias == r[i - 1].alias && r[i].position == r[i - 1].position + 1) ||
        (r[i].alias != r[i - 1].alias && r[i].position == 0))
    decreases |ecAliases|
  {
    if ecAliases != [] {
      var a := NextAddress(ecAliases[0], previous);
      AddressesShape(a, ecAliases[1..]);
      var r := AddressesFrom(previous, ecAliases);
      var t := AddressesFrom(a, ecAliases[1..]);
      assert r == [a] + t;
      forall i | 0 < i < |r|
        ensures (r[i].alias == r[i - 1].alias && r[i].position == r[i - 1].position + 1) ||
                (r[i].alias != r[i - 1].alias && r[i].position == 0)
      {
        assert r[i] == t[i - 1];
        if i > 1 {
          assert r[i - 1] == t[i - 2];
        }
      }
      forall i | 0 <= i < |r| && ecAliases[i] != 0
        ensures r[i].alias == ecAliases[i]
      {
        if i > 0 {
          assert r[i] == t[i - 1] && ecAliases[1..][i - 1] == ecAliases[i];
        }
      }
    }
  }

  /** Worked example of AddressesShape: a bus without aliases is addressed 0:0, 0:1, ...; setting aliases 5 and 7 restarts the count under each. */
  lemma AddressesExample()
    ensures Addresses([0, 0, 0]) == [Address(0, 0), Address(0, 1), Address(0, 2)]
    ensures Addresses([0, 5, 0, 5, 7]) == [Address(0, 0), Address(5, 0), Address(5, 1), Address(5, 2), Address(7, 0)]
  {
  }

  predicate HasAddress(s: Slave, a: Address)
  {
    s.aliasAddress == a.alias && s.position == a.position
  }

  /** How many of the slaves carry the address. */
  function MatchCount(slaves: seq<Slave>, a: Address): nat
  {
    if slaves == [] then 0
    else MatchCount(slaves[..|slaves| - 1], a) + (if HasAddress(slaves[|slaves| - 1], a) then 1 else 0)
  }

  lemma {:induction false} MatchCountPrefix(slaves: seq<Slave>, n: nat, a: Address)
    requires n <= |slaves|
    ensures MatchCount(slaves[..n], a) <= MatchCount(slaves, a)
    decreases |slaves|
  {
    if n < |slaves| {
      assert slaves[..|slaves| - 1][..n] == slaves[..n];
      MatchCountPrefix(slaves[..|slaves| - 1], n, a);
    } else {
      assert slaves[..n] == slaves;
    }
  }

  /** A slave present in the list with no match is impossible: a match is counted. */
  lemma {:induction false} MatchCountZero(slaves: seq<Slave>, a: Address, i: nat)
    requires i < |slaves| && HasAddress(slaves[i], a)
    ensures MatchCount(slaves, a) > 0
  {
    var n := |slaves| - 1;
    if i < n {
      assert slaves[..n][i] == slaves[i];
      MatchCountZero(slaves[..n], a, i);
    }
  }

  /** Two different entries with the address count twice. */
  lemma {:induction false} MatchCountTwo(slaves: seq<Slave>, a: Address, i: nat, j: nat)
    requires i < j < |slaves| && HasAddress(slaves[i], a) && HasAddress(slaves[j], a)
    ensures MatchCount(slaves, a) >= 2
  {
    var n := |slaves| - 1;
    assert slaves[..n][i] == slaves[i];
    if j < n {
      assert slaves[..n][j] == slaves[j];
      MatchCountTwo(slaves[..n], a, i, j);
    } else {
      MatchCountZero(slaves[..n], a, i);
    }
  }

  /** A slave of the bus as SOEM discovered it: its EEPROM alias, vendor and product code. */
  datatype EcSlave = EcSlave(alias: int, vendor: int, productCode: int)

  function AliasesOf(ecSlaves: seq<EcSlave>): (r: seq<int>)
    ensures |r| == |ecSlaves| && forall i :: 0 <= i < |r| ==> r[i] == ecSlaves[i].alias
  {
    if ecSlaves == [] then [] else [ecSlaves[0].alias] + AliasesOf(ecSlaves[1..])
  }

  /**
   * When the slave mapping succeeds: as many registered slaves as discovered
   * ones, and the address of each discovered slave carried by exactly one
   * registered slave, of the same vendor and product code.
   */
  predicate Mappable(registered: seq<Slave>, ecSlaves: seq<EcSlave>)
  {
    |registered| == |ecSlaves| && MappableWith(registered, ecSlaves, Addresses(AliasesOf(ecSlaves)))
  }

  /** Mappable, with the discovered slaves' addresses given as `addrs`. */
  predicate MappableWith(registered: seq<Slave>, ecSlaves: seq<EcSlave>, addrs: seq<Address>)
  {
    |addrs| == |ecSlaves| &&
    forall i :: 0 <= i < |ecSlaves| ==> MappableAt(registered, ecSlaves, addrs, i)
  }

  predicate MappableAt(registered: seq<Slave>, ecSlaves: seq<EcSlave>, addrs: seq<Address>, i: int)
    requires 0 <= i < |ecSlaves| == |addrs|
  {
    MatchCount(registered, addrs[i]) == 1 &&
    forall s :: s in registered && HasAddress(s, addrs[i]) ==> s.vendor == ecSlaves[i].vendor && s.productCode == ecSlaves[i].productCode
  }

  /**
   * `mapped` pairs its entries with the first discovered slaves: each is a
   * registered slave at that slave's address, the only one there, and of
   * its vendor and product code.
   */
  predicate Matched(registered: seq<Slave>, ecSlaves: seq<EcSlave>, addrs: seq<Address>, mapped: seq<Slave>)
  {
    |mapped| <= |ecSlaves| && |mapped| <= |addrs| &&
    forall k :: 0 <= k < |mapped| ==>
      mapped[k] in registered && HasAddress(mapped[k], addrs[k]) && MatchCount(registered, addrs[k]) == 1 &&
      mapped[k].vendor == ecSlaves[k].vendor && mapped[k].productCode == ecSlaves[k].productCode
  }

  /** A match for the next discovered slave extends the mapping. */
  lemma MatchedStep(registered: seq<Slave>, ecSlaves: seq<EcSlave>, addrs: seq<Address>, mapped: seq<Slave>, s: Slave)
    requires Matched(registered, ecSlaves, addrs, mapped) && |mapped| < |ecSlaves| && |mapped| < |addrs|
    requires s in registered && HasAddress(s, addrs[|mapped|]) && MatchCount(registered, addrs[|mapped|]) == 1
    requires s.vendor == ecSlaves[|mapped|].vendor && s.productCode == ecSlaves[|mapped|].productCode
    ensures Matched(registered, ecSlaves, addrs, mapped + [s])
  {
  }

  /** A complete mapping, each entry the only registered slave at its address and of the right kind, shows the bus mappable. */
  lemma MappedIsMappable(registered: seq<Slave>, ecSlaves: seq<EcSlave>, addrs: seq<Address>, mapped: seq<Slave>)
    requires |addrs| == |ecSlaves| == |mapped| && Matched(registered, ecSlaves, addrs, mapped)
    ensures MappableWith(registered, ecSlaves, addrs)
  {
    forall k | 0 <= k < |ecSlaves|
      ensures MappableAt(registered, ecSlaves, addrs, k)
    {
      forall t | t in registered && HasAddress(t, addrs[k])
        ensures t == mapped[k]
      {
        var p := IndexOf(registered, t);
        var q := IndexOf(registered, mapped[k]);
        if p < q {
          MatchCountTwo(registered, addrs[k], p, q);
        } else if q < p {
          MatchCountTwo(registered, addrs[k], q, p);
        }
      }
    }
  }

  /** An address that no registered slave, or more than one, carries makes the bus unmappable. */
  lemma AmbiguousNotMappable(registered: seq<Slave>, ecSlaves: seq<EcSlave>, addrs: seq<Address>, i: int)
    requires 0 <= i < |ecSlaves| == |addrs| && MatchCount(registered, addrs[i]) != 1
    ensures !MappableWith(registered, ecSlaves, addrs)
  {
    assert !MappableAt(registered, ecSlaves, addrs, i);
  }

  /** A registered slave at a discovered address but of another vendor or product makes the bus unmappable. */
  lemma MismatchNotMappable(registered: seq<Slave>, ecSlaves: seq<EcSlave>, addrs: seq<Address>, i: int, s: Slave)
    requires 0 <= i < |ecSlaves| == |addrs| && s in registered && HasAddress(s, addrs[i])
    requires s.vendor != ecSlaves[i].vendor || s.productCode != ecSlaves[i].productCode
    ensures !MappableWith(registered, ecSlaves, addrs)
  {
    assert !MappableAt(registered, ecSlaves, addrs, i);
  }

  /** The expected working counter: outputs are counted twice (read and write), inputs once. */
  function ExpectedWorkingCounter(outputsWkc: int, inputsWkc: int): int
  {
    outputsWkc * 2 + inputsWkc
  }

  /**
   * Fewer answers never reach the expected count: the expected working
   * counter grows strictly with the output and the input count, so a frame
   * that fewer output or input slaves answered has a smaller counter.
   */
  lemma ExpectedWorkingCounterMonotone(outputsWkc: nat, inputsWkc: nat, answeredOutputs: nat, answeredInputs: nat)
    requires answeredOutputs <= outputsWkc && answeredInputs <= inputsWkc
    ensures ExpectedWorkingCounter(answeredOutputs, answeredInputs) <= ExpectedWorkingCounter(outputsWkc, inputsWkc)
    ensures ExpectedWorkingCounter(answeredOutputs, answeredInputs) == ExpectedWorkingCounter(outputsWkc, inputsWkc) <==>
      answeredOutputs == outputsWkc && answeredInputs == inputsWkc
  {
  }

  /**
   * One step of the interarrival jitter estimate of section A.8 of RFC 1889:
   * the estimate moves a sixteenth of the way towards the latest deviation
   * (with Java's truncating division).
   */
  function JitterUpdate(estimate: int, deviation: int): int
  {
    estimate + JavaMath.Div(deviation - estimate, 16)
  }

  /** The new estimate lies between the old one and the deviation, and no farther from the deviation. */
  lemma JitterBetween(estimate: int, deviation: int)
    ensures var r := JitterUpdate(estimate, deviation);
      (estimate <= deviation ==> estimate <= r <= deviation) &&
      (deviation <= estimate ==> deviation <= r <= estimate) &&
      (deviation == estimate ==> r == estimate)
  {
    var d := deviation - estimate;
    var q := JavaMath.Div(d, 16);
    assert JavaMath.Abs(q) == JavaMath.Abs(d) / 16;
  }

  /** The deviation of an arrival: the distance between the measured period and the cycle time. */
  function Deviation(arrival: int, previousArrival: int, cycleTime: int): (d: nat)
    ensures d == arrival - previousArrival - cycleTime || d == -(arrival - previousArrival - cycleTime)
  {
    var d := arrival - previousArrival - cycleTime;
    if d < 0 then -d else d
  }

  /** A slave as configure leaves it for a master whose DC setting is `enableDc`. */
  ghost predicate ConfiguredFor(s: Slave, enableDc: bool)
    reads s
  {
    s.configured && s.dcEnabled == enableDc && s.state == SafeOp
  }

  /** Configuring leaves a slave's registrations, watchdog, DC offset bound, DC counter and householder state alone. */
  twostate predicate SetupKept(s: Slave)
    reads s
  {
    s.Registrations() == old(s.Registrations()) && s.Watchdog() == old(s.Watchdog()) &&
    s.maximumDcOffset == old(s.maximumDcOffset) && s.dc == old(s.dc) && s.houseHolderState == old(s.houseHolderState)
  }

  /** A slave that was not configured keeps its configured flag, DC enable and state. */
  twostate predicate StatusKept(s: Slave)
    reads s
  {
    s.configured == old(s.configured) && s.dcEnabled == old(s.dcEnabled) && s.state == old(s.state)
  }

  class Master {
    var registeredSlaves: seq<Slave>
    var sdos: seq<MasterSdo.Sdo>
    /** The registered slaves in bus order, once mapped. */
    var slaveMap: seq<Slave>
    var enableDc: bool
    var cycleTimeNs: int
    var previousArrivalTime: int
    var jitterEstimate: int
    var jitterSamples: int
    var actualWorkingCounter: int
    var expectedWorkingCounter: int

    /** The receive-time jitter bookkeeping. */
    ghost function Timing(): (int, int, int) reads this { (previousArrivalTime, jitterEstimate, jitterSamples) }

    constructor (registeredSlaves: seq<Slave>, enableDc: bool, cycleTimeNs: int)
      ensures this.registeredSlaves == registeredSlaves && this.enableDc == enableDc && this.cycleTimeNs == cycleTimeNs
      ensures sdos == [] && slaveMap == [] && previousArrivalTime == 0 && jitterEstimate == 0 && jitterSamples == 0
      ensures actualWorkingCounter == 0 && expectedWorkingCounter == 0
    {
      this.registeredSlaves := registeredSlaves;
      this.enableDc := enableDc;
      this.cycleTimeNs := cycleTimeNs;
      sdos := [];
      slaveMap := [];
      previousArrivalTime := 0;
      jitterEstimate := 0;
      jitterSamples := 0;
      actualWorkingCounter := 0;
      expectedWorkingCounter := 0;
    }

    /**
     * The registered slave with address `a`: none when no slave has it, an
     * error when two do.
     */
    method GetSlave(a: Address) returns (r: Result<Option<Slave>>)
      ensures r.Err? <==> MatchCount(registeredSlaves, a) >= 2
      ensures r == Ok(None) <==> MatchCount(registeredSlaves, a) == 0
      ensures r.Ok? && r.value.Some? ==> r.value.value in registeredSlaves && HasAddress(r.value.value, a)
    {
      var found: Option<Slave> := None;
      var i := 0;
      while i < |registeredSlaves|
        invariant 0 <= i <= |registeredSlaves|
        invariant found.None? <==> MatchCount(registeredSlaves[..i], a) == 0
        invariant found.Some? ==>
          MatchCount(registeredSlaves[..i], a) == 1 && found.value in registeredSlaves && HasAddress(found.value, a)
      {
        assert registeredSlaves[..i + 1][..i] == registeredSlaves[..i];
        var s := registeredSlaves[i];
        if HasAddress(s, a) {
          if found.None? {
            found := Some(s);
          } else {
            MatchCountPrefix(registeredSlaves, i + 1, a);
            return Err("Multiple registered slaves with this address");
          }
        }
        i := i + 1;
      }
      assert registeredSlaves[..i] == registeredSlaves;
      r := Ok(found);
    }

    /**
     * The lookup half of the slave mapping: each discovered slave is
     * addressed as NextAddress says and must match exactly one registered
     * slave with the same vendor and product code. `mapped` lists, in bus
     * order, the slaves matched before the first failure, if any.
     */
    method MatchSlaves(ecSlaves: seq<EcSlave>) returns (mapped: seq<Slave>, err: Option<string>)
      ensures Matched(registeredSlaves, ecSlaves, Addresses(AliasesOf(ecSlaves)), mapped)
      ensures err.None? ==> |mapped| == |ecSlaves|
      ensures err.None? <==> MappableWith(registeredSlaves, ecSlaves, Addresses(AliasesOf(ecSlaves)))
    {
      var aliases := AliasesOf(ecSlaves);
      ghost var all := Addresses(aliases);
      mapped := [];
      var previous := StartAddress;
      ghost var addrs: seq<Address> := [];
      var i := 0;
      while i < |ecSlaves|
        invariant 0 <= i <= |ecSlaves|
        invariant |mapped| == |addrs| == i
        invariant addrs + AddressesFrom(previous, aliases[i..]) == all
        invariant Matched(registeredSlaves, ecSlaves, all, mapped)
      {
        var a := NextAddress(ecSlaves[i].alias, previous);
        AddressesStep(addrs, previous, aliases, i);
        var s := GetSlave(a);
        if s.Err? {
          AmbiguousNotMappable(registeredSlaves, ecSlaves, all, i);
          return mapped, Some(s.error);
        }
        if s.value.None? {
          AmbiguousNotMappable(registeredSlaves, ecSlaves, all, i);
          return mapped, Some("Unconfigured slave on this alias:position");
        }
        var slave := s.value.value;
        if slave.vendor != ecSlaves[i].vendor || slave.productCode != ecSlaves[i].productCode {
          MismatchNotMappable(registeredSlaves, ecSlaves, all, i, slave);
          return mapped, Some("Invalid vendor and/or product code");
        }
        MatchCountZero(registeredSlaves, a, IndexOf(registeredSlaves, slave));
        MatchedStep(registeredSlaves, ecSlaves, all, mapped, slave);
        mapped := mapped + [slave];
        addrs := addrs + [a];
        previous := a;
        i := i + 1;
      }
      MappedIsMappable(registeredSlaves, ecSlaves, all, mapped);
      err := None;
    }

    /**
     * The configuring half of the slave mapping: each matched slave, in
     * order, is configured with the master's DC setting and appended to the
     * slave map.
     */
    method EnterSlaves(matched: seq<Slave>)
      requires forall k :: 0 <= k < |matched| ==> matched[k] in registeredSlaves
      modifies this, registeredSlaves
      ensures slaveMap == old(slaveMap) + matched
      ensures registeredSlaves == old(registeredSlaves) && sdos == old(sdos) && enableDc == old(enableDc) && cycleTimeNs == old(cycleTimeNs)
      ensures Timing() == old(Timing()) && actualWorkingCounter == old(actualWorkingCounter) && expectedWorkingCounter == old(expectedWorkingCounter)
      ensures forall k :: 0 <= k < |matched| ==> ConfiguredFor(matched[k], enableDc)
      ensures forall s :: s in registeredSlaves && s !in matched ==> StatusKept(s)
      ensures forall s :: s in registeredSlaves ==> SetupKept(s)
    {
      var i := 0;
      while i < |matched|
        invariant 0 <= i <= |matched|
        invariant slaveMap == old(slaveMap) + matched[..i]
        invariant registeredSlaves == old(registeredSlaves) && sdos == old(sdos) && enableDc == old(enableDc) && cycleTimeNs == old(cycleTimeNs)
        invariant Timing() == old(Timing()) && actualWorkingCounter == old(actualWorkingCounter) && expectedWorkingCounter == old(expectedWorkingCounter)
        invariant forall k :: 0 <= k < i ==> ConfiguredFor(matched[k], enableDc)
        invariant forall s :: s in registeredSlaves && s !in matched[..i] ==> StatusKept(s)
        invariant forall s :: s in registeredSlaves ==> SetupKept(s)
      {
        matched[i].MarkConfigured(enableDc);
        assert matched[..i + 1] == matched[..i] + [matched[i]];
        slaveMap := slaveMap + [matched[i]];
        i := i + 1;
      }
      assert matched[..i] == matched;
    }

    /**
     * The slave-mapping part of init: the counts must agree; then the
     * discovered slaves are matched against the registered ones, and every
     * slave matched, up to the first failure, is configured and entered in
     * a fresh slave map. On success the map lists, in bus order, the
     * registered slave for each discovered one.
     */
    method MapSlaves(ecSlaves: seq<EcSlave>) returns (r: Result<seq<Slave>>)
      modifies this, registeredSlaves
      ensures registeredSlaves == old(registeredSlaves) && sdos == old(sdos) && enableDc == old(enableDc) && cycleTimeNs == old(cycleTimeNs)
      ensures Timing() == old(Timing()) && actualWorkingCounter == old(actualWorkingCounter) && expectedWorkingCounter == old(expectedWorkingCounter)
      ensures |registeredSlaves| != |ecSlaves| ==> r.Err? && slaveMap == old(slaveMap)
      ensures r.Ok? ==> slaveMap == r.value
      ensures r.Ok? ==> |r.value| == |ecSlaves| && forall i :: 0 <= i < |ecSlaves| ==>
        var a := Addresses(AliasesOf(ecSlaves))[i];
        r.value[i] in registeredSlaves && HasAddress(r.value[i], a) && MatchCount(registeredSlaves, a) == 1 &&
        r.value[i].vendor == ecSlaves[i].vendor && r.value[i].productCode == ecSlaves[i].productCode
      ensures r.Ok? <==> Mappable(registeredSlaves, ecSlaves)
      // Every slave entered in a fresh map is configured, with DC as the master asks, and in SAFE-OP.
      ensures |registeredSlaves| == |ecSlaves| ==> forall k :: 0 <= k < |slaveMap| ==>
        slaveMap[k] in registeredSlaves && ConfiguredFor(slaveMap[k], enableDc)
      ensures forall s :: s in registeredSlaves && s !in slaveMap ==> StatusKept(s)
      ensures forall s :: s in registeredSlaves ==> SetupKept(s)
    {
      if |registeredSlaves| != |ecSlaves| {
        if |registeredSlaves| < |ecSlaves| {
          return Err("Not all registered slaves are configured");
        }
        return Err("Not all registered slaves are online");
      }
      var mapped, err := MatchSlaves(ecSlaves);
      slaveMap := [];
      EnterSlaves(mapped);
      if err.Some? {
        return Err(err.value);
      }
      r := Ok(mapped);
    }

    /** Registers an SDO with the master; the same SDO twice is refused. */
    method RegisterSdo(sdo: MasterSdo.Sdo) returns (ok: bool)
      modifies this
      ensures ok <==> sdo !in old(sdos)
      ensures sdos == if ok then old(sdos) + [sdo] else old(sdos)
      ensures registeredSlaves == old(registeredSlaves) && slaveMap == old(slaveMap)
      ensures enableDc == old(enableDc) && cycleTimeNs == old(cycleTimeNs) && Timing() == old(Timing())
      ensures actualWorkingCounter == old(actualWorkingCounter) && expectedWorkingCounter == old(expectedWorkingCounter)
    {
      var i := 0;
      while i < |sdos|
        invariant 0 <= i <= |sdos|
        invariant sdo !in sdos[..i]
      {
        if sdos[i] == sdo {
          return false;
        }
        i := i + 1;
      }
      assert sdos[..i] == sdos;
      sdos := sdos + [sdo];
      ok := true;
    }

    /**
     * Receiving process data with working counter `wkc` at DC time
     * `arrivalTime`: no frame changes nothing; otherwise the working
     * counter is recorded and, with DC, the jitter estimate is updated once a
     * previous arrival exists.
     */
    method Receive(wkc: int, arrivalTime: int) returns (r: int)
      modifies this
      ensures r == wkc
      ensures wkc == NoFrame ==>
        actualWorkingCounter == old(actualWorkingCounter) && jitterEstimate == old(jitterEstimate) &&
        jitterSamples == old(jitterSamples) && previousArrivalTime == old(previousArrivalTime)
      ensures wkc != NoFrame ==> actualWorkingCounter == wkc
      ensures wkc != NoFrame && enableDc && old(previousArrivalTime) != 0 ==>
        jitterEstimate == JitterUpdate(old(jitterEstimate), Deviation(arrivalTime, old(previousArrivalTime), cycleTimeNs)) &&
        jitterSamples == old(jitterSamples) + 1
      ensures wkc != NoFrame && enableDc ==> previousArrivalTime == arrivalTime
      ensures (wkc != NoFrame && !enableDc) || (wkc != NoFrame && enableDc && old(previousArrivalTime) == 0) ==>
        jitterEstimate == old(jitterEstimate) && jitterSamples == old(jitterSamples)
      ensures !enableDc ==> previousArrivalTime == old(previousArrivalTime)
      ensures registeredSlaves == old(registeredSlaves) && slaveMap == old(slaveMap) && sdos == old(sdos)
      ensures enableDc == old(enableDc) && cycleTimeNs == old(cycleTimeNs) && expectedWorkingCounter == old(expectedWorkingCounter)
    {
      if wkc == NoFrame {
        return wkc;
      }
      if enableDc {
        if previousArrivalTime != 0 {
          var d := Deviation(arrivalTime, previousArrivalTime, cycleTimeNs);
          jitterEstimate := JitterUpdate(jitterEstimate, d);
          jitterSamples := jitterSamples + 1;
        }
        previousArrivalTime := arrivalTime;
      }
      actualWorkingCounter := wkc;
      r := wkc;
    }

    /**
     * The end of init: the expected working counter from the output and
     * input counts SOEM's process-data mapping reports, outputs counted
     * twice (written and read back) and inputs once.
     */
    method SetExpectedWorkingCounter(outputsWkc: nat, inputsWkc: nat)
      modifies this
      ensures expectedWorkingCounter == ExpectedWorkingCounter(outputsWkc, inputsWkc)
      ensures registeredSlaves == old(registeredSlaves) && slaveMap == old(slaveMap) && sdos == old(sdos)
      ensures enableDc == old(enableDc) && cycleTimeNs == old(cycleTimeNs) && Timing() == old(Timing())
      ensures actualWorkingCounter == old(actualWorkingCounter)
    {
      expectedWorkingCounter := ExpectedWorkingCounter(outputsWkc, inputsWkc);
    }

    /** The lowest state any mapped slave is in, OP when all are operational (or there are none). */
    method GetState() returns (r: SlaveState)
      ensures r.Ordinal() <= Op.Ordinal()
      ensures forall i :: 0 <= i < |slaveMap| ==> r.Ordinal() <= slaveMap[i].state.Ordinal()
      ensures r == Op || exists i :: 0 <= i < |slaveMap| && slaveMap[i].state == r
    {
      r := Op;
      var i := 0;
      while i < |slaveMap|
        invariant 0 <= i <= |slaveMap|
        invariant forall k :: 0 <= k < i ==> r.Ordinal() <= slaveMap[k].state.Ordinal()
        invariant r == Op || exists k :: 0 <= k < i && slaveMap[k].state == r
      {
        if slaveMap[i].state.Ordinal() < r.Ordinal() {
          r := slaveMap[i].state;
        }
        i := i + 1;
      }
    }
  }

  /** The index of a slave in a list that holds it. */
  function IndexOf(slaves: seq<Slave>, s: Slave): (i: nat)
    requires s in slaves
    ensures i < |slaves| && slaves[i] == s
  {
    if slaves[0] == s then 0 else 1 + IndexOf(slaves[1..], s)
  }
}
