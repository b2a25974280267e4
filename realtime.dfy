/**
 * The arithmetic of the realtime thread (EtherCATRealtimeThread): cycle
 * timestamps from the DC clock, the PI controller that keeps the control
 * loop in step with the DC sync pulse, and the guard on a second transfer
 * within one cycle. Clock readings and the transfer's working counter are
 * parameters.
 */
module Realtime {
  import JavaMath
  import EtherCatSlave
  import EtherCatMaster

  /** A DC time rounded down (toward zero, as Java's `/`) to a multiple of the cycle time. */
  function RoundToCycle(dcTime: int, cycleTimeNs: int): int
    requires cycleTimeNs > 0
  {
    JavaMath.Div(dcTime, cycleTimeNs) * cycleTimeNs
  }

  /** `a` and `b` differ by a whole number of cycles. */
  ghost predicate SamePhase(a: int, b: int, cycleTimeNs: int)
  {
    exists k: int :: a == b + Cycles(k, cycleTimeNs)
  }

  function Cycles(k: int, cycleTimeNs: int): int
  {
    k * cycleTimeNs
  }

  /**
   * For a non-negative DC time the cycle timestamp is the last sync pulse:
   * a whole number of cycles, not after the DC time and less than one cycle
   * before it.
   */
  lemma RoundToCycleSpec(dcTime: int, cycleTimeNs: int)
    requires cycleTimeNs > 0 && dcTime >= 0
    ensures var t := RoundToCycle(dcTime, cycleTimeNs);
      SamePhase(t, 0, cycleTimeNs) && 0 <= t <= dcTime < t + cycleTimeNs
  {
    var q := JavaMath.Div(dcTime, cycleTimeNs);
    JavaMath.DivModNat(dcTime, cycleTimeNs);
    assert q == dcTime / cycleTimeNs;
    assert RoundToCycle(dcTime, cycleTimeNs) == 0 + Cycles(q, cycleTimeNs);
  }

  /** Both timestamps are the same rounding: of the current DC time and of the DC time at start-up. */
  function CycleTimestamp(enableDc: bool, dcTime: int, cycleTimeNs: int, monotonicTime: int): int
    requires cycleTimeNs > 0
  {
    if enableDc then RoundToCycle(dcTime, cycleTimeNs) else monotonicTime
  }

  function InitTimestamp(enableDc: bool, startDcTime: int, cycleTimeNs: int, startTimeFreeRun: int): int
    requires cycleTimeNs > 0
  {
    if enableDc then RoundToCycle(startDcTime, cycleTimeNs) else startTimeFreeRun
  }

  /** A DC time exactly on a sync pulse is its own cycle timestamp; without DC the monotonic clock is used. */
  lemma CycleTimestampOnPulse(k: nat, cycleTimeNs: int, monotonicTime: int)
    requires cycleTimeNs > 0
    ensures CycleTimestamp(true, Cycles(k, cycleTimeNs), cycleTimeNs, monotonicTime) == Cycles(k, cycleTimeNs)
    ensures CycleTimestamp(false, Cycles(k, cycleTimeNs), cycleTimeNs, monotonicTime) == monotonicTime
  {
    DivExact(k, cycleTimeNs);
  }

  lemma DivExact(k: nat, c: int)
    requires c > 0
    ensures JavaMath.Div(Cycles(k, c), c) == k
  {
    var t := k * c;
    JavaMath.DivModNat(t, c);
    var q := t / c;
    var d := k - q;
    assert d * c == t % c by {
      assert d * c == k * c - q * c;
    }
    OnlyZeroBelow(d, c);
  }

  /** The only multiple of c in [0, c) is 0 times c. */
  lemma OnlyZeroBelow(d: int, c: int)
    requires c > 0 && 0 <= d * c < c
    ensures d == 0
  {
  }

  /**
   * The phase error: how far the DC time, less the sync offset, is past the
   * last cycle boundary (Java's truncating `%`), taken as negative when more
   * than half a cycle past.
   */
  function OffsetError(dcTime: int, syncOffset: int, cycleTimeNs: int): int
    requires cycleTimeNs > 0
  {
    var e := JavaMath.Rem(dcTime - syncOffset, cycleTimeNs);
    if e > JavaMath.Div(cycleTimeNs, 2) then e - cycleTimeNs else e
  }

  /**
   * The error is the phase modulo the cycle time; when the DC time is at
   * or after the sync offset it lies within half a cycle either way.
   */
  lemma OffsetErrorSpec(dcTime: int, syncOffset: int, cycleTimeNs: int)
    requires cycleTimeNs > 0
    ensures var e := OffsetError(dcTime, syncOffset, cycleTimeNs);
      SamePhase(e, dcTime - syncOffset, cycleTimeNs) &&
      -cycleTimeNs < e <= cycleTimeNs / 2 &&
      (dcTime >= syncOffset ==> -(cycleTimeNs / 2) <= e)
  {
    var x := dcTime - syncOffset;
    var r := JavaMath.Rem(x, cycleTimeNs);
    var q := JavaMath.Div(x, cycleTimeNs);
    assert JavaMath.Div(cycleTimeNs, 2) == cycleTimeNs / 2;
    assert x == q * cycleTimeNs + r;
    var e := OffsetError(dcTime, syncOffset, cycleTimeNs);
    assert -cycleTimeNs < r < cycleTimeNs;
    if r > cycleTimeNs / 2 {
      assert e == x + Cycles(-(q + 1), cycleTimeNs);
    } else {
      assert e == x + Cycles(-q, cycleTimeNs);
    }
  }

  /** The integral counts the sign of the error. */
  function IntegralStep(integral: int, error: int): (r: int)
    ensures error > 0 ==> r == integral + 1
    ensures error < 0 ==> r == integral - 1
    ensures error == 0 ==> r == integral
  {
    if error > 0 then integral + 1 else if error < 0 then integral - 1 else integral
  }

  /** The correction: a hundredth of the error and a twentieth of the integral, both truncated, against their sign. */
  function Correction(error: int, integral: int): int
  {
    -JavaMath.Div(error, 100) - JavaMath.Div(integral, 20)
  }

  /**
   * The correction opposes the error: a late loop (error and integral not
   * negative) is never delayed further, an early one never advanced, and in
   * step (both small) nothing is corrected.
   */
  lemma CorrectionOpposes(error: int, integral: int)
    ensures error >= 0 && integral >= 0 ==> Correction(error, integral) <= 0
    ensures error <= 0 && integral <= 0 ==> Correction(error, integral) >= 0
    ensures -100 < error < 100 && -20 < integral < 20 ==> Correction(error, integral) == 0
    ensures error >= 100 && integral >= 0 ==> Correction(error, integral) < 0
  {
  }

  class DcController {
    var dcOffsetError: int
    var dcControlIntegral: int

    constructor ()
      ensures dcOffsetError == 0 && dcControlIntegral == 0
    {
      dcOffsetError := 0;
      dcControlIntegral := 0;
    }

    /** One step of the PI controller on the DC time read this cycle. */
    method CalculateDcOffsetTime(dcTime: int, syncOffset: int, cycleTimeNs: int) returns (offset: int)
      requires cycleTimeNs > 0
      modifies this
      ensures dcOffsetError == OffsetError(dcTime, syncOffset, cycleTimeNs)
      ensures dcControlIntegral == IntegralStep(old(dcControlIntegral), dcOffsetError)
      ensures offset == Correction(dcOffsetError, dcControlIntegral)
    {
      dcOffsetError := JavaMath.Rem(dcTime - syncOffset, cycleTimeNs);
      if dcOffsetError > JavaMath.Div(cycleTimeNs, 2) {
        dcOffsetError := dcOffsetError - cycleTimeNs;
      }
      if dcOffsetError > 0 {
        dcControlIntegral := dcControlIntegral + 1;
      }
      if dcOffsetError < 0 {
        dcControlIntegral := dcControlIntegral - 1;
      }
      offset := -JavaMath.Div(dcOffsetError, 100) - JavaMath.Div(dcControlIntegral, 20);
    }
  }

  /** How a second transfer in one cycle ended. */
  datatype SecondaryOutcome = NotEnoughTime | DatagramLost | WorkingCounterMismatch | Transferred

  /**
   * doSecondaryTransfer: transfer only if the time used in this cycle, the
   * sync offset, the last transaction time and the headroom all fit before
   * the next cycle; then the transfer succeeds only with a frame back and the
   * expected working counter.
   */
  function SecondaryTransfer(elapsed: int, syncOffset: int, transactionTime: int, headroom: int, cycleTimeNs: int,
                             wkc: int, expectedWkc: int): (r: SecondaryOutcome)
    ensures r != NotEnoughTime <==> elapsed + syncOffset + transactionTime + headroom < cycleTimeNs
    ensures r == Transferred <==>
      elapsed + syncOffset + transactionTime + headroom < cycleTimeNs && wkc != EtherCatSlave.NoFrame && wkc == expectedWkc
  {
    if elapsed + syncOffset + transactionTime + headroom < cycleTimeNs then
      if wkc == EtherCatSlave.NoFrame then DatagramLost
      else if wkc != expectedWkc then WorkingCounterMismatch
      else Transferred
    else NotEnoughTime
  }

  /**
   * Checked against the master's expected working counter, a frame that
   * every mapped output and input slave answered is transferred when the time
   * fits, and a frame that fewer of them answered is a mismatch.
   */
  lemma SecondaryTransferNeedsEverySlave(elapsed: int, syncOffset: int, transactionTime: int, headroom: int, cycleTimeNs: int,
                                         outputsWkc: nat, inputsWkc: nat, answeredOutputs: nat, answeredInputs: nat)
    requires answeredOutputs <= outputsWkc && answeredInputs <= inputsWkc
    requires elapsed + syncOffset + transactionTime + headroom < cycleTimeNs
    ensures var r := SecondaryTransfer(elapsed, syncOffset, transactionTime, headroom, cycleTimeNs,
                                       EtherCatMaster.ExpectedWorkingCounter(answeredOutputs, answeredInputs),
                                       EtherCatMaster.ExpectedWorkingCounter(outputsWkc, inputsWkc));
      (r == Transferred <==> answeredOutputs == outputsWkc && answeredInputs == inputsWkc) &&
      (r != Transferred ==> r == WorkingCounterMismatch)
  {
    EtherCatMaster.ExpectedWorkingCounterMonotone(outputsWkc, inputsWkc, answeredOutputs, answeredInputs);
  }
}
