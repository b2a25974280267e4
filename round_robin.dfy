/**
 * The round-robin index shared by the SDO servicing and the pipeline
 * executor: the index after `current` in a list of n entries is the next
 * one, wrapping to 0 past the end.
 */
module RoundRobin {
  /** The index after `current` in a list of n entries, wrapping to 0. */
  function StepIndex(current: nat, n: nat): nat
  {
    if current + 1 >= n then 0 else current + 1
  }

  /** The index after j steps. */
  function Cycle(current: nat, j: nat, n: nat): nat
  {
    if j == 0 then current else StepIndex(Cycle(current, j - 1, n), n)
  }

  /** j + 1 steps from `current` are j steps from the index after it. */
  lemma {:induction false} ShiftCycle(current: nat, n: nat, m: nat)
    ensures forall j :: 0 <= j < m ==> Cycle(current, j + 1, n) == Cycle(StepIndex(current, n), j, n)
  {
    if m > 0 {
      ShiftCycle(current, n, m - 1);
      assert m - 1 == 0 || Cycle(current, m, n) == Cycle(StepIndex(current, n), m - 1, n);
    }
  }

  /** From an index inside the list, the steps up to the end of the list do not wrap. */
  lemma {:induction false} CycleNoWrap(current: nat, n: nat, j: nat)
    requires current < n && current + j < n
    ensures Cycle(current, j, n) == current + j
  {
    if j > 0 {
      CycleNoWrap(current, n, j - 1);
    }
  }

  /** From index 0, the first n steps reach indices 1, ..., n - 1 and then 0. */
  lemma {:induction false} CycleFromZero(n: nat, j: nat)
    requires 0 < j <= n
    ensures Cycle(0, j, n) == if j < n then j else 0
  {
    if j < n {
      CycleNoWrap(0, n, j);
    } else {
      CycleNoWrap(0, n, j - 1);
    }
  }

  /** Wrapping: the steps past the end of the list continue from 0. */
  lemma {:induction false} CycleSplit(current: nat, n: nat, a: nat, b: nat)
    ensures Cycle(current, a + b, n) == Cycle(Cycle(current, a, n), b, n)
    decreases b
  {
    if b > 0 {
      CycleSplit(current, n, a, b - 1);
    }
  }

  /** n steps from any index visit every entry of the list. */
  lemma CycleCovers(current: nat, n: nat, k: nat)
    requires k < n
    ensures exists j :: 1 <= j <= n && Cycle(current, j, n) == k
  {
    var c0 := if current < n then current else n - 1;
    var e := if current < n then 0 else 1;
    // With c0 the last index, one step wraps to 0.
    if c0 + 1 < n {
      CycleNoWrap(c0, n, n - 1 - c0);
    }
    var toLast := n - 1 - c0;
    assert Cycle(c0, toLast, n) == n - 1 by {
      if toLast > 0 { CycleNoWrap(c0, n, toLast); }
    }
    CycleSplit(c0, n, toLast, 1);
    assert Cycle(c0, toLast + 1, n) == 0;
    var j: nat;
    if k > c0 {
      j := k - c0;
      CycleNoWrap(c0, n, j);
    } else {
      j := toLast + 1 + k;
      CycleSplit(c0, n, toLast + 1, k);
      if k > 0 {
        CycleFromZero(n, k);
      }
    }
    if current < n {
      assert 1 <= j <= n && Cycle(current, j, n) == k;
    } else {
      assert Cycle(current, 1, n) == 0 && Cycle(n - 1, 1, n) == 0;
      CycleSplit(current, n, 1, j - 1);
      CycleSplit(n - 1, n, 1, j - 1);
      assert Cycle(current, j, n) == k;
    }
  }


  /**
   * From an index inside the list, j <= n steps reach current + j, less n
   * once past the end: within one lap no index repeats, and after exactly
   * n steps the index is back where it started.
   */
  lemma {:induction false} CycleClosed(current: nat, n: nat, j: nat)
    requires current < n && j <= n
    ensures Cycle(current, j, n) == if current + j < n then current + j else current + j - n
  {
    if j > 0 {
      CycleClosed(current, n, j - 1);
    }
  }
}
