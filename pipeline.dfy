/**
 * The per-slave householding pipeline (SubDeviceStatePipeline) and the
 * round-robin executor that runs pipeline tasks (LightWeightPipelineExecutor).
 *
 * The tasks' own work (reading the slave state and error counters, the
 * slave's state control) is EtherCatSlave's; here only the routing between
 * tasks, the SDO pass and the executor's index are modelled. Whether a task
 * asks to be skipped, and whether an executed task reports itself finished,
 * are parameters.
 */
module Pipeline {
  import opened Wrappers
  import opened RoundRobin
  import EtherCatSlave

  /** The tasks of a slave's pipeline. */
  datatype PipelineTask =
    | CheckWorkingCounter
    | ReadDeviceState
    | ReadRxTxErrors
    | StateControlTransition
    | DoEtherCatStateControl
    | DoSdoTransfers
    | FinalState

  /** The fixed links between tasks; the two transitions choose their successor at run time. */
  function StaticNext(t: PipelineTask): Option<PipelineTask>
  {
    match t
    case ReadDeviceState => Some(ReadRxTxErrors)
    case ReadRxTxErrors => Some(StateControlTransition)
    case DoEtherCatStateControl => Some(FinalState)
    case _ => None
  }

  /**
   * The state-control transition: a slave in OP goes to the SDO transfers
   * and marks OP as reached; a slave that has reached OP before with
   * recovery disabled is left alone; any other slave gets state control.
   */
  function StateControlRoute(state: EtherCatSlave.SlaveState, recoveryDisabled: bool, hasReachedOp: bool)
    : (PipelineTask, bool)
  {
    if state == EtherCatSlave.Op then (DoSdoTransfers, true)
    else if recoveryDisabled && hasReachedOp then (FinalState, hasReachedOp)
    else (DoEtherCatStateControl, hasReachedOp)
  }

  /**
   * Reaching OP is never forgotten, and a slave is left alone only after it
   * reached OP with recovery disabled: otherwise it gets state control or,
   * in OP, SDO service.
   */
  lemma StateControlRouteSpec(state: EtherCatSlave.SlaveState, recoveryDisabled: bool, hasReachedOp: bool)
    ensures var (next, reached) := StateControlRoute(state, recoveryDisabled, hasReachedOp);
      (hasReachedOp ==> reached) &&
      (reached <==> hasReachedOp || state == EtherCatSlave.Op) &&
      (next == FinalState <==> state != EtherCatSlave.Op && recoveryDisabled && hasReachedOp) &&
      (next == DoSdoTransfers <==> state == EtherCatSlave.Op)
  {
  }

  /** The first SDO at or after `index` that transacts, if any. */
  function FirstPending(index: nat, pending: seq<bool>): (r: Option<nat>)
    ensures r.Some? ==> index <= r.value < |pending| && pending[r.value]
    ensures r.Some? ==> forall k :: index <= k < r.value ==> !pending[k]
    ensures r.None? ==> forall k :: index <= k < |pending| ==> !pending[k]
    decreases |pending| - index
  {
    if index >= |pending| then None
    else if pending[index] then Some(index)
    else FirstPending(index + 1, pending)
  }

  class SubDeviceStatePipeline {
    var hasReachedOp: bool
    var previousWkc: int
    /** DoSDOTransfers' position in the slave's SDO list. */
    var currentSdo: nat

    constructor ()
      ensures !hasReachedOp && previousWkc == -1 && currentSdo == 0
    {
      hasReachedOp := false;
      previousWkc := -1;
      currentSdo := 0;
    }

    /**
     * The working-counter check that starts each pass: a changed working
     * counter is recorded and the slave state is read; otherwise the error
     * counters are read if asked for, else the state-control transition
     * follows.
     */
    method CheckWorkingCounterNext(actualWkc: int, readRxErrorStatistics: bool) returns (next: PipelineTask)
      modifies this
      ensures next == ReadDeviceState <==> actualWkc != old(previousWkc)
      ensures next == ReadRxTxErrors <==> actualWkc == old(previousWkc) && readRxErrorStatistics
      ensures next == StateControlTransition <==> actualWkc == old(previousWkc) && !readRxErrorStatistics
      ensures previousWkc == actualWkc
      ensures hasReachedOp == old(hasReachedOp) && currentSdo == old(currentSdo)
    {
      if actualWkc != previousWkc {
        previousWkc := actualWkc;
        return ReadDeviceState;
      }
      next := if readRxErrorStatistics then ReadRxTxErrors else StateControlTransition;
    }

    /** The state-control transition on the slave's householder state; see StateControlRoute. */
    method StateControlNext(state: EtherCatSlave.SlaveState, recoveryDisabled: bool) returns (next: PipelineTask)
      modifies this
      ensures (next, hasReachedOp) == StateControlRoute(state, recoveryDisabled, old(hasReachedOp))
      ensures previousWkc == old(previousWkc) && currentSdo == old(currentSdo)
    {
      if state == EtherCatSlave.Op {
        hasReachedOp := true;
        return DoSdoTransfers;
      }
      next := if recoveryDisabled && hasReachedOp then FinalState else DoEtherCatStateControl;
    }

    /**
     * One SDO pass: from the current position, stop at the first SDO that
     * transacts and stay on it (not finished); after the last
     * SDO start again from 0 and report the task finished. With no SDOs the
     * task is finished at once and the position is kept.
     */
    method DoSdoTransfersExecute(pending: seq<bool>) returns (finished: bool)
      modifies this
      ensures |pending| == 0 ==> finished && currentSdo == old(currentSdo)
      ensures |pending| > 0 ==>
        var f := FirstPending(old(currentSdo), pending);
        (finished <==> f.None?) && currentSdo == (if f.Some? then f.value else 0)
      ensures hasReachedOp == old(hasReachedOp) && previousWkc == old(previousWkc)
    {
      if |pending| == 0 {
        return true;
      }
      while currentSdo < |pending|
        invariant FirstPending(currentSdo, pending) == FirstPending(old(currentSdo), pending)
        invariant hasReachedOp == old(hasReachedOp) && previousWkc == old(previousWkc)
        decreases |pending| - currentSdo
      {
        if pending[currentSdo] {
          break;
        }
        currentSdo := currentSdo + 1;
      }
      if currentSdo >= |pending| {
        currentSdo := 0;
        return true;
      }
      finished := false;
    }
  }

  /**
   * The executor's choice: the first task, starting at `current` and going
   * round the list at most once, that does not ask to be skipped.
   */
  function FirstRunnable(current: nat, skip: seq<bool>, attempts: nat): Option<nat>
    requires current < |skip|
    decreases attempts
  {
    if attempts == 0 then None
    else if !skip[current] then Some(current)
    else FirstRunnable(StepIndex(current, |skip|), skip, attempts - 1)
  }

  /**
   * The task chosen is inside the list and does not ask to be skipped, and
   * every task before it in round-robin order does; when none is chosen,
   * every task asks to be skipped.
   */
  lemma {:induction false} FirstRunnableSpec(current: nat, skip: seq<bool>, attempts: nat)
    requires current < |skip| && attempts <= |skip|
    ensures var r := FirstRunnable(current, skip, attempts);
      r.Some? ==> r.value < |skip| && !skip[r.value]
    ensures var r := FirstRunnable(current, skip, attempts);
      r.Some? ==> exists d: nat :: d < attempts && SkippedUntil(current, skip, d, r.value)
    ensures var r := FirstRunnable(current, skip, attempts);
      r.None? ==> forall j :: 0 <= j < attempts ==> skip[Cycle(current, j, |skip|)]
    decreases attempts
  {
    var n := |skip|;
    if attempts > 0 && skip[current] {
      var k := StepIndex(current, n);
      FirstRunnableSpec(k, skip, attempts - 1);
      ShiftCycle(current, n, attempts);
      var r := FirstRunnable(k, skip, attempts - 1);
      if r.Some? {
        var d: nat :| d < attempts - 1 && SkippedUntil(k, skip, d, r.value);
        assert Cycle(current, d + 1, n) == r.value;
        forall j | 0 <= j < d + 1 ensures skip[Cycle(current, j, n)] {
          if j > 0 {
            assert Cycle(current, j, n) == Cycle(k, j - 1, n);
          }
        }
        assert SkippedUntil(current, skip, d + 1, r.value);
      } else {
        forall j | 0 <= j < attempts ensures skip[Cycle(current, j, n)] {
          if j > 0 {
            assert Cycle(current, j, n) == Cycle(k, j - 1, n);
          }
        }
      }
    } else if attempts > 0 {
      assert SkippedUntil(current, skip, 0, current);
    }
  }

  /** After d steps from `current` the index is `at`, and every task stepped over asked to be skipped. */
  predicate SkippedUntil(current: nat, skip: seq<bool>, d: nat, at: nat)
  {
    Cycle(current, d, |skip|) == at &&
    forall j :: 0 <= j < d ==> Cycle(current, j, |skip|) < |skip| && skip[Cycle(current, j, |skip|)]
  }

  /** When the executor runs nothing, every task asked to be skipped. */
  lemma NothingRunnable(current: nat, skip: seq<bool>)
    requires current < |skip|
    ensures FirstRunnable(current, skip, |skip|).None? ==> forall k :: 0 <= k < |skip| ==> skip[k]
  {
    FirstRunnableSpec(current, skip, |skip|);
    if FirstRunnable(current, skip, |skip|).None? {
      forall k | 0 <= k < |skip| ensures skip[k] {
        var n := |skip|;
        var j := if k >= current then k - current else k + n - current;
        CycleClosed(current, n, j);
      }
    }
  }

  class LightWeightPipelineExecutor {
    var taskCount: nat
    var currentTaskIndex: nat
    var lastExecutedTaskIndex: nat

    /** The index is inside the task list whenever there are tasks. */
    ghost predicate Valid() reads this { currentTaskIndex == 0 || currentTaskIndex < taskCount }

    constructor ()
      ensures Valid() && taskCount == 0 && currentTaskIndex == 0 && lastExecutedTaskIndex == 0
    {
      taskCount := 0;
      currentTaskIndex := 0;
      lastExecutedTaskIndex := 0;
    }

    method AddTasks(count: nat)
      requires Valid()
      modifies this
      ensures Valid() && taskCount == old(taskCount) + count
      ensures currentTaskIndex == old(currentTaskIndex) && lastExecutedTaskIndex == old(lastExecutedTaskIndex)
    {
      taskCount := taskCount + count;
    }

    /**
     * One execution: skip tasks round-robin until one does not ask to be
     * skipped and run it, moving on only when it reports itself finished;
     * when the index comes back to where it started, run nothing. With no
     * tasks at all there is no current task, which is an error.
     */
    method Execute(skip: seq<bool>, finished: bool) returns (r: Result<Option<nat>>)
      requires Valid() && |skip| == taskCount
      modifies this
      ensures Valid() && taskCount == old(taskCount)
      ensures taskCount == 0 ==> r.Err? && currentTaskIndex == old(currentTaskIndex)
      ensures taskCount > 0 ==>
        var f := FirstRunnable(old(currentTaskIndex), skip, taskCount);
        r == Ok(f) &&
        (f.None? ==> currentTaskIndex == old(currentTaskIndex) && lastExecutedTaskIndex == old(lastExecutedTaskIndex)) &&
        (f.Some? ==>
           lastExecutedTaskIndex == f.value &&
           currentTaskIndex == if finished then StepIndex(f.value, taskCount) else f.value)
    {
      if taskCount == 0 {
        return Err("no current task");
      }
      var n := taskCount;
      var start := currentTaskIndex;
      ghost var j: nat := 0;
      while skip[currentTaskIndex]
        invariant currentTaskIndex < n && j < n && taskCount == n
        invariant currentTaskIndex == Cycle(start, j, n)
        invariant FirstRunnable(currentTaskIndex, skip, n - j) == FirstRunnable(start, skip, n)
        invariant lastExecutedTaskIndex == old(lastExecutedTaskIndex)
        decreases n - j
      {
        currentTaskIndex := StepIndex(currentTaskIndex, n);
        j := j + 1;
        if currentTaskIndex == start {
          CycleClosed(start, n, j);
          return Ok(None);
        }
        CycleClosed(start, n, j);
      }
      lastExecutedTaskIndex := currentTaskIndex;
      r := Ok(Some(currentTaskIndex));
      if finished {
        currentTaskIndex := StepIndex(currentTaskIndex, n);
      }
    }
  }
}
