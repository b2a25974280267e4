/**
 * SDO requests of the wrapper package (SDO and WriteSDO): a three-state
 * request shared between the user's thread and the master's thread, and the
 * SDO write built on it.
 *
 * Every move of the request state is a compare-and-set or a plain set; the
 * pure functions below give the state each operation leaves, and the class
 * methods are proved to follow them.
 */
module WrapperSdo {
  import opened Wrappers

  datatype RequestState = RequestNewData | RequestSuccess | Idle

  /** requestUpdateOnNextTick: compare-and-set IDLE -> REQUEST_NEW_DATA. */
  function Requested(s: RequestState): RequestState
  {
    if s == Idle then RequestNewData else s
  }

  /** updateInMasterThread: REQUEST_NEW_DATA -> REQUEST_SUCCESS when the transaction reports success. */
  function Ticked(s: RequestState, transactionOk: bool): RequestState
  {
    if s == RequestNewData && transactionOk then RequestSuccess else s
  }

  /** checkIfRequestSuccess: compare-and-set REQUEST_SUCCESS -> IDLE; true when it took place. */
  function Acknowledged(s: RequestState): (bool, RequestState)
  {
    if s == RequestSuccess then (true, Idle) else (false, s)
  }

  /**
   * The request only ever goes round IDLE -> REQUEST_NEW_DATA ->
   * REQUEST_SUCCESS -> IDLE: each operation either leaves the state alone
   * or takes exactly its own step of that cycle.
   */
  lemma RequestCycle(s: RequestState, ok: bool)
    ensures Requested(s) == s || (s == Idle && Requested(s) == RequestNewData)
    ensures Ticked(s, ok) == s || (s == RequestNewData && ok && Ticked(s, ok) == RequestSuccess)
    ensures Acknowledged(s).0 <==> s == RequestSuccess
    ensures Acknowledged(s).1 == s || (s == RequestSuccess && Acknowledged(s).1 == Idle)
  {
  }

  class SdoRequest {
    const slaveId: nat
    const index: int
    const subIndex: int
    const size: nat
    var state: RequestState

    constructor (slaveId: nat, index: int, subIndex: int, size: nat)
      ensures this.slaveId == slaveId && this.index == index && this.subIndex == subIndex && this.size == size
      ensures state == Idle
    {
      this.slaveId := slaveId;
      this.index := index;
      this.subIndex := subIndex;
      this.size := size;
      state := Idle;
    }

    method CheckIfRequestSuccess() returns (success: bool)
      modifies this
      ensures (success, state) == Acknowledged(old(state))
    {
      success := state == RequestSuccess;
      if success {
        state := Idle;
      }
    }

    method RequestUpdateOnNextTick()
      modifies this
      ensures state == Requested(old(state))
    {
      if state == Idle {
        state := RequestNewData;
      }
    }

    predicate TransactionIsDone() reads this { state == RequestSuccess }

    predicate SdoIsIdle() reads this { state == Idle }

    /** The master's tick; `transactionOk` is what the subclass's transaction reported. */
    method UpdateInMasterThread(transactionOk: bool)
      modifies this
      ensures state == Ticked(old(state), transactionOk)
    {
      match state {
        case RequestNewData =>
          if transactionOk {
            state := RequestSuccess;
          }
        case RequestSuccess =>
        case Idle =>
      }
    }
  }

  /** A value put into the write buffer, with its width in bytes. */
  datatype WriteValue = WriteValue(value: int, width: nat)

  /**
   * An SDO write. The value is put into the buffer only when the request is
   * idle; the master writes the buffer on its next tick, and the write
   * always counts as done.
   */
  class WriteSdo {
    const request: SdoRequest
    var buffer: Option<WriteValue>

    constructor (slaveId: nat, index: int, subIndex: int, size: nat)
      ensures fresh(request) && request.state == Idle && buffer == None
      ensures request.slaveId == slaveId && request.index == index && request.subIndex == subIndex && request.size == size
    {
      request := new SdoRequest(slaveId, index, subIndex, size);
      buffer := None;
    }

    predicate IsReady() reads this, request { request.SdoIsIdle() }

    /**
     * Writes a value of `width` bytes (1, 2, 4 or 8 for byte, short, int and
     * long): refused unless the request is idle, and refused when the buffer
     * is smaller than the value; otherwise the value is buffered and the
     * request moves to REQUEST_NEW_DATA.
     */
    method Write(value: int, width: nat) returns (ok: bool)
      modifies this, request
      ensures ok <==> old(request.state) == Idle && width <= request.size
      ensures ok ==> buffer == Some(WriteValue(value, width)) && request.state == RequestNewData
      ensures !ok ==> request.state == old(request.state) && buffer == old(buffer)
    {
      if !IsReady() {
        return false;
      }
      if width > request.size {
        // The put overflows the buffer before anything is stored.
        return false;
      }
      buffer := Some(WriteValue(value, width));
      request.RequestUpdateOnNextTick();
      ok := true;
    }

    /** The master's tick: a requested write is sent (returned here) and the request succeeds. */
    method UpdateInMasterThread() returns (sent: Option<WriteValue>)
      modifies request
      ensures request.state == Ticked(old(request.state), true)
      ensures sent == if old(request.state) == RequestNewData then buffer else None
    {
      sent := if request.state == RequestNewData then buffer else None;
      request.UpdateInMasterThread(true);
    }

    /**
     * Reports whether the last write was done and, as its documentation
     * says, makes the SDO ready for the next write.
     */
    method CheckIfSuccessful() returns (success: bool)
      modifies request
      ensures (success, request.state) == Acknowledged(old(request.state))
    {
      success := request.CheckIfRequestSuccess();
    }
  }

  /** checkIfSuccessful as written: it reports transactionIsDone and does not reset the request. */
  function CheckIfSuccessfulAsWritten(s: RequestState): (bool, RequestState)
  {
    (s == RequestSuccess, s)
  }

  /** What a user of a WriteSDO can do: write, let the master tick, check for success. */
  datatype WriteOp = WriteOp | TickOp | CheckOp

  /** The request state after a sequence of operations, with checkIfSuccessful as written. */
  function RunAsWritten(s: RequestState, ops: seq<WriteOp>): RequestState
    decreases ops
  {
    if ops == [] then s
    else
      var next := match ops[0] {
        case WriteOp => Requested(s)
        case TickOp => Ticked(s, true)
        case CheckOp => CheckIfSuccessfulAsWritten(s).1
      };
      RunAsWritten(next, ops[1..])
  }

  /** The request state after a sequence of operations, with the corrected checkIfSuccessful. */
  function RunCorrected(s: RequestState, ops: seq<WriteOp>): RequestState
    decreases ops
  {
    if ops == [] then s
    else
      var next := match ops[0] {
        case WriteOp => Requested(s)
        case TickOp => Ticked(s, true)
        case CheckOp => Acknowledged(s).1
      };
      RunCorrected(next, ops[1..])
  }

  /**
   * As written, once a write has succeeded the request never leaves
   * REQUEST_SUCCESS: whatever the user does, isReady stays false and every
   * later write is refused.
   */
  lemma {:induction false} WriteSdoStuckAsWritten(ops: seq<WriteOp>)
    ensures RunAsWritten(RequestSuccess, ops) == RequestSuccess
  {
    if ops != [] {
      WriteSdoStuckAsWritten(ops[1..]);
    }
  }

  /** The concrete trace: write, tick, a successful check, and the SDO is still not ready. */
  lemma WriteSdoSecondWriteRefused()
    ensures CheckIfSuccessfulAsWritten(RunAsWritten(Idle, [WriteOp, TickOp])).0
    ensures RunAsWritten(Idle, [WriteOp, TickOp, CheckOp]) != Idle
  {
  }

  /**
   * With the correction, one tick followed by one check brings the SDO back
   * to ready from any state, and a write then goes through to success.
   */
  lemma WriteSdoCorrectedRecovers(s: RequestState)
    ensures RunCorrected(s, [TickOp, CheckOp]) == Idle
    ensures RunCorrected(s, [TickOp, CheckOp, WriteOp, TickOp]) == RequestSuccess
  {
    assert [TickOp, CheckOp, WriteOp, TickOp][1..] == [CheckOp, WriteOp, TickOp];
    assert [CheckOp, WriteOp, TickOp][1..] == [WriteOp, TickOp];
    assert [WriteOp, TickOp][1..] == [TickOp];
  }
}
